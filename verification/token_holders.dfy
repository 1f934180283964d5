/** Holder shares of src/components/TokenDetails/TokenHolders.tsx: the
    BigInt supply sum that skips the token contract, the basis-point share
    and its two-decimal rendering, the bonding-curve row and the filtered
    holder rows, and the numbered pager. */
module TokenHolders {
  import opened Common
  import opened JsStrings
  import AddressFormat

  /** A `TokenHolder` with its balance string already read as a BigInt. */
  datatype Holder = Holder(address: string, balance: nat)

  /** `a.toLowerCase() === b.toLowerCase()`. */
  predicate SameAddress(a: string, b: string)
  {
    SameIgnoringCase(a, b)
  }

  /** Counted in the supply: every holder but the token contract itself. */
  predicate Counted(h: Holder, tokenAddress: string)
  {
    !SameAddress(h.address, tokenAddress)
  }

  /** The `allHolders.reduce(...)` fold, left to right from `BigInt(0)`. */
  function TotalSupply(holders: seq<Holder>, tokenAddress: string): (total: nat)
    ensures total == 0 ==> forall i :: 0 <= i < |holders| && Counted(holders[i], tokenAddress) ==>
      holders[i].balance == 0
  {
    if |holders| == 0 then 0
    else
      var last := holders[|holders| - 1];
      TotalSupply(holders[..|holders| - 1], tokenAddress) + (if Counted(last, tokenAddress) then last.balance else 0)
  }

  /** The holders the supply counts, in order. */
  function CountedHolders(holders: seq<Holder>, tokenAddress: string): (r: seq<Holder>)
    ensures forall h :: h in r <==> h in holders && Counted(h, tokenAddress)
  {
    if |holders| == 0 then []
    else (if Counted(holders[0], tokenAddress) then [holders[0]] else [])
         + CountedHolders(holders[1..], tokenAddress)
  }

  function SumBalances(hs: seq<Holder>): nat
  {
    if |hs| == 0 then 0 else hs[0].balance + SumBalances(hs[1..])
  }

  lemma {:induction false} CountedHoldersAppend(a: seq<Holder>, b: seq<Holder>, tokenAddress: string)
    ensures CountedHolders(a + b, tokenAddress) == CountedHolders(a, tokenAddress) + CountedHolders(b, tokenAddress)
    decreases |a|
  {
    if |a| > 0 {
      assert (a + b)[1..] == a[1..] + b;
      CountedHoldersAppend(a[1..], b, tokenAddress);
    } else {
      assert a + b == b;
    }
  }

  lemma {:induction false} SumBalancesAppend(a: seq<Holder>, b: seq<Holder>)
    ensures SumBalances(a + b) == SumBalances(a) + SumBalances(b)
    decreases |a|
  {
    if |a| > 0 {
      assert (a + b)[1..] == a[1..] + b;
      SumBalancesAppend(a[1..], b);
    } else {
      assert a + b == b;
    }
  }

  /** The fold is the sum of the balances of exactly the counted holders. */
  lemma {:induction false} TotalSupplyIsSumOfCounted(holders: seq<Holder>, tokenAddress: string)
    ensures TotalSupply(holders, tokenAddress) == SumBalances(CountedHolders(holders, tokenAddress))
    decreases |holders|
  {
    if |holders| > 0 {
      var init, last := holders[..|holders| - 1], holders[|holders| - 1];
      assert holders == init + [last];
      TotalSupplyIsSumOfCounted(init, tokenAddress);
      CountedHoldersAppend(init, [last], tokenAddress);
      assert CountedHolders([last], tokenAddress) == if Counted(last, tokenAddress) then [last] else [] by {
        assert [last][1..] == [];
      }
      SumBalancesAppend(CountedHolders(init, tokenAddress), CountedHolders([last], tokenAddress));
    }
  }

  /** Every counted holder's balance is part of the supply. */
  lemma {:induction false} CountedBalanceAtMostSupply(holders: seq<Holder>, tokenAddress: string, i: int)
    requires 0 <= i < |holders| && Counted(holders[i], tokenAddress)
    ensures holders[i].balance <= TotalSupply(holders, tokenAddress)
    decreases |holders|
  {
    if i < |holders| - 1 {
      var init := holders[..|holders| - 1];
      assert init[i] == holders[i];
      CountedBalanceAtMostSupply(init, tokenAddress, i);
    }
  }

  // ---- the share of one holder ----

  /** `BigInt(balance) * BigInt(10000) / totalSupply`: hundredths of a percent. */
  function BasisPoints(balance: nat, totalSupply: nat): (bp: nat)
    requires totalSupply > 0
    ensures bp * totalSupply <= balance * 10000 < (bp + 1) * totalSupply
  {
    balance * 10000 / totalSupply
  }

  /** `(Number(bp) / 100).toFixed(2) + '%'`, written as integer formatting:
      the whole percent, a point, and exactly two digits of hundredths. */
  function FormatBasisPoints(bp: nat): (r: string)
    ensures |r| >= 5 && r[|r| - 1] == '%' && r[|r| - 4] == '.'
    ensures forall i :: 0 <= i < |r| - 4 ==> IsDigit(r[i])
    ensures IsDigit(r[|r| - 3]) && IsDigit(r[|r| - 2])
  {
    NatToString(bp / 100) + "." + [DigitChar(bp % 100 / 10), DigitChar(bp % 10)] + "%"
  }

  /** Reading the rendered percentage back gives the basis points. */
  lemma FormatBasisPointsReadsBack(bp: nat)
    ensures var r := FormatBasisPoints(bp);
      ParseDigits(r[..|r| - 4]) * 100 + DigitValue(r[|r| - 3]) * 10 + DigitValue(r[|r| - 2]) == bp
  {
    var r := FormatBasisPoints(bp);
    assert r[..|r| - 4] == NatToString(bp / 100);
    ParseNatToString(bp / 100);
  }

  /** `calculatePercentage(balance, address)`. */
  function CalculatePercentage(h: Holder, tokenAddress: string, totalSupply: nat): (r: string)
    ensures !Counted(h, tokenAddress) || totalSupply == 0 ==> r == "0%"
    ensures Counted(h, tokenAddress) && totalSupply > 0 ==>
      r == FormatBasisPoints(BasisPoints(h.balance, totalSupply))
  {
    if SameAddress(h.address, tokenAddress) then "0%"
    else if totalSupply == 0 then "0%"
    else FormatBasisPoints(BasisPoints(h.balance, totalSupply))
  }

  /** A counted holder's share is at most 100.00%. */
  lemma CountedShareAtMostWhole(holders: seq<Holder>, tokenAddress: string, i: int)
    requires 0 <= i < |holders| && Counted(holders[i], tokenAddress)
    requires TotalSupply(holders, tokenAddress) > 0
    ensures BasisPoints(holders[i].balance, TotalSupply(holders, tokenAddress)) <= 10000
  {
    var t := TotalSupply(holders, tokenAddress);
    var b := holders[i].balance;
    CountedBalanceAtMostSupply(holders, tokenAddress, i);
    MulLeft(b, t, 10000);
    CancelFactor(BasisPoints(b, t), 10000, t);
  }

  lemma MulLeft(a: nat, b: nat, n: nat)
    requires a <= b
    ensures a * n <= b * n
  {
  }

  lemma CancelFactor(x: nat, y: nat, t: nat)
    requires t > 0 && x * t <= y * t
    ensures x <= y
  {
  }

  function SumBasisPoints(hs: seq<Holder>, totalSupply: nat): nat
    requires totalSupply > 0
  {
    if |hs| == 0 then 0 else BasisPoints(hs[0].balance, totalSupply) + SumBasisPoints(hs[1..], totalSupply)
  }

  lemma {:induction false} SumBasisPointsScaled(hs: seq<Holder>, totalSupply: nat)
    requires totalSupply > 0
    ensures SumBasisPoints(hs, totalSupply) * totalSupply <= SumBalances(hs) * 10000
    decreases |hs|
  {
    if |hs| > 0 {
      SumBasisPointsScaled(hs[1..], totalSupply);
      var x, y := BasisPoints(hs[0].balance, totalSupply), SumBasisPoints(hs[1..], totalSupply);
      assert (x + y) * totalSupply == x * totalSupply + y * totalSupply;
      assert (hs[0].balance + SumBalances(hs[1..])) * 10000 == hs[0].balance * 10000 + SumBalances(hs[1..]) * 10000;
    }
  }

  /** The shown shares of all counted holders add up to at most 100.00%:
      rounding every share down never overshoots the whole. */
  lemma SharesSumAtMostWhole(holders: seq<Holder>, tokenAddress: string)
    requires TotalSupply(holders, tokenAddress) > 0
    ensures SumBasisPoints(CountedHolders(holders, tokenAddress), TotalSupply(holders, tokenAddress)) <= 10000
  {
    var t := TotalSupply(holders, tokenAddress);
    var cs := CountedHolders(holders, tokenAddress);
    TotalSupplyIsSumOfCounted(holders, tokenAddress);
    SumBasisPointsScaled(cs, t);
    CancelFactor(SumBasisPoints(cs, t), 10000, t);
  }

  // ---- rows ----

  /** `process.env.NEXT_PUBLIC_BONDING_CURVE_MANAGER_ADDRESS?.toLowerCase()`
      compared with a lowercased address: never equal when the variable is unset. */
  predicate IsManager(address: string, manager: Option<string>)
  {
    manager.Some? && SameAddress(address, manager.value)
  }

  predicate Listed(h: Holder, tokenAddress: string, manager: Option<string>)
  {
    Counted(h, tokenAddress) && !IsManager(h.address, manager)
  }

  /** `filteredHolders`: every holder but the token contract and the manager. */
  function FilteredHolders(all: seq<Holder>, tokenAddress: string, manager: Option<string>): (r: seq<Holder>)
    ensures forall h :: h in r <==> h in all && Listed(h, tokenAddress, manager)
    ensures |r| <= |all|
  {
    if |all| == 0 then []
    else (if Listed(all[0], tokenAddress, manager) then [all[0]] else [])
         + FilteredHolders(all[1..], tokenAddress, manager)
  }

  /** Filtering keeps the order: filtering a concatenation concatenates the
      filtered parts. */
  lemma {:induction false} FilteredHoldersAppend(a: seq<Holder>, b: seq<Holder>, tokenAddress: string, manager: Option<string>)
    ensures FilteredHolders(a + b, tokenAddress, manager)
         == FilteredHolders(a, tokenAddress, manager) + FilteredHolders(b, tokenAddress, manager)
    decreases |a|
  {
    if |a| > 0 {
      assert (a + b)[1..] == a[1..] + b;
      FilteredHoldersAppend(a[1..], b, tokenAddress, manager);
    } else {
      assert a + b == b;
    }
  }

  /** `allHolders.find(...)`: the first holder at the manager's address. */
  function BondingCurveHolder(all: seq<Holder>, manager: Option<string>): (r: Option<Holder>)
    ensures r.None? <==> forall i :: 0 <= i < |all| ==> !IsManager(all[i].address, manager)
    ensures r.Some? ==> exists i ::
      (0 <= i < |all| && all[i] == r.value && IsManager(r.value.address, manager)
       && forall j :: 0 <= j < i ==> !IsManager(all[j].address, manager))
  {
    if |all| == 0 then None
    else if IsManager(all[0].address, manager) then Some(all[0])
    else
      var r := BondingCurveHolder(all[1..], manager);
      if r.Some? then
        assert forall i :: 0 <= i < |all| - 1 ==> all[1..][i] == all[i + 1];
        r
      else r
  }

  /** The share in the fixed "Bonding Curve" row: `'0%'` when the manager
      holds nothing listed. */
  function BondingCurveShare(all: seq<Holder>, tokenAddress: string, manager: Option<string>): (r: string)
    ensures BondingCurveHolder(all, manager).None? ==> r == "0%"
    ensures BondingCurveHolder(all, manager).Some? ==>
      r == CalculatePercentage(BondingCurveHolder(all, manager).value, tokenAddress, TotalSupply(all, tokenAddress))
  {
    match BondingCurveHolder(all, manager)
    case None => "0%"
    case Some(h) => CalculatePercentage(h, tokenAddress, TotalSupply(all, tokenAddress))
  }

  datatype HolderRow = HolderRow(holder: string, share: string)

  /** The holder cell: "Creator" on an exact (case-sensitive) match with the
      creator address, the shortened address otherwise. */
  function HolderCell(h: Holder, creatorAddress: string): (cell: string)
    ensures h.address == creatorAddress ==> cell == "Creator"
    ensures h.address != creatorAddress ==> cell == AddressFormat.ShortenAddress(h.address)
  {
    if h.address == creatorAddress then "Creator" else AddressFormat.ShortenAddress(h.address)
  }

  /** The holders pager: prev, every page 1..totalPages, next. */
  datatype HoldersPager =
    | NoPager
    | Numbered(prev: int, prevDisabled: bool, pages: seq<int>, active: int, next: int, nextDisabled: bool)

  function HoldersPagerView(currentPage: int, totalPages: int): (p: HoldersPager)
    ensures p.Numbered? <==> totalPages > 1
    ensures p.Numbered? ==> |p.pages| == totalPages && forall i :: 0 <= i < |p.pages| ==> p.pages[i] == i + 1
    ensures p.Numbered? ==> (p.prevDisabled <==> currentPage == 1) && (p.nextDisabled <==> currentPage == totalPages)
  {
    if totalPages > 1 then
      Numbered(currentPage - 1, currentPage == 1, seq(totalPages, i => i + 1), currentPage,
               currentPage + 1, currentPage == totalPages)
    else NoPager
  }

  /** A rendered share that stays within the whole: "0%", or a formatted
      percentage of at most 100.00%. */
  predicate ShareWithinWhole(s: string)
  {
    s == "0%" || exists bp: nat :: bp <= 10000 && s == FormatBasisPoints(bp)
  }

  /** The share shown for any holder of the list is within the whole. */
  lemma HolderShareWithinWhole(all: seq<Holder>, tokenAddress: string, h: Holder)
    requires h in all
    ensures ShareWithinWhole(CalculatePercentage(h, tokenAddress, TotalSupply(all, tokenAddress)))
  {
    var t := TotalSupply(all, tokenAddress);
    if Counted(h, tokenAddress) && t > 0 {
      var i :| 0 <= i < |all| && all[i] == h;
      CountedShareAtMostWhole(all, tokenAddress, i);
      var bp := BasisPoints(h.balance, t);
      assert bp <= 10000 && CalculatePercentage(h, tokenAddress, t) == FormatBasisPoints(bp);
    }
  }

  lemma ListedSharesWithinWhole(all: seq<Holder>, tokenAddress: string, manager: Option<string>)
    ensures var listed := FilteredHolders(all, tokenAddress, manager);
      forall i :: 0 <= i < |listed| ==>
        ShareWithinWhole(CalculatePercentage(listed[i], tokenAddress, TotalSupply(all, tokenAddress)))
  {
    var listed := FilteredHolders(all, tokenAddress, manager);
    forall i | 0 <= i < |listed|
      ensures ShareWithinWhole(CalculatePercentage(listed[i], tokenAddress, TotalSupply(all, tokenAddress)))
    {
      assert listed[i] in listed;
      HolderShareWithinWhole(all, tokenAddress, listed[i]);
    }
  }

  /** The bonding-curve row's share is within the whole. */
  lemma BondingCurveShareWithinWhole(all: seq<Holder>, tokenAddress: string, manager: Option<string>)
    ensures ShareWithinWhole(BondingCurveShare(all, tokenAddress, manager))
  {
    var b := BondingCurveHolder(all, manager);
    if b.Some? {
      var i :| 0 <= i < |all| && all[i] == b.value && IsManager(b.value.address, manager)
        && forall j :: 0 <= j < i ==> !IsManager(all[j].address, manager);
      HolderShareWithinWhole(all, tokenAddress, b.value);
    }
  }

  datatype HoldersView = HoldersView(bondingCurve: string, rows: seq<HolderRow>, showNoData: bool, pager: HoldersPager)

  /** The rendered holders table: the bonding-curve row, then one row per
      holder that is neither the token contract nor the manager, in order,
      every share between "0%" and "100.00%"; the "no data" message iff
      `tokenHolders` is empty; the numbered pager iff there are two pages or more. */
  function View(tokenHolders: seq<Holder>, allHolders: seq<Holder>, tokenAddress: string, creatorAddress: string,
                manager: Option<string>, currentPage: int, totalPages: int): (v: HoldersView)
    ensures v.bondingCurve == BondingCurveShare(allHolders, tokenAddress, manager)
    ensures var listed := FilteredHolders(allHolders, tokenAddress, manager);
      |v.rows| == |listed| && forall i :: 0 <= i < |listed| ==>
        v.rows[i] == HolderRow(HolderCell(listed[i], creatorAddress),
                               CalculatePercentage(listed[i], tokenAddress, TotalSupply(allHolders, tokenAddress)))
    ensures ShareWithinWhole(v.bondingCurve)
    ensures forall i :: 0 <= i < |v.rows| ==> ShareWithinWhole(v.rows[i].share)
    ensures v.showNoData <==> |tokenHolders| == 0
    ensures v.pager == HoldersPagerView(currentPage, totalPages)
    ensures v.pager.Numbered? <==> totalPages > 1
  {
    BondingCurveShareWithinWhole(allHolders, tokenAddress, manager);
    ListedSharesWithinWhole(allHolders, tokenAddress, manager);
    var total := TotalSupply(allHolders, tokenAddress);
    var listed := FilteredHolders(allHolders, tokenAddress, manager);
    HoldersView(BondingCurveShare(allHolders, tokenAddress, manager),
                seq(|listed|, i requires 0 <= i < |listed| =>
                  HolderRow(HolderCell(listed[i], creatorAddress), CalculatePercentage(listed[i], tokenAddress, total))),
                |tokenHolders| == 0,
                HoldersPagerView(currentPage, totalPages))
  }
}
