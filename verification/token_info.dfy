/** The token detail panel, src/components/TokenDetails/TokenInfo.tsx: the
    description shortening, the progress bar and whether the on-chain
    liquidity is read. The price it shows follows the rule of module
    PriceCache. */
module TokenInfo {
  import opened Common
  import opened BondingProgress

  /** `maxLength` defaults to 250. */
  const DefaultMaxLength: nat := 250

  const Ellipsis := "..."

  /** `truncateDescription(description, maxLength)`. */
  function TruncateDescription(description: string, maxLength: nat): (r: string)
    ensures |description| <= maxLength ==> r == description
    ensures |description| > maxLength ==>
      |r| == maxLength + 3 && r[..maxLength] == description[..maxLength] && r[maxLength..] == Ellipsis
    ensures |r| <= maxLength + 3
  {
    if |description| <= maxLength then description
    else description[..maxLength] + Ellipsis
  }

  /** The result is the description itself exactly when it already fits, or
      when it is exactly three characters too long and already ends in
      "..." (cutting and re-adding the ellipsis then gives it back). */
  lemma TruncateUnchangedIff(description: string, maxLength: nat)
    ensures TruncateDescription(description, maxLength) == description <==>
      (|description| <= maxLength
       || (|description| == maxLength + 3 && description[maxLength..] == Ellipsis))
  {
    if |description| > maxLength {
      var r := TruncateDescription(description, maxLength);
      if |description| == maxLength + 3 && description[maxLength..] == Ellipsis {
        assert description == description[..maxLength] + description[maxLength..];
      }
      if r == description {
        assert description[maxLength..] == r[maxLength..];
      }
    }
  }

  /** Truncating twice with the same limit changes nothing more. */
  lemma TruncateIdempotent(description: string, maxLength: nat)
    ensures var once := TruncateDescription(description, maxLength);
      TruncateDescription(once, maxLength) == once
  {
    var once := TruncateDescription(description, maxLength);
    if |description| > maxLength {
      TruncateUnchangedIff(once, maxLength);
    }
  }

  /** `liquidityEvents?.liquidityEvents?.length > 0`; `eventCount` is None
      when the prop or its list is missing. */
  predicate IsCompleted(eventCount: Option<nat>)
  {
    eventCount.Some? && eventCount.value > 0
  }

  /** `useTokenLiquidity(shouldFetchLiquidity ? tokenAddress : null)` with
      `shouldFetchLiquidity = !liquidityEvents?.liquidityEvents?.length`. */
  function LiquidityReadAddress(eventCount: Option<nat>, tokenAddress: string): (r: Option<string>)
    ensures r.Some? ==> r.value == tokenAddress
  {
    var shouldFetch := eventCount.None? || eventCount.value == 0;
    if shouldFetch then Some(tokenAddress) else None
  }

  /** The chain is asked for liquidity exactly when the token has not
      graduated. */
  lemma ReadsLiquidityIffNotCompleted(eventCount: Option<nat>, tokenAddress: string)
    ensures LiquidityReadAddress(eventCount, tokenAddress).Some? <==> !IsCompleted(eventCount)
  {
  }

  /** `calculateProgress(currentLiquidity)`. */
  function CalculateProgress(eventCount: Option<nat>, wei: nat, target: Num): (r: real)
    ensures IsCompleted(eventCount) ==> r == 100.0
    ensures r <= 100.0
    ensures !IsCompleted(eventCount) && target.Finite? && target.x > 0.0 ==>
      0.0 <= r && (r == 100.0 <==> Tokens(wei) >= target.x)
  {
    if IsCompleted(eventCount) then 100.0 else Percentage(wei, target)
  }

  /** The progress bar: its width in percent and the percentage caption, which
      is absent once the token has graduated. */
  datatype ProgressBar = ProgressBar(width: real, caption: Option<real>)

  /** Lines 244-250: the bar is full and unlabelled when completed;
      otherwise both show the progress of the third value of the liquidity
      read (`liquidityData[2]`), or 0 while there is none. */
  function Bar(eventCount: Option<nat>, liquidity: Option<nat>, target: Num): (r: ProgressBar)
    ensures IsCompleted(eventCount) <==> r.caption.None?
    ensures IsCompleted(eventCount) ==> r.width == 100.0
    ensures r.caption.Some? ==> r.caption.value == r.width
    ensures r.width <= 100.0
    ensures !IsCompleted(eventCount) && liquidity.None? ==> r.width == 0.0
  {
    if IsCompleted(eventCount) then ProgressBar(100.0, None)
    else
      var w := if liquidity.Some? then CalculateProgress(eventCount, liquidity.value, target) else 0.0;
      ProgressBar(w, Some(w))
  }

  /** Until a token graduates its liquidity is read and the bar shows it;
      after, nothing is read and the bar is full whatever a stale read says. */
  lemma BarFollowsRead(eventCount: Option<nat>, tokenAddress: string, stale: Option<nat>, target: Num)
    ensures IsCompleted(eventCount) ==>
      LiquidityReadAddress(eventCount, tokenAddress).None?
      && Bar(eventCount, stale, target) == ProgressBar(100.0, None)
    ensures !IsCompleted(eventCount) && target.Finite? && target.x > 0.0 ==>
      LiquidityReadAddress(eventCount, tokenAddress) == Some(tokenAddress)
      && 0.0 <= Bar(eventCount, stale, target).width
  {
  }
}
