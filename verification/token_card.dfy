/** One card of the token grid, src/components/tokens/TokenCard.tsx: which
    layout it takes, whether it reads the curve's liquidity, the effect that
    copies a fresh reading into its state and reports it to the list, and
    the rounded progress it shows. */
module TokenCard {
  import opened Common
  import opened JsStrings
  import opened BondingProgress

  /** The fields of `token` the card reads: `_count?.liquidityEvents` (None
      when `_count` is missing) and, for a token with liquidity events, the
      length of its `liquidityEvents` list (None when the token has no such
      list). */
  datatype CardToken = CardToken(address: string, eventCount: Option<nat>, events: Option<nat>)

  /** `token._count?.liquidityEvents > 0`. */
  predicate IsCompleted(token: CardToken)
  {
    token.eventCount.Some? && token.eventCount.value > 0
  }

  /** `shouldFetchLiquidity ? tokenAddress : null` with
      `shouldFetchLiquidity = !token._count?.liquidityEvents`. */
  function LiquidityReadAddress(token: CardToken): (r: Option<string>)
    ensures r.Some? <==> !IsCompleted(token)
    ensures r.Some? ==> r.value == token.address
  {
    if token.eventCount.None? || token.eventCount.value == 0 then Some(token.address) else None
  }

  /** What one run of the liquidity effect did: the new `currentLiquidity`
      state (a decimal string, initially "0") and the value passed to
      `onLiquidityUpdate`, if it was called. */
  datatype EffectResult = EffectResult(current: string, reported: Option<nat>)

  /** The effect on lines 33-45: only with fetching enabled, a reading whose
      third value is truthy (a nonzero bigint) and differs, as a string,
      from the state. `hasCallback` says whether the optional callback was
      given. */
  function LiquidityEffect(token: CardToken, reading: Option<nat>, current: string, hasCallback: bool): (r: EffectResult)
    ensures r.reported.Some? ==> hasCallback && r.reported == reading
    ensures r.current != current <==>
      !IsCompleted(token) && reading.Some? && reading.value != 0 && NatToString(reading.value) != current
    ensures r.current != current ==> r.current == NatToString(reading.value)
    ensures r.reported.Some? <==> hasCallback && r.current != current
  {
    var shouldFetch := token.eventCount.None? || token.eventCount.value == 0;
    if shouldFetch && reading.Some? && reading.value != 0 && NatToString(reading.value) != current then
      var next := NatToString(reading.value);
      EffectResult(next, if hasCallback then Some(reading.value) else None)
    else EffectResult(current, None)
  }

  /** The effect settles: run again on the state it produced with the same
      reading, it neither changes the state nor calls back a second time. */
  lemma EffectReportsOnce(token: CardToken, reading: Option<nat>, current: string, hasCallback: bool)
    ensures var first := LiquidityEffect(token, reading, current, hasCallback);
      LiquidityEffect(token, reading, first.current, hasCallback) == EffectResult(first.current, None)
  {
  }

  /** When the state holds the decimal form of a reading `held`, a new
      reading is reported exactly when it is a different, nonzero amount; a
      zero reading is never passed on. */
  lemma ReportsExactlyChangedAmounts(token: CardToken, held: nat, v: nat)
    requires !IsCompleted(token)
    ensures LiquidityEffect(token, Some(v), NatToString(held), true).reported.Some? <==> v != 0 && v != held
  {
    NatToStringInjective(v, held);
  }

  /** `calculateProgress(currentLiquidity)` where the state is the decimal
      form of `wei`, so `Number(liquidity)` gives `wei` back. */
  function Progress(token: CardToken, wei: nat, target: Num): (r: real)
    ensures IsCompleted(token) ==> r == 100.0
    ensures r <= 100.0
    ensures !IsCompleted(token) ==> r == Round2(Percentage(wei, target))
    ensures !IsCompleted(token) && target.Finite? && target.x > 0.0 ==> 0.0 <= r
  {
    if IsCompleted(token) then 100.0
    else Round2(Percentage(wei, target))
  }

  /** `progress < 100`: the percentage label on the bar (line 275). */
  predicate ShowsLabel(progress: real)
  {
    progress < 100.0
  }

  /** The label disappears once the token has graduated, and otherwise as
      soon as the unrounded percentage reaches 99.995, which rounds to 100. */
  lemma LabelShownIff(token: CardToken, wei: nat, target: Num)
    ensures ShowsLabel(Progress(token, wei, target)) <==>
      !IsCompleted(token) && Percentage(wei, target) < 99.995
  {
  }

  datatype Layout = Graduated | Trading

  /** Line 132: `isEnded && 'liquidityEvents' in token &&
      token.liquidityEvents.length > 0`. */
  function LayoutOf(token: CardToken, isEnded: bool): (r: Layout)
    ensures r == Graduated <==> isEnded && token.events.Some? && token.events.value > 0
  {
    if isEnded && token.events.Some? && token.events.value > 0 then Graduated else Trading
  }

  /** Everything a card decides from its inputs: the layout, the address
      it reads liquidity for, the rounded progress, the bar's width, and
      whether the bar carries the percentage label or the graduated
      layout's "Completed" caption. */
  datatype Card = Card(layout: Layout, read: Option<string>, progress: real, barWidth: real,
                       showsLabel: bool, showsCompleted: bool)

  /** The graduated layout (lines 132-189) draws a full bar captioned
      "Completed" and no percentage; the trading layout (lines 191-295)
      draws the bar at `progress` and labels it while below 100 (line 275). */
  function View(token: CardToken, isEnded: bool, wei: nat, target: Num): (r: Card)
    ensures r.layout == Graduated <==> isEnded && token.events.Some? && token.events.value > 0
    ensures r.read.Some? <==> !IsCompleted(token)
    ensures r.progress <= 100.0
    ensures r.showsCompleted <==> r.layout == Graduated
    ensures r.layout == Graduated ==> r.barWidth == 100.0 && !r.showsLabel
    ensures r.layout == Trading ==> r.barWidth == r.progress
    ensures r.showsLabel <==> r.layout == Trading && r.progress < 100.0
  {
    var p := Progress(token, wei, target);
    var layout := LayoutOf(token, isEnded);
    Card(layout, LiquidityReadAddress(token), p,
         if layout == Graduated then 100.0 else p,
         layout == Trading && ShowsLabel(p),
         layout == Graduated)
  }

  /** A card whose token has liquidity events on its count reads nothing,
      shows a full bar and no label, whatever amount its state still holds. */
  lemma CompletedCardIsFull(token: CardToken, isEnded: bool, wei: nat, target: Num)
    requires IsCompleted(token)
    ensures var c := View(token, isEnded, wei, target);
      c.read.None? && c.progress == 100.0 && c.barWidth == 100.0 && !c.showsLabel
  {
  }

  /** The layout follows the `liquidityEvents` list, not `_count`: an ended
      token with events takes the graduated layout (a full bar, no label)
      even while its count says it is not completed and the card still
      reads liquidity; with no events it keeps the trading layout. */
  lemma LayoutIgnoresCount(token: CardToken, isEnded: bool, wei: nat, target: Num)
    requires isEnded && token.events.Some? && token.events.value > 0 && !IsCompleted(token)
    ensures var c := View(token, isEnded, wei, target);
      c.layout == Graduated && c.read == Some(token.address) && c.barWidth == 100.0
      && !c.showsLabel && c.showsCompleted
    ensures View(token.(events := None), isEnded, wei, target).layout == Trading
  {
  }
}
