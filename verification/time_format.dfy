/** Relative-time rendering of `formatTimestamp` and `formatTimestampV1`
    (src/utils/blockchainUtils.ts). Both take the current time from the
    clock; here the whole-second difference `diffInSeconds` is the input. */
module TimeFormat {
  import opened JsStrings

  const SecondsPerMinute: int := 60
  const SecondsPerHour: int := 3600
  const SecondsPerDay: int := 86400
  /** A month is 30 days in both renderings. */
  const SecondsPerMonth: int := 2592000
  /** `formatTimestamp` divides by 365-day years ... */
  const SecondsPerYearAsWritten: int := 31536000
  /** ... while its months wrap after 12 months of 30 days. */
  const SecondsPerTwelveMonths: int := 31104000

  /** `Math.floor((now.getTime() - date.getTime()) / 1000)` from two
      millisecond clock readings. */
  function DiffInSeconds(nowMs: int, thenMs: int): (d: int)
    ensures d * 1000 <= nowMs - thenMs < d * 1000 + 1000
  {
    (nowMs - thenMs) / 1000
  }

  /** Floor division by the unit lengths nests: dividing by 60 twice is
      dividing by an hour, and so on up to twelve months. */
  lemma NestedDivisions(d: int)
    ensures (d / 60) / 60 == d / SecondsPerHour
    ensures (d / SecondsPerHour) / 24 == d / SecondsPerDay
    ensures (d / SecondsPerDay) / 30 == d / SecondsPerMonth
    ensures (d / SecondsPerMonth) / 12 == d / SecondsPerTwelveMonths
  {
  }

  // ---- formatTimestamp ----

  /** `a % b` with JavaScript's truncating remainder: it takes the sign of `a`. */
  function JsRem(a: int, b: int): (r: int)
    requires b > 0
    ensures a >= 0 ==> 0 <= r < b
    ensures a < 0 ==> -b < r <= 0
  {
    if a >= 0 then a % b else -((-a) % b)
  }

  /** `Math.floor((d / unit) % modulus)` evaluated exactly: `/` is real
      division and `%` is JavaScript's remainder, which keeps the sign of
      the dividend. Writing `d / unit = q + f/unit` for the magnitude, the
      remainder is `(q % modulus) + f/unit`, which is negated for negative `d`
      before flooring. */
  function FloorOfRemainder(d: int, unit: int, modulus: int): (r: int)
    requires unit > 0 && modulus > 0
    ensures d >= 0 ==> 0 <= r < modulus
    ensures d < 0 ==> -modulus <= r <= 0
  {
    if d >= 0 then (d / unit) % modulus
    else
      var q, f := (-d) / unit, (-d) % unit;
      if f == 0 then -(q % modulus) else -(q % modulus) - 1
  }

  datatype Components = Components(
    years: int, months: int, days: int, hours: int, minutes: int, seconds: int)

  /** The six counts `formatTimestamp` derives from `diffInSeconds`. */
  function ComponentsAsWritten(d: int): (c: Components)
    ensures d >= 0 ==>
      && 0 <= c.seconds < 60 && 0 <= c.minutes < 60 && 0 <= c.hours < 24
      && 0 <= c.days < 30 && 0 <= c.months < 12 && 0 <= c.years
    ensures d < 0 ==>
      c.seconds <= 0 && c.minutes <= 0 && c.hours <= 0
      && c.days <= 0 && c.months <= 0 && c.years < 0
    ensures d >= 0 ==>
      c.seconds + 60 * c.minutes + 3600 * c.hours + 86400 * c.days
      + SecondsPerMonth * c.months == d % SecondsPerTwelveMonths
  {
    var c := Components(
      d / SecondsPerYearAsWritten,
      FloorOfRemainder(d, SecondsPerMonth, 12),
      FloorOfRemainder(d, SecondsPerDay, 30),
      FloorOfRemainder(d, SecondsPerHour, 24),
      FloorOfRemainder(d, SecondsPerMinute, 60),
      JsRem(d, 60));
    if d >= 0 then MixedRadix(d); c else c
  }

  /** For a non-negative difference, the minute, hour, day and month counts
      are the digits of `d` in the radix 60, 60, 24, 30, 12. */
  lemma MixedRadix(d: int)
    requires d >= 0
    ensures d % 60 + 60 * ((d / 60) % 60) + 3600 * ((d / 3600) % 24)
      + 86400 * ((d / 86400) % 30) + SecondsPerMonth * ((d / SecondsPerMonth) % 12)
      == d % SecondsPerTwelveMonths
    ensures d == d % 60 + 60 * ((d / 60) % 60) + 3600 * ((d / 3600) % 24)
      + 86400 * ((d / 86400) % 30) + SecondsPerMonth * ((d / SecondsPerMonth) % 12)
      + SecondsPerTwelveMonths * (d / SecondsPerTwelveMonths)
  {
    NestedDivisions(d);
  }


  // ---- the counts against JavaScript's number arithmetic ----

  /** JavaScript's `x % m` on numbers, taken as exact reals: the result has
      the sign of `x` and magnitude below `m`. */
  function JsRealRem(x: real, m: real): real
    requires m > 0.0
  {
    if x >= 0.0 then x - m * ((x / m).Floor as real)
    else -((-x) - m * (((-x) / m).Floor as real))
  }

  /** `Math.floor(a / n)` on exact reals is integer floor division. */
  lemma FloorDivIsIntDiv(a: int, n: int)
    requires n > 0
    ensures (a as real / n as real).Floor == a / n
  {
    var q, r := a / n, a % n;
    assert a as real == n as real * q as real + r as real;
    assert a as real / n as real == q as real + r as real / n as real;
    assert 0.0 <= r as real / n as real < 1.0;
  }

  lemma MinutesFollowJs(d: int)
    ensures FloorOfRemainder(d, 60, 60) == JsRealRem(d as real / 60.0, 60.0).Floor
  {
    var x := d as real / 60.0;
    var a := if d >= 0 then d else -d;
    FloorDivIsIntDiv(a, 3600);
    FloorDivIsIntDiv(a, 60);
    var q := a / 60;
    var r := a % 60;
    assert a as real / 60.0 == q as real + r as real / 60.0;
    assert (a as real / 60.0) / 60.0 == a as real / 3600.0;
    assert q / 60 == a / 3600;
    if d >= 0 {
      assert x == a as real / 60.0;
      assert JsRealRem(x, 60.0) == (q - 60 * (a / 3600)) as real + r as real / 60.0;
    } else {
      assert -x == a as real / 60.0;
      assert JsRealRem(x, 60.0) == -((q - 60 * (a / 3600)) as real + r as real / 60.0);
    }
  }

  lemma HoursFollowJs(d: int)
    ensures FloorOfRemainder(d, 3600, 24) == JsRealRem(d as real / 3600.0, 24.0).Floor
  {
    var x := d as real / 3600.0;
    var a := if d >= 0 then d else -d;
    FloorDivIsIntDiv(a, 86400);
    FloorDivIsIntDiv(a, 3600);
    var q := a / 3600;
    var r := a % 3600;
    assert a as real / 3600.0 == q as real + r as real / 3600.0;
    assert (a as real / 3600.0) / 24.0 == a as real / 86400.0;
    assert q / 24 == a / 86400;
    if d >= 0 {
      assert x == a as real / 3600.0;
      assert JsRealRem(x, 24.0) == (q - 24 * (a / 86400)) as real + r as real / 3600.0;
    } else {
      assert -x == a as real / 3600.0;
      assert JsRealRem(x, 24.0) == -((q - 24 * (a / 86400)) as real + r as real / 3600.0);
    }
  }

  lemma DaysFollowJs(d: int)
    ensures FloorOfRemainder(d, 86400, 30) == JsRealRem(d as real / 86400.0, 30.0).Floor
  {
    var x := d as real / 86400.0;
    var a := if d >= 0 then d else -d;
    FloorDivIsIntDiv(a, 2592000);
    FloorDivIsIntDiv(a, 86400);
    var q := a / 86400;
    var r := a % 86400;
    assert a as real / 86400.0 == q as real + r as real / 86400.0;
    assert (a as real / 86400.0) / 30.0 == a as real / 2592000.0;
    assert q / 30 == a / 2592000;
    if d >= 0 {
      assert x == a as real / 86400.0;
      assert JsRealRem(x, 30.0) == (q - 30 * (a / 2592000)) as real + r as real / 86400.0;
    } else {
      assert -x == a as real / 86400.0;
      assert JsRealRem(x, 30.0) == -((q - 30 * (a / 2592000)) as real + r as real / 86400.0);
    }
  }

  lemma MonthsFollowJs(d: int)
    ensures FloorOfRemainder(d, 2592000, 12) == JsRealRem(d as real / 2592000.0, 12.0).Floor
  {
    var x := d as real / 2592000.0;
    var a := if d >= 0 then d else -d;
    FloorDivIsIntDiv(a, 31104000);
    FloorDivIsIntDiv(a, 2592000);
    var q := a / 2592000;
    var r := a % 2592000;
    assert a as real / 2592000.0 == q as real + r as real / 2592000.0;
    assert (a as real / 2592000.0) / 12.0 == a as real / 31104000.0;
    assert q / 12 == a / 31104000;
    if d >= 0 {
      assert x == a as real / 2592000.0;
      assert JsRealRem(x, 12.0) == (q - 12 * (a / 31104000)) as real + r as real / 2592000.0;
    } else {
      assert -x == a as real / 2592000.0;
      assert JsRealRem(x, 12.0) == -((q - 12 * (a / 31104000)) as real + r as real / 2592000.0);
    }
  }

  /** Each count of `ComponentsAsWritten` is the value the source's
      expression takes when its `/`, `%` and `Math.floor` are evaluated on
      exact reals, for every difference, negative ones included. */
  lemma ComponentsFollowJsArithmetic(d: int)
    ensures var c := ComponentsAsWritten(d);
      && c.seconds as real == JsRealRem(d as real, 60.0)
      && c.minutes == JsRealRem(d as real / 60.0, 60.0).Floor
      && c.hours == JsRealRem(d as real / 3600.0, 24.0).Floor
      && c.days == JsRealRem(d as real / 86400.0, 30.0).Floor
      && c.months == JsRealRem(d as real / 2592000.0, 12.0).Floor
      && c.years == (d as real / 31536000.0).Floor
  {
    MinutesFollowJs(d);
    HoursFollowJs(d);
    DaysFollowJs(d);
    MonthsFollowJs(d);
    FloorDivIsIntDiv(d, SecondsPerYearAsWritten);
    var a := if d >= 0 then d else -d;
    FloorDivIsIntDiv(a, 60);
    assert a as real == 60.0 * (a / 60) as real + (a % 60) as real;
  }

  datatype Unit = Year | Month | Day | Hour | Minute | Second

  /** Position of a unit in the fixed order yr, mo, d, h, m, s. */
  function Rank(u: Unit): nat
  {
    match u
    case Year => 0
    case Month => 1
    case Day => 2
    case Hour => 3
    case Minute => 4
    case Second => 5
  }

  datatype Part = Part(count: int, unit: Unit)

  /** One `if (count > 0 && unitCount < 2)` step of the accumulation. */
  function AddUnit(acc: seq<Part>, count: int, unit: Unit): seq<Part>
  {
    if count > 0 && |acc| < 2 then acc + [Part(count, unit)] else acc
  }

  /** The units `formatTimestamp` emits, in emission order. */
  function Parts(c: Components): (ps: seq<Part>)
    ensures |ps| <= 2
    ensures forall i :: 0 <= i < |ps| ==> ps[i].count > 0
    ensures forall i, j :: 0 <= i < j < |ps| ==> Rank(ps[i].unit) < Rank(ps[j].unit)
    ensures forall i :: 0 <= i < |ps| && ps[i].unit == Second ==> |ps| == 1
  {
    var p1 := AddUnit([], c.years, Year);
    var p2 := AddUnit(p1, c.months, Month);
    var p3 := AddUnit(p2, c.days, Day);
    var p4 := AddUnit(p3, c.hours, Hour);
    var p5 := AddUnit(p4, c.minutes, Minute);
    if c.seconds > 0 && |p5| == 0 then [Part(c.seconds, Second)] else p5
  }

  /** Reference reading of the accumulation: the (at most) two most
      significant positive units among yr, mo, d, h, m, and the seconds
      alone when none of those is positive. */
  function SignificantUnits(c: Components): seq<Part>
  {
    var big := Positive([Part(c.years, Year), Part(c.months, Month), Part(c.days, Day),
                         Part(c.hours, Hour), Part(c.minutes, Minute)]);
    if |big| > 2 then big[..2]
    else if |big| > 0 then big
    else if c.seconds > 0 then [Part(c.seconds, Second)]
    else []
  }

  function Positive(ps: seq<Part>): seq<Part>
  {
    if |ps| == 0 then []
    else (if ps[0].count > 0 then [ps[0]] else []) + Positive(ps[1..])
  }

  lemma PartsAreSignificantUnits(c: Components)
    ensures Parts(c) == SignificantUnits(c)
  {
    var l := [Part(c.years, Year), Part(c.months, Month), Part(c.days, Day),
              Part(c.hours, Hour), Part(c.minutes, Minute)];
    assert l[4..][1..] == [];
    assert Positive(l[4..]) == (if c.minutes > 0 then [l[4]] else []);
    assert l[3..][1..] == l[4..];
    assert Positive(l[3..]) == (if c.hours > 0 then [l[3]] else []) + Positive(l[4..]);
    assert l[2..][1..] == l[3..];
    assert Positive(l[2..]) == (if c.days > 0 then [l[2]] else []) + Positive(l[3..]);
    assert l[1..][1..] == l[2..];
    assert Positive(l[1..]) == (if c.months > 0 then [l[1]] else []) + Positive(l[2..]);
    assert Positive(l) == (if c.years > 0 then [l[0]] else []) + Positive(l[1..]);
  }

  function Suffix(u: Unit): string
  {
    match u
    case Year => "yr"
    case Month => "mo"
    case Day => "d"
    case Hour => "h"
    case Minute => "m"
    case Second => "s"
  }

  function RenderPart(p: Part): string
  {
    IntToString(p.count) + Suffix(p.unit)
  }

  /** `result += `${n}unit ``, one blank after every part. */
  function Accumulate(ps: seq<Part>): string
  {
    if |ps| == 0 then "" else Accumulate(ps[..|ps| - 1]) + RenderPart(ps[|ps| - 1]) + " "
  }

  /** The parts joined by single blanks, as the trimmed accumulation reads. */
  function JoinParts(ps: seq<Part>): string
  {
    if |ps| == 0 then ""
    else if |ps| == 1 then RenderPart(ps[0])
    else JoinParts(ps[..|ps| - 1]) + " " + RenderPart(ps[|ps| - 1])
  }

  /** `formatTimestamp(timestamp)` for a difference of `d` seconds. */
  function FormatTimestamp(d: int): (r: string)
    ensures |r| >= 4 && r[|r| - 4..] == " ago"
    ensures r == JoinParts(Parts(ComponentsAsWritten(d))) + " ago"
  {
    var ps := Parts(ComponentsAsWritten(d));
    TrimAccumulated(ps);
    var joined := JoinParts(ps);
    assert (joined + " ago")[|joined|..] == " ago";
    Trim(Accumulate(ps)) + " ago"
  }

  lemma RenderPartShape(p: Part)
    requires p.count > 0
    ensures var s := RenderPart(p); |s| > 0 && !IsWhitespace(s[0]) && !IsWhitespace(s[|s| - 1])
  {
    var n := NatToString(p.count);
    assert RenderPart(p)[0] == n[0];
  }

  /** Trimming the accumulated string removes exactly the trailing blank. */
  lemma TrimAccumulated(ps: seq<Part>)
    requires |ps| <= 2
    requires forall i :: 0 <= i < |ps| ==> ps[i].count > 0
    ensures Trim(Accumulate(ps)) == JoinParts(ps)
  {
    if |ps| == 0 {
      assert Accumulate(ps) == "";
    } else if |ps| == 1 {
      TrimAccumulatedOne(ps);
    } else {
      TrimAccumulatedTwo(ps);
    }
  }

  lemma TrimAccumulatedOne(ps: seq<Part>)
    requires |ps| == 1 && ps[0].count > 0
    ensures Trim(Accumulate(ps)) == JoinParts(ps)
  {
    assert ps[..0] == [];
    assert Accumulate(ps) == RenderPart(ps[0]) + " ";
    RenderPartShape(ps[0]);
    TrimDropsTrailingBlank(RenderPart(ps[0]));
  }

  lemma TrimAccumulatedTwo(ps: seq<Part>)
    requires |ps| == 2 && ps[0].count > 0 && ps[1].count > 0
    ensures Trim(Accumulate(ps)) == JoinParts(ps)
  {
    var a, b := RenderPart(ps[0]), RenderPart(ps[1]);
    assert ps[..1] == [ps[0]] && ps[..1][..0] == [];
    assert Accumulate(ps[..1]) == a + " ";
    assert Accumulate(ps) == (a + " " + b) + " ";
    assert JoinParts(ps) == a + " " + b;
    RenderPartShape(ps[0]);
    RenderPartShape(ps[1]);
    TrimJoinedPair(a, b);
  }


  lemma TrimJoinedPair(a: string, b: string)
    requires |a| > 0 && !IsWhitespace(a[0])
    requires |b| > 0 && !IsWhitespace(b[|b| - 1])
    ensures Trim((a + " " + b) + " ") == a + " " + b
  {
    var j := a + " " + b;
    assert j[0] == a[0];
    assert j[|j| - 1] == b[|b| - 1];
    TrimDropsTrailingBlank(j);
  }


  /** Every difference of zero or less renders as the bare suffix. */
  lemma NonPositiveRendersBareAgo(d: int)
    requires d <= 0
    ensures Parts(ComponentsAsWritten(d)) == []
    ensures FormatTimestamp(d) == " ago"
  {
    assert JoinParts([]) == "";
  }

  // ---- the 360-day year discrepancy ----

  /** Between 360 and 365 days, `formatTimestamp` as written reports neither
      a year (365-day years) nor a month (months wrap after 360 days). */
  lemma AsWrittenLosesYearAndMonth(d: int)
    requires SecondsPerTwelveMonths <= d < SecondsPerYearAsWritten
    ensures ComponentsAsWritten(d).years == 0 && ComponentsAsWritten(d).months == 0
  {
  }

  /** A difference of exactly 360 days renders as if no time had passed. */
  lemma AsWrittenThreeSixtyDaysRendersAgo()
    ensures FormatTimestamp(SecondsPerTwelveMonths) == " ago"
  {
    var d := SecondsPerTwelveMonths;
    AsWrittenLosesYearAndMonth(d);
    var c := ComponentsAsWritten(d);
    assert c.seconds == 0 && c.minutes == 0 && c.hours == 0 && c.days == 0;
  }

  /** The evidently intended counts: years of 12 thirty-day months, so that
      the six counts are the digits of `d` in one mixed radix. Negative
      differences keep the as-written counts. */
  function ComponentsFixed(d: int): (c: Components)
    ensures d >= 0 ==>
      && 0 <= c.seconds < 60 && 0 <= c.minutes < 60 && 0 <= c.hours < 24
      && 0 <= c.days < 30 && 0 <= c.months < 12 && 0 <= c.years
    ensures d >= 0 ==>
      d == c.seconds + 60 * c.minutes + 3600 * c.hours + 86400 * c.days
        + SecondsPerMonth * c.months + SecondsPerTwelveMonths * c.years
  {
    var w := ComponentsAsWritten(d);
    if d >= 0 then MixedRadix(d); w.(years := d / SecondsPerTwelveMonths)
    else w
  }

  function FormatTimestampFixed(d: int): (r: string)
    ensures |r| >= 4 && r[|r| - 4..] == " ago"
    ensures r == JoinParts(Parts(ComponentsFixed(d))) + " ago"
  {
    var ps := Parts(ComponentsFixed(d));
    TrimAccumulated(ps);
    Trim(Accumulate(ps)) + " ago"
  }

  /** With consistent years, every positive difference names at least one
      unit, and the first unit named is the most significant non-zero one. */
  lemma FixedNamesSomeUnit(d: int)
    requires d > 0
    ensures Parts(ComponentsFixed(d)) != []
    ensures FormatTimestampFixed(d) != " ago"
  {
    var c := ComponentsFixed(d);
    var ps := Parts(c);
    if ps == [] {
      assert false;
    }
    var j := JoinParts(ps);
    assert |j| > 0 by {
      if |ps| == 1 { RenderPartShape(ps[0]); }
      else { assert |JoinParts(ps)| >= |RenderPart(ps[1])|; RenderPartShape(ps[1]); }
    }
  }

  // ---- formatTimestampV1 ----

  /** The single unit `formatTimestampV1` picks: seconds below a minute
      (including every negative difference), otherwise the first unit whose
      floor-divided count is under its threshold. */
  function V1Part(d: int): (p: Part)
  {
    if d < 60 then Part(d, Second)
    else
      var minutes := d / 60;
      if minutes < 60 then Part(minutes, Minute)
      else
        var hours := minutes / 60;
        if hours < 24 then Part(hours, Hour)
        else
          var days := hours / 24;
          if days < 30 then Part(days, Day)
          else
            var months := days / 30;
            if months < 12 then Part(months, Month)
            else Part(months / 12, Year)
  }

  /** Closed form of the cascade: the unit is fixed by which band `d` falls in,
      and the count is `d` floor-divided by that unit's length in seconds. */
  lemma V1PartBands(d: int)
    ensures d < 60 <==> V1Part(d) == Part(d, Second)
    ensures 60 <= d < 3600 <==> V1Part(d) == Part(d / 60, Minute)
    ensures 3600 <= d < SecondsPerDay <==> V1Part(d) == Part(d / 3600, Hour)
    ensures SecondsPerDay <= d < SecondsPerMonth <==> V1Part(d) == Part(d / SecondsPerDay, Day)
    ensures SecondsPerMonth <= d < SecondsPerTwelveMonths
      <==> V1Part(d) == Part(d / SecondsPerMonth, Month)
    ensures SecondsPerTwelveMonths <= d
      <==> V1Part(d) == Part(d / SecondsPerTwelveMonths, Year)
  {
    NestedDivisions(d);
    if d >= 60 {
      assert d / 60 < 60 <==> d < 3600;
      assert d / 3600 < 24 <==> d < SecondsPerDay;
      assert d / SecondsPerDay < 30 <==> d < SecondsPerMonth;
      assert d / SecondsPerMonth < 12 <==> d < SecondsPerTwelveMonths;
    }
  }

  /** Above a minute the count is a positive number below its unit's
      threshold (years excepted). */
  lemma V1CountBounds(d: int)
    requires d >= 60
    ensures V1Part(d).count >= 1
    ensures V1Part(d).unit == Minute ==> V1Part(d).count < 60
    ensures V1Part(d).unit == Hour ==> V1Part(d).count < 24
    ensures V1Part(d).unit == Day ==> V1Part(d).count < 30
    ensures V1Part(d).unit == Month ==> V1Part(d).count < 12
  {
  }

  function V1Suffix(u: Unit): string
  {
    match u
    case Year => "yr"
    case Month => "mo"
    case Day => "d"
    case Hour => "hr"
    case Minute => "m"
    case Second => "s"
  }

  /** `formatTimestampV1(timestamp)` for a difference of `d` seconds. */
  function FormatTimestampV1(d: int): (r: string)
    ensures d < 60 ==> r == IntToString(d) + "s"
    ensures d >= 60 ==> r == NatToString(V1Part(d).count) + V1Suffix(V1Part(d).unit)
    ensures 60 <= d < 3600 ==> r == NatToString(d / 60) + "m"
    ensures 3600 <= d < SecondsPerDay ==> r == NatToString(d / 3600) + "hr"
    ensures SecondsPerDay <= d < SecondsPerMonth ==> r == NatToString(d / SecondsPerDay) + "d"
    ensures SecondsPerMonth <= d < SecondsPerTwelveMonths ==> r == NatToString(d / SecondsPerMonth) + "mo"
    ensures SecondsPerTwelveMonths <= d ==> r == NatToString(d / SecondsPerTwelveMonths) + "yr"
  {
    V1PartBands(d);
    var p := V1Part(d);
    IntToString(p.count) + V1Suffix(p.unit)
  }
}
