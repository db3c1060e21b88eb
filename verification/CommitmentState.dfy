/**
 The commitment state of one side at one closed minute: with the market (the last five-minute close
 against its 50-bar mean), with momentum (its five-bar change) and accepted (where the recent minutes
 closed in their ranges).
 */
module CommitmentState {
  import opened Common

  const SMA_LEN := 50
  const ROC_BARS := 5
  const CLV_BARS := 8
  const CLV_RECENT := 3
  const ACC_MIN := 0.5

  datatype Side = Long | Short

  function Opposite(side: Side): Side {
    if side.Long? then Short else Long
  }

  /** A regular-hours minute: its start in epoch seconds and its session's date. */
  datatype Bar = Bar(ts: int, session: int, high: real, low: real, close: real)

  /** A five-minute bar: its start in epoch seconds. */
  datatype FiveBar = FiveBar(start: int, close: real)

  datatype State = Committed | Neutral | Abandoned

  /** A raw verdict: not enough data (which reads neutral), or the state with what it was judged on. */
  datatype Verdict =
    | Unready
    | Judged(judged: State, w: bool, m: bool, accRecent: real, accAll: real)
  {
    function Raw(): State {
      if Unready? then Neutral else judged
    }
  }

  /** Where the bar closed in its range, seen from a side; None for a bar without a range. */
  function Clv(bar: Bar, side: Side): Option<real> {
    var range := bar.high - bar.low;
    if range <= 0.0 then None
    else if side.Long? then Some((bar.close - bar.low) / range)
    else Some((bar.high - bar.close) / range)
  }

  function Clvs(bars: seq<Bar>, side: Side): seq<real> {
    if bars == [] then []
    else
      var init, last := bars[..|bars| - 1], Clv(bars[|bars| - 1], side);
      Clvs(init, side) + if last.Some? then [last.value] else []
  }

  function Sum(xs: seq<real>): real {
    if xs == [] then 0.0 else Sum(xs[..|xs| - 1]) + xs[|xs| - 1]
  }

  function Last(xs: seq<real>, n: nat): seq<real>
    requires n <= |xs|
  {
    xs[|xs| - n..]
  }

  function EndOf(bar: Bar): int {
    bar.ts + 60
  }

  /** The closes of the five-minute bars that have ended by a given moment. */
  function ClosesBy(five: seq<FiveBar>, t: int): seq<real> {
    if five == [] then []
    else
      var init, b := five[..|five| - 1], five[|five| - 1];
      ClosesBy(init, t) + if b.start + 300 <= t then [b.close] else []
  }

  predicate WithMarket(closes: seq<real>, side: Side)
    requires |closes| >= SMA_LEN
  {
    var last, sma := closes[|closes| - 1], Sum(Last(closes, SMA_LEN)) / SMA_LEN as real;
    if side.Long? then last > sma else last < sma
  }

  predicate WithMomentum(closes: seq<real>, side: Side)
    requires |closes| >= SMA_LEN
  {
    var roc := closes[|closes| - 1] - closes[|closes| - 1 - ROC_BARS];
    if side.Long? then roc > 0.0 else roc < 0.0
  }

  function AccRecent(cl: seq<real>): real
    requires |cl| >= CLV_RECENT
  {
    Sum(Last(cl, CLV_RECENT)) / CLV_RECENT as real
  }

  function AccAll(cl: seq<real>): real
    requires |cl| >= CLV_RECENT
  {
    Sum(cl) / |cl| as real
  }

  function Judge(w: bool, m: bool, wOpposite: bool, ar: real, aa: real): State {
    if w && m && ar >= ACC_MIN then Committed
    else if (!m && ar < ACC_MIN && ar < aa) || wOpposite then Abandoned
    else Neutral
  }

  /** The verdict from the five-minute closes usable at the moment and the minutes of the window. */
  function VerdictOf(closes: seq<real>, window: seq<Bar>, side: Side): Verdict {
    if |closes| < SMA_LEN then Unready
    else
      var cl := Clvs(window, side);
      if |cl| < CLV_RECENT then Unready
      else
        var w, m := WithMarket(closes, side), WithMomentum(closes, side);
        var ar, aa := AccRecent(cl), AccAll(cl);
        Judged(Judge(w, m, WithMarket(closes, Opposite(side)), ar, aa), w, m, ar, aa)
  }

  function Window(bars: seq<Bar>, i: nat): seq<Bar>
    requires i < |bars|
  {
    bars[Max(0, i - CLV_BARS + 1)..i + 1]
  }

  /** The raw verdict of a side at minute i of a tape. */
  function RawAt(bars: seq<Bar>, i: nat, five: seq<FiveBar>, side: Side): Verdict
    requires i < |bars|
  {
    VerdictOf(ClosesBy(five, EndOf(bars[i])), Window(bars, i), side)
  }

  // --- The verdict, exactly ---------------------------------------------------------------------

  /** A difference of prices as the side sees it. */
  function Toward(side: Side, x: real): real {
    if side.Long? then x else -x
  }

  lemma {:induction false} SumOfThree(xs: seq<real>)
    requires |xs| == 3
    ensures Sum(xs) == xs[0] + xs[1] + xs[2]
  {
    var two := xs[..2];
    assert two[..1] == [xs[0]];
    assert Sum([xs[0]]) == Sum([]) + xs[0];
    assert Sum(two) == Sum(two[..1]) + xs[1];
    assert Sum(xs) == Sum(two) + xs[2];
  }

  /** A close location is how far up its range a bar closed, seen from the side. */
  lemma {:induction false} ClvIs(bar: Bar, side: Side)
    ensures Clv(bar, side).Some? <==> bar.low < bar.high
    ensures Clv(bar, side).Some? ==>
              Clv(bar, side).value * (bar.high - bar.low)
              == if side.Long? then bar.close - bar.low else bar.high - bar.close
  {
  }

  /** The close locations of a stretch of minutes, in order, without the minutes that have none. */
  lemma {:induction false} ClvsAre(bars: seq<Bar>, bar: Bar, side: Side)
    ensures Clvs([], side) == []
    ensures Clvs(bars + [bar], side)
            == Clvs(bars, side) + if bar.low < bar.high then [Clv(bar, side).value] else []
  {
    assert (bars + [bar])[..|bars|] == bars;
  }

  /** The closes at a moment are those of the bars that have ended by it, in order. */
  lemma {:induction false} ClosesAre(five: seq<FiveBar>, bar: FiveBar, t: int)
    ensures ClosesBy([], t) == []
    ensures ClosesBy(five + [bar], t) == ClosesBy(five, t) + if bar.start + 300 <= t then [bar.close] else []
  {
    assert (five + [bar])[..|five|] == five;
  }

  /** The raw verdict of a minute: with fifty closes and three close locations in its last eight minutes, a side
      is committed when the last close is past the fifty-bar mean its way, has moved its way over five bars, and
      the last three locations average at least a half; it is abandoned when the last close is past the mean
      the other way, or has not moved its way while the three average under a half and under all of them;
      and it is neutral otherwise. */
  lemma {:induction false} VerdictIs(bars: seq<Bar>, i: nat, five: seq<FiveBar>, side: Side)
    requires i < |bars|
    ensures var closes, cl := ClosesBy(five, bars[i].ts + 60), Clvs(bars[(if i < 7 then 0 else i - 7)..i + 1], side);
            var verdict := RawAt(bars, i, five, side);
      && (verdict == Unready <==> |closes| < 50 || |cl| < 3)
      && (|closes| >= 50 && |cl| >= 3 ==>
            var n, k := |closes|, |cl|;
            var pastMean := Toward(side, closes[n - 1] - Sum(closes[n - 50..]) / 50.0);
            var moved := Toward(side, closes[n - 1] - closes[n - 6]);
            var recent, overall := (cl[k - 3] + cl[k - 2] + cl[k - 1]) / 3.0, Sum(cl) / k as real;
            && (verdict.judged == Committed <==> pastMean > 0.0 && moved > 0.0 && recent >= 0.5)
            && (verdict.judged == Abandoned <==>
                  pastMean < 0.0 || (moved <= 0.0 && recent < 0.5 && recent < overall))
            && (verdict.w <==> pastMean > 0.0) && (verdict.m <==> moved > 0.0)
            && verdict.accRecent == recent && verdict.accAll == overall)
  {
    var closes, cl := ClosesBy(five, EndOf(bars[i])), Clvs(Window(bars, i), side);
    if |closes| >= SMA_LEN && |cl| >= CLV_RECENT {
      SumOfThree(Last(cl, CLV_RECENT));
    }
  }

  // --- The two sides ----------------------------------------------------------------------------

  lemma {:induction false} ClvsComplement(bars: seq<Bar>)
    ensures |Clvs(bars, Long)| == |Clvs(bars, Short)|
    ensures forall i :: 0 <= i < |Clvs(bars, Long)| ==> Clvs(bars, Long)[i] + Clvs(bars, Short)[i] == 1.0
  {
    if bars != [] {
      ClvsComplement(bars[..|bars| - 1]);
      var b := bars[|bars| - 1];
      if b.high - b.low > 0.0 {
        UnitSplit(b.close - b.low, b.high - b.close, b.high - b.low);
      }
    }
  }

  lemma {:induction false} UnitSplit(a: real, b: real, range: real)
    requires range > 0.0 && a + b == range
    ensures a / range + b / range == 1.0
  {
    var p, q := a / range, b / range;
    assert p * range == a && q * range == b;
    assert (p + q - 1.0) * range == 0.0;
  }

  lemma {:induction false} SumsComplement(xs: seq<real>, ys: seq<real>)
    requires |xs| == |ys| && forall i :: 0 <= i < |xs| ==> xs[i] + ys[i] == 1.0
    ensures Sum(xs) + Sum(ys) == |xs| as real
  {
    if xs != [] {
      SumsComplement(xs[..|xs| - 1], ys[..|ys| - 1]);
    }
  }

  /** The acceptances of the two sides sum to one, recent and overall. */
  lemma {:induction false} AcceptancesSumToOne(bars: seq<Bar>)
    requires |Clvs(bars, Long)| >= CLV_RECENT
    ensures |Clvs(bars, Short)| == |Clvs(bars, Long)|
    ensures AccRecent(Clvs(bars, Long)) + AccRecent(Clvs(bars, Short)) == 1.0
    ensures AccAll(Clvs(bars, Long)) + AccAll(Clvs(bars, Short)) == 1.0
  {
    var xs, ys := Clvs(bars, Long), Clvs(bars, Short);
    ClvsComplement(bars);
    SumsComplement(Last(xs, CLV_RECENT), Last(ys, CLV_RECENT));
    SumsComplement(xs, ys);
    UnitSplit(Sum(xs), Sum(ys), |xs| as real);
  }

  /** With enough data, the side against a strict market is always abandoned. */
  lemma {:induction false} AgainstMarketIsAbandoned(closes: seq<real>, window: seq<Bar>, side: Side)
    requires |closes| >= SMA_LEN && |Clvs(window, side)| >= CLV_RECENT
    requires WithMarket(closes, Opposite(side))
    ensures VerdictOf(closes, window, side).Raw() == Abandoned
  {
  }

  /** So one side committed means the other abandoned: never both committed. */
  lemma {:induction false} CommittedMeansOtherAbandoned(closes: seq<real>, window: seq<Bar>, side: Side)
    requires VerdictOf(closes, window, side).Raw() == Committed
    ensures VerdictOf(closes, window, Opposite(side)).Raw() == Abandoned
  {
    ClvsComplement(window);
  }

  // --- Reflection and rescaling -----------------------------------------------------------------

  function ReflectBar(b: Bar, pivot: real): Bar {
    b.(high := 2.0 * pivot - b.low, low := 2.0 * pivot - b.high, close := 2.0 * pivot - b.close)
  }

  function ReflectBars(bars: seq<Bar>, pivot: real): (rs: seq<Bar>)
    ensures |rs| == |bars| && forall i :: 0 <= i < |rs| ==> rs[i] == ReflectBar(bars[i], pivot)
  {
    seq(|bars|, i requires 0 <= i < |bars| => ReflectBar(bars[i], pivot))
  }

  function Reflect(xs: seq<real>, pivot: real): (ys: seq<real>)
    ensures |ys| == |xs| && forall i :: 0 <= i < |ys| ==> ys[i] == 2.0 * pivot - xs[i]
  {
    seq(|xs|, i requires 0 <= i < |xs| => 2.0 * pivot - xs[i])
  }

  function ReflectFive(five: seq<FiveBar>, pivot: real): (rs: seq<FiveBar>)
    ensures |rs| == |five|
    ensures forall i :: 0 <= i < |rs| ==> rs[i] == five[i].(close := 2.0 * pivot - five[i].close)
  {
    seq(|five|, i requires 0 <= i < |five| => five[i].(close := 2.0 * pivot - five[i].close))
  }

  lemma {:induction false} ClvsReflect(bars: seq<Bar>, pivot: real, side: Side)
    ensures Clvs(ReflectBars(bars, pivot), side) == Clvs(bars, Opposite(side))
  {
    if bars != [] {
      var rs, init, b := ReflectBars(bars, pivot), bars[..|bars| - 1], bars[|bars| - 1];
      ClvsReflect(init, pivot, side);
      assert rs[..|rs| - 1] == ReflectBars(init, pivot);
      var r := ReflectBar(b, pivot);
      assert r.high - r.low == b.high - b.low;
      assert r.close - r.low == b.high - b.close && r.high - r.close == b.close - b.low;
    }
  }

  lemma {:induction false} ClosesReflect(five: seq<FiveBar>, pivot: real, t: int)
    ensures ClosesBy(ReflectFive(five, pivot), t) == Reflect(ClosesBy(five, t), pivot)
  {
    if five != [] {
      var rs, init := ReflectFive(five, pivot), five[..|five| - 1];
      ClosesReflect(init, pivot, t);
      assert rs[..|rs| - 1] == ReflectFive(init, pivot);
    }
  }

  lemma {:induction false} SumReflect(xs: seq<real>, pivot: real)
    ensures Sum(Reflect(xs, pivot)) == 2.0 * (|xs| as real * pivot) - Sum(xs)
  {
    if xs != [] {
      var ys, init := Reflect(xs, pivot), xs[..|xs| - 1];
      SumReflect(init, pivot);
      assert ys[..|ys| - 1] == Reflect(init, pivot);
      assert |xs| as real * pivot == |init| as real * pivot + pivot;
    }
  }

  lemma {:induction false} MarketReflects(closes: seq<real>, pivot: real, side: Side)
    requires |closes| >= SMA_LEN
    ensures WithMarket(Reflect(closes, pivot), side) <==> WithMarket(closes, Opposite(side))
    ensures WithMomentum(Reflect(closes, pivot), side) <==> WithMomentum(closes, Opposite(side))
  {
    SumReflect(Last(closes, SMA_LEN), pivot);
    assert Last(Reflect(closes, pivot), SMA_LEN) == Reflect(Last(closes, SMA_LEN), pivot);
  }

  /** Reflecting every price about a pivot swaps the verdicts of the two sides. */
  lemma {:induction false} ReflectionSwapsSides(bars: seq<Bar>, i: nat, five: seq<FiveBar>, pivot: real, side: Side)
    requires i < |bars|
    ensures RawAt(ReflectBars(bars, pivot), i, ReflectFive(five, pivot), side)
            == RawAt(bars, i, five, Opposite(side))
  {
    var closes := ClosesBy(five, EndOf(bars[i]));
    ClosesReflect(five, pivot, EndOf(bars[i]));
    assert Window(ReflectBars(bars, pivot), i) == ReflectBars(Window(bars, i), pivot);
    ClvsReflect(Window(bars, i), pivot, side);
    if |closes| >= SMA_LEN {
      MarketReflects(closes, pivot, side);
      MarketReflects(closes, pivot, Opposite(side));
    }
  }

  function ScaleBar(b: Bar, a: real, c: real): Bar {
    b.(high := Scale(a)(b.high) + c, low := Scale(a)(b.low) + c, close := Scale(a)(b.close) + c)
  }

  function ScaleBars(bars: seq<Bar>, a: real, c: real): (rs: seq<Bar>)
    ensures |rs| == |bars| && forall i :: 0 <= i < |rs| ==> rs[i] == ScaleBar(bars[i], a, c)
  {
    seq(|bars|, i requires 0 <= i < |bars| => ScaleBar(bars[i], a, c))
  }

  function ScaleFive(five: seq<FiveBar>, a: real, c: real): (rs: seq<FiveBar>)
    ensures |rs| == |five|
    ensures forall i :: 0 <= i < |rs| ==> rs[i] == five[i].(close := Scale(a)(five[i].close) + c)
  {
    seq(|five|, i requires 0 <= i < |five| => five[i].(close := Scale(a)(five[i].close) + c))
  }

  function ScaleAll(xs: seq<real>, a: real, c: real): (ys: seq<real>)
    ensures |ys| == |xs| && forall i :: 0 <= i < |ys| ==> ys[i] == Scale(a)(xs[i]) + c
  {
    seq(|xs|, i requires 0 <= i < |xs| => Scale(a)(xs[i]) + c)
  }

  lemma {:induction false} ScaleDifference(a: real, x: real, y: real)
    ensures Scale(a)(x) - Scale(a)(y) == Scale(a)(x - y)
    ensures a > 0.0 ==> (Scale(a)(x) > 0.0 <==> x > 0.0) && (Scale(a)(x) < 0.0 <==> x < 0.0)
  {
    assert a * x - a * y == a * (x - y);
    if a > 0.0 {
      ScaleSign(a, x);
    }
  }

  lemma {:induction false} ScaleSign(a: real, x: real)
    requires a > 0.0
    ensures (a * x > 0.0 <==> x > 0.0) && (a * x < 0.0 <==> x < 0.0)
  {
    if x > 0.0 {
      assert a * x > 0.0;
    } else if x < 0.0 {
      assert a * (-x) > 0.0;
    }
  }

  lemma {:induction false} ClvScales(b: Bar, a: real, c: real, side: Side)
    requires a > 0.0
    ensures Clv(ScaleBar(b, a, c), side) == Clv(b, side)
  {
    ScaleDifference(a, b.high, b.low);
    ScaleDifference(a, b.close, b.low);
    ScaleDifference(a, b.high, b.close);
    ScaleDifference(a, b.high - b.low, 0.0);
    if b.high - b.low > 0.0 {
      ScaledQuotient(a, b.close - b.low, b.high - b.low);
      ScaledQuotient(a, b.high - b.close, b.high - b.low);
    }
  }

  lemma {:induction false} ScaledQuotient(a: real, n: real, t: real)
    requires a > 0.0 && t > 0.0
    ensures Scale(a)(t) > 0.0 && Scale(a)(n) / Scale(a)(t) == n / t
  {
    SameQuotient(a, n, t);
    assert Scale(a)(n) == a * n && Scale(a)(t) == a * t;
  }

  lemma {:induction false} ClvsScale(bars: seq<Bar>, a: real, c: real, side: Side)
    requires a > 0.0
    ensures Clvs(ScaleBars(bars, a, c), side) == Clvs(bars, side)
  {
    if bars != [] {
      var rs, init := ScaleBars(bars, a, c), bars[..|bars| - 1];
      ClvsScale(init, a, c, side);
      assert rs[..|rs| - 1] == ScaleBars(init, a, c);
      ClvScales(bars[|bars| - 1], a, c, side);
    }
  }

  lemma {:induction false} ClosesScale(five: seq<FiveBar>, a: real, c: real, t: int)
    ensures ClosesBy(ScaleFive(five, a, c), t) == ScaleAll(ClosesBy(five, t), a, c)
  {
    if five != [] {
      var rs, init := ScaleFive(five, a, c), five[..|five| - 1];
      ClosesScale(init, a, c, t);
      assert rs[..|rs| - 1] == ScaleFive(init, a, c);
    }
  }

  /** How far a level stands above the members of a list, summed. */
  function Above(y: real, xs: seq<real>): real {
    if xs == [] then 0.0 else Above(y, xs[..|xs| - 1]) + (y - xs[|xs| - 1])
  }

  lemma {:induction false} AboveIsSum(y: real, xs: seq<real>)
    ensures Above(y, xs) == |xs| as real * y - Sum(xs)
  {
    if xs != [] {
      AboveIsSum(y, xs[..|xs| - 1]);
      assert |xs| as real * y == (|xs| - 1) as real * y + y;
    }
  }

  lemma {:induction false} AboveScales(y: real, xs: seq<real>, a: real, c: real)
    ensures Above(Scale(a)(y) + c, ScaleAll(xs, a, c)) == Scale(a)(Above(y, xs))
  {
    if xs == [] {
      assert Scale(a)(0.0) == 0.0;
    } else {
      var ys, init, x := ScaleAll(xs, a, c), xs[..|xs| - 1], xs[|xs| - 1];
      AboveScales(y, init, a, c);
      assert ys[..|ys| - 1] == ScaleAll(init, a, c);
      ScaleSum(a, y - x, x);
      ScaleSum(a, Above(y, init), y - x);
      assert y - x + x == y;
    }
  }

  lemma {:induction false} MarketScales(closes: seq<real>, a: real, c: real, side: Side)
    requires |closes| >= SMA_LEN && a > 0.0
    ensures WithMarket(ScaleAll(closes, a, c), side) <==> WithMarket(closes, side)
    ensures WithMomentum(ScaleAll(closes, a, c), side) <==> WithMomentum(closes, side)
  {
    var ys, n := ScaleAll(closes, a, c), |closes| - 1;
    var xs := Last(closes, SMA_LEN);
    assert Last(ys, SMA_LEN) == ScaleAll(xs, a, c);
    AboveIsSum(closes[n], xs);
    AboveIsSum(ys[n], Last(ys, SMA_LEN));
    AboveScales(closes[n], xs, a, c);
    ScaleDifference(a, Above(closes[n], xs), 0.0);
    ScaleDifference(a, closes[n], closes[n - ROC_BARS]);
    ScaleDifference(a, closes[n] - closes[n - ROC_BARS], 0.0);
  }

  /** A positive change of unit and origin changes no verdict. */
  lemma {:induction false} RescalingKeepsVerdicts(bars: seq<Bar>, i: nat, five: seq<FiveBar>, a: real, c: real,
                                                side: Side)
    requires i < |bars| && a > 0.0
    ensures RawAt(ScaleBars(bars, a, c), i, ScaleFive(five, a, c), side) == RawAt(bars, i, five, side)
  {
    var closes := ClosesBy(five, EndOf(bars[i]));
    ClosesScale(five, a, c, EndOf(bars[i]));
    assert Window(ScaleBars(bars, a, c), i) == ScaleBars(Window(bars, i), a, c);
    ClvsScale(Window(bars, i), a, c, side);
    if |closes| >= SMA_LEN {
      MarketScales(closes, a, c, side);
      MarketScales(closes, a, c, Opposite(side));
    }
  }
}
