/**
 The commitment snapshot: the raw verdicts of the last two closed minutes, from a bounded read of the
 tape, and the hysteresis between them.
 */
module CommitmentRun {
  import opened Common
  import opened CommitmentState
  import opened FiveMinute

  const READ_ROWS := CLV_BARS + 2

  datatype Report = Report(current: Verdict, state: State)

  datatype Series = Extended | Regular

  datatype Snapshot =
    | Unreadable
    | Snap(barTs: int, series: Series, sides: map<Side, Report>)

  /** The last k of the closed minutes. */
  function LastRows(tape: seq<Bar>, k: nat): seq<Bar> {
    tape[Max(0, |tape| - k)..]
  }

  /** A raw abandonment right after a committed minute of the same session reads neutral. */
  function Damped(current: Verdict, previous: Verdict, sameSession: bool): State {
    if current.Raw() == Abandoned && sameSession && previous.Raw() == Committed then Neutral
    else current.Raw()
  }

  function ReportOf(bars: seq<Bar>, five: seq<FiveBar>, side: Side): Report
    requires |bars| >= 2
  {
    var n := |bars| - 1;
    var current := RawAt(bars, n, five, side);
    Report(current, Damped(current, RawAt(bars, n - 1, five, side), bars[n].session == bars[n - 1].session))
  }

  /** The extended-hours series when it is long enough, and the regular one otherwise. */
  function SeriesAt(ext: seq<Row>, rth: seq<Row>, t: int): (Series, seq<FiveBar>) {
    if |ClosesBy(BarsAt(ext, t), t)| < SMA_LEN then (Regular, BarsAt(rth, t)) else (Extended, BarsAt(ext, t))
  }

  /** The two sides' reports, from the minutes in hand. */
  method ReadSides(bars: seq<Bar>, five: seq<FiveBar>) returns (out: map<Side, Report>)
    requires |bars| >= 2
    ensures out == map[Long := ReportOf(bars, five, Long), Short := ReportOf(bars, five, Short)]
  {
    var n := |bars| - 1;
    var sameSession := bars[n].session == bars[n - 1].session;
    out := map[];
    var order := [Long, Short];
    for k := 0 to 2
      invariant k == 0 ==> out == map[]
      invariant k == 1 ==> out == map[Long := ReportOf(bars, five, Long)]
      invariant k == 2 ==> out == map[Long := ReportOf(bars, five, Long), Short := ReportOf(bars, five, Short)]
    {
      var side := order[k];
      var current := RawAt(bars, n, five, side);
      var previous := RawAt(bars, n - 1, five, side);
      var state := current.Raw();
      if state == Abandoned && sameSession && previous.Raw() == Committed {
        state := Neutral;
      }
      assert Report(current, state) == ReportOf(bars, five, side);
      out := out[side := Report(current, state)];
    }
  }

  /** The reading at the last closed minute of a tape. */
  method TakeSnapshot(tape: seq<Bar>, ext: seq<Row>, rth: seq<Row>) returns (snap: Snapshot)
    ensures snap.Unreadable? <==> |tape| < 2
    ensures snap.Snap? ==>
      var t := EndOf(tape[|tape| - 1]);
      var (series, five) := SeriesAt(ext, rth, t);
      snap == Snap(tape[|tape| - 1].ts, series,
                   map[Long := ReportOf(tape, five, Long), Short := ReportOf(tape, five, Short)])
  {
    var bars := LastRows(tape, READ_ROWS);
    if |bars| < 2 {
      return Unreadable;
    }
    var tEnd := EndOf(bars[|bars| - 1]);
    var series := Extended;
    var five := Bars5m(ext, tEnd);
    if |ClosesBy(five, tEnd)| < SMA_LEN {
      series := Regular;
      five := Bars5m(rth, tEnd);
    }
    BoundedReadExact(tape, READ_ROWS, five, Long);
    BoundedReadExact(tape, READ_ROWS, five, Short);
    var sides := ReadSides(bars, five);
    snap := Snap(bars[|bars| - 1].ts, series, sides);
  }

  // --- The bounded read -------------------------------------------------------------------------

  /** Any read of at least CLV_BARS + 1 rows gives the verdicts of the last two minutes that the whole
      tape gives. */
  lemma {:induction false} BoundedReadExact(tape: seq<Bar>, k: nat, five: seq<FiveBar>, side: Side)
    requires k >= CLV_BARS + 1 && |tape| >= 2
    ensures var rows := LastRows(tape, k);
      && |rows| >= 2
      && RawAt(rows, |rows| - 1, five, side) == RawAt(tape, |tape| - 1, five, side)
      && RawAt(rows, |rows| - 2, five, side) == RawAt(tape, |tape| - 2, five, side)
      && ReportOf(rows, five, side) == ReportOf(tape, five, side)
  {
    var rows := LastRows(tape, k);
    var r, n := |rows| - 1, |tape| - 1;
    assert rows[r] == tape[n] && rows[r - 1] == tape[n - 1];
    assert Window(rows, r) == Window(tape, n);
    assert Window(rows, r - 1) == Window(tape, n - 1);
  }

  /** CLV_BARS rows would not do: three closes in range, then minutes without one, and the oldest of the
      three decides the previous minute's verdict. */
  lemma {:induction false} EightRowsAreTooFew()
    ensures exists tape: seq<Bar>, five :: ReadsDiffer(tape, five)
  {
    var tape, five := ThreeThenDojis(), LateStep();
    var closes := ClosesBy(five, EndOf(tape[7]));
    ClosesOfStep(five, 50, EndOf(tape[7]));
    assert five[..50] == five;
    StepIsWithMarket(closes);
    var full := Window(tape, 7);
    assert full == tape[..3] + tape[3..8];
    ClvsOfDojis(tape[..3], tape[3..8]);
    ThreeFull(tape);
    assert VerdictOf(closes, full, Long).Raw() == Committed;
    var rows := LastRows(tape, CLV_BARS);
    var short := Window(rows, 6);
    assert short == tape[1..3] + tape[3..8];
    ClvsOfDojis(tape[1..3], tape[3..8]);
    ClvsAtMost(tape[1..3]);
    assert VerdictOf(closes, short, Long) == Unready;
    assert rows[6] == tape[7];
    assert ReadsDiffer(tape, five);
  }

  function ThreeThenDojis(): (tape: seq<Bar>)
    ensures |tape| == 9
    ensures forall i :: 0 <= i < 9 ==> tape[i].ts == 20000 + 60 * i && tape[i].low == 0.0
    ensures forall i :: 0 <= i < 3 ==> tape[i].high == 1.0 && tape[i].close == 1.0
    ensures forall i :: 3 <= i < 9 ==> tape[i].high == 0.0
  {
    seq(9, i => Bar(20000 + 60 * i, 0, if i < 3 then 1.0 else 0.0, 0.0, if i < 3 then 1.0 else 0.0))
  }

  function LateStep(): (five: seq<FiveBar>)
    ensures |five| == 50
    ensures forall i :: 0 <= i < 50 ==> five[i] == FiveBar(300 * i, if i == 49 then 1.0 else 0.0)
  {
    seq(50, i => FiveBar(300 * i, if i == 49 then 1.0 else 0.0))
  }

  ghost predicate ReadsDiffer(tape: seq<Bar>, five: seq<FiveBar>) {
    && |tape| == CLV_BARS + 1
    && RawAt(tape, CLV_BARS - 1, five, Long).Raw() == Committed
    && RawAt(LastRows(tape, CLV_BARS), CLV_BARS - 2, five, Long).Raw() == Neutral
  }

  lemma {:induction false} StepIsWithMarket(closes: seq<real>)
    requires |closes| == SMA_LEN
    requires forall i :: 0 <= i < 50 ==> closes[i] == if i == 49 then 1.0 else 0.0
    ensures WithMarket(closes, Long) && WithMomentum(closes, Long)
  {
    assert Last(closes, SMA_LEN) == closes;
    SumOfZeros(closes[..49]);
    assert Sum(closes) == 1.0;
  }

  lemma {:induction false} ClvsAtMost(bars: seq<Bar>)
    ensures |Clvs(bars, Long)| <= |bars|
  {
    if bars != [] {
      ClvsAtMost(bars[..|bars| - 1]);
    }
  }

  lemma {:induction false} FullClvs(bars: seq<Bar>)
    requires forall i :: 0 <= i < |bars| ==> bars[i].high == 1.0 && bars[i].low == 0.0 && bars[i].close == 1.0
    ensures |Clvs(bars, Long)| == |bars| && forall i :: 0 <= i < |bars| ==> Clvs(bars, Long)[i] == 1.0
  {
    if bars != [] {
      var init := bars[..|bars| - 1];
      FullClvs(init);
      FullBar(bars[|bars| - 1]);
      assert bars == init + [bars[|bars| - 1]];
      ClvsSnoc(init, bars[|bars| - 1]);
    }
  }

  lemma {:induction false} ThreeFull(tape: seq<Bar>)
    requires |tape| >= 3
    requires forall i :: 0 <= i < 3 ==> tape[i].high == 1.0 && tape[i].low == 0.0 && tape[i].close == 1.0
    ensures Clvs(tape[..3], Long) == [1.0, 1.0, 1.0]
    ensures AccRecent(Clvs(tape[..3], Long)) == 1.0
  {
    FullClvs(tape[..3]);
    var cl := [1.0, 1.0, 1.0];
    assert Clvs(tape[..3], Long) == cl;
    assert Last(cl, 3) == cl && cl[..2] == [1.0, 1.0] && cl[..2][..1] == [1.0] && [1.0][..0] == [];
    assert Sum([1.0]) == 1.0 && Sum(cl[..2]) == 2.0 && Sum(cl) == 3.0;
  }

  lemma {:induction false} FullBar(bar: Bar)
    requires bar.high == 1.0 && bar.low == 0.0 && bar.close == 1.0
    ensures Clv(bar, Long) == Some(1.0)
  {
    WholeRange(bar.close - bar.low, bar.high - bar.low);
  }

  lemma {:induction false} WholeRange(part: real, range: real)
    requires part == range > 0.0
    ensures part / range == 1.0
  {
  }

  lemma {:induction false} ClvsSnoc(bars: seq<Bar>, bar: Bar)
    ensures Clvs(bars + [bar], Long)
            == Clvs(bars, Long) + if Clv(bar, Long).Some? then [Clv(bar, Long).value] else []
  {
    assert (bars + [bar])[..|bars|] == bars;
  }

  lemma {:induction false} ClvsOfDojis(a: seq<Bar>, dojis: seq<Bar>)
    requires forall b :: b in dojis ==> b.high - b.low <= 0.0
    ensures Clvs(a + dojis, Long) == Clvs(a, Long)
    decreases |dojis|
  {
    if dojis == [] {
      assert a + dojis == a;
    } else {
      var init := dojis[..|dojis| - 1];
      assert dojis[|dojis| - 1] in dojis;
      assert (a + dojis)[..|a + dojis| - 1] == a + init;
      ClvsOfDojis(a, init);
    }
  }

  lemma {:induction false} SumOfZeros(xs: seq<real>)
    requires forall i :: 0 <= i < |xs| ==> xs[i] == 0.0
    ensures Sum(xs) == 0.0
  {
    if xs != [] {
      SumOfZeros(xs[..|xs| - 1]);
    }
  }

  lemma {:induction false} ClosesOfStep(five: seq<FiveBar>, n: nat, t: int)
    requires n <= |five| && forall i :: 0 <= i < n ==> five[i].start + 300 <= t
    ensures |ClosesBy(five[..n], t)| == n
    ensures forall i :: 0 <= i < n ==> ClosesBy(five[..n], t)[i] == five[i].close
  {
    if n > 0 {
      ClosesOfStep(five, n - 1, t);
      assert five[..n][..n - 1] == five[..n - 1];
    }
  }

  // --- Runs on one fixed series -----------------------------------------------------------------

  /** The state emitted at minute n of a tape, as a snapshot taken right after it reads. */
  function StateAt(tape: seq<Bar>, n: nat, five: seq<FiveBar>, side: Side): State
    requires 1 <= n < |tape|
  {
    ReportOf(tape[..n + 1], five, side).state
  }

  lemma {:induction false} StateAtIsDamped(tape: seq<Bar>, n: nat, five: seq<FiveBar>, side: Side)
    requires 1 <= n < |tape|
    ensures StateAt(tape, n, five, side)
            == Damped(RawAt(tape, n, five, side), RawAt(tape, n - 1, five, side),
                      tape[n].session == tape[n - 1].session)
  {
    var now := tape[..n + 1];
    assert Window(now, n) == Window(tape, n) && Window(now, n - 1) == Window(tape, n - 1);
  }

  /** Within a session a side never steps from committed straight to abandoned. */
  lemma {:induction false} NeverCommittedToAbandoned(tape: seq<Bar>, n: nat, five: seq<FiveBar>, side: Side)
    requires 2 <= n < |tape| && tape[n].session == tape[n - 1].session
    requires StateAt(tape, n - 1, five, side) == Committed
    ensures StateAt(tape, n, five, side) != Abandoned
  {
    StateAtIsDamped(tape, n - 1, five, side);
    StateAtIsDamped(tape, n, five, side);
  }

  /** The emitted state differs from the raw one only on that step, where it is neutral; and an
      abandonment that is still there one minute later is emitted then. */
  lemma {:induction false} AbandonmentDelayedAtMostOneBar(tape: seq<Bar>, n: nat, five: seq<FiveBar>, side: Side)
    requires 1 <= n < |tape|
    ensures StateAt(tape, n, five, side) != RawAt(tape, n, five, side).Raw() <==>
              && RawAt(tape, n, five, side).Raw() == Abandoned
              && RawAt(tape, n - 1, five, side).Raw() == Committed
              && tape[n].session == tape[n - 1].session
    ensures StateAt(tape, n, five, side) != RawAt(tape, n, five, side).Raw() ==>
              StateAt(tape, n, five, side) == Neutral
    ensures && n + 1 < |tape|
            && RawAt(tape, n, five, side).Raw() == Abandoned
            && RawAt(tape, n + 1, five, side).Raw() == Abandoned
            ==> StateAt(tape, n + 1, five, side) == Abandoned
  {
    StateAtIsDamped(tape, n, five, side);
    if n + 1 < |tape| {
      StateAtIsDamped(tape, n + 1, five, side);
    }
  }

  // --- Runs on the store as it is read ----------------------------------------------------------

  /** Only the last fifty closes matter. */
  lemma {:induction false} VerdictOfTail(closes: seq<real>, tail: seq<real>, window: seq<Bar>, side: Side)
    requires SuffixOf(tail, closes) && |tail| >= SMA_LEN
    ensures VerdictOf(tail, window, side) == VerdictOf(closes, window, side)
  {
    assert Last(tail, SMA_LEN) == Last(closes, SMA_LEN);
  }

  /** The state emitted at minute n when the five-minute bars are read from the store at that minute. */
  function LiveStateAt(tape: seq<Bar>, n: nat, store: seq<Row>, side: Side): State
    requires 1 <= n < |tape|
  {
    StateAt(tape, n, BarsAt(store, EndOf(tape[n])), side)
  }

  /** A later read judges the earlier minute as the earlier read did, while it still sees fifty closes. */
  lemma {:induction false} EarlierMinuteRejudged(tape: seq<Bar>, n: nat, store: seq<Row>, side: Side)
    requires 1 <= n < |tape| && Ascending(store) && tape[n - 1].ts <= tape[n].ts
    requires |ClosesBy(BarsAt(store, EndOf(tape[n])), EndOf(tape[n - 1]))| >= SMA_LEN
    ensures RawAt(tape, n - 1, BarsAt(store, EndOf(tape[n])), side)
            == RawAt(tape, n - 1, BarsAt(store, EndOf(tape[n - 1])), side)
  {
    var t, now := EndOf(tape[n - 1]), EndOf(tape[n]);
    LaterReadSeesTail(store, t, now);
    VerdictOfTail(ClosesBy(BarsAt(store, t), t), ClosesBy(BarsAt(store, now), t), Window(tape, n - 1), side);
  }

  /** So the hysteresis holds between reads of one store that is read afresh at each minute, while fifty
      closes of the earlier minute are still seen. */
  lemma {:induction false} NeverCommittedToAbandonedLive(tape: seq<Bar>, n: nat, store: seq<Row>, side: Side)
    requires 2 <= n < |tape| && Ascending(store) && tape[n - 1].ts <= tape[n].ts
    requires tape[n].session == tape[n - 1].session
    requires |ClosesBy(BarsAt(store, EndOf(tape[n])), EndOf(tape[n - 1]))| >= SMA_LEN
    requires LiveStateAt(tape, n - 1, store, side) == Committed
    ensures LiveStateAt(tape, n, store, side) != Abandoned
  {
    EarlierMinuteRejudged(tape, n, store, side);
    StateAtIsDamped(tape, n - 1, BarsAt(store, EndOf(tape[n - 1])), side);
    StateAtIsDamped(tape, n, BarsAt(store, EndOf(tape[n])), side);
  }

  /** A five-minute bar that ends after the minute does not influence its verdict. */
  lemma {:induction false} FutureBarIgnored(tape: seq<Bar>, i: nat, a: seq<FiveBar>, late: FiveBar, b: seq<FiveBar>,
                                          side: Side)
    requires i < |tape| && EndOf(tape[i]) < late.start + 300
    ensures RawAt(tape, i, a + [late] + b, side) == RawAt(tape, i, a + b, side)
  {
    UnendedBarIgnored(a, late, b, EndOf(tape[i]));
  }
}
