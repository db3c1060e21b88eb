/**
 The hysteresis between the snapshots themselves.  Each snapshot reads both stores afresh and picks its own
 series, so the minute before it is judged again, on what is seen now; the damping holds exactly while that
 minute is still judged committed.
 */
module CommitmentSnapshots {
  import opened Common
  import opened CommitmentState
  import opened CommitmentRun
  import opened FiveMinute

  /** The five-minute bars the snapshot at minute n judges on. */
  function BarsSeen(tape: seq<Bar>, n: nat, ext: seq<Row>, rth: seq<Row>): seq<FiveBar>
    requires n < |tape|
  {
    SeriesAt(ext, rth, EndOf(tape[n])).1
  }

  /** The state the snapshot at minute n emits for a side. */
  function EmittedAt(tape: seq<Bar>, n: nat, ext: seq<Row>, rth: seq<Row>, side: Side): State
    requires 1 <= n < |tape|
  {
    StateAt(tape, n, BarsSeen(tape, n, ext, rth), side)
  }

  /** It is the state of the snapshot taken when minute n is the last to have closed. */
  method EmitsAt(tape: seq<Bar>, n: nat, ext: seq<Row>, rth: seq<Row>) returns (snap: Snapshot)
    requires 1 <= n < |tape|
    ensures snap.Snap? && snap.sides.Keys == {Long, Short}
    ensures forall side :: side in snap.sides ==> snap.sides[side].state == EmittedAt(tape, n, ext, rth, side)
  {
    snap := TakeSnapshot(tape[..n + 1], ext, rth);
  }

  /** The closes on which the snapshot at minute n judges the minute before it. */
  function SeenBefore(tape: seq<Bar>, n: nat, ext: seq<Row>, rth: seq<Row>): seq<real>
    requires 1 <= n < |tape|
  {
    ClosesBy(BarsSeen(tape, n, ext, rth), EndOf(tape[n - 1]))
  }

  /** Fifty closes, and with the market and the momentum on them. */
  predicate StillWith(closes: seq<real>, side: Side) {
    |closes| >= SMA_LEN && WithMarket(closes, side) && WithMomentum(closes, side)
  }

  /** A committed minute is judged committed again exactly when the closes seen now still go with the side. */
  lemma {:induction false} RejudgedCommittedIff(closes: seq<real>, seen: seq<real>, window: seq<Bar>, side: Side)
    requires VerdictOf(closes, window, side).Raw() == Committed
    ensures VerdictOf(seen, window, side).Raw() == Committed <==> StillWith(seen, side)
  {
  }

  /** After a committed snapshot, the next of the session is abandoned exactly when it is so raw and the
      committed minute is no longer judged committed. */
  lemma {:induction false} CommittedToAbandonedIff(tape: seq<Bar>, n: nat, ext: seq<Row>, rth: seq<Row>, side: Side)
    requires 2 <= n < |tape| && tape[n].session == tape[n - 1].session
    requires EmittedAt(tape, n - 1, ext, rth, side) == Committed
    ensures EmittedAt(tape, n, ext, rth, side) == Abandoned
       <==> && RawAt(tape, n, BarsSeen(tape, n, ext, rth), side).Raw() == Abandoned
            && !StillWith(SeenBefore(tape, n, ext, rth), side)
  {
    StateAtIsDamped(tape, n - 1, BarsSeen(tape, n - 1, ext, rth), side);
    StateAtIsDamped(tape, n, BarsSeen(tape, n, ext, rth), side);
    RejudgedCommittedIff(ClosesBy(BarsSeen(tape, n - 1, ext, rth), EndOf(tape[n - 1])),
                         SeenBefore(tape, n, ext, rth), Window(tape, n - 1), side);
  }

  function SeriesOf(tape: seq<Bar>, n: nat, ext: seq<Row>, rth: seq<Row>): Series
    requires n < |tape|
  {
    SeriesAt(ext, rth, EndOf(tape[n])).0
  }

  /** While the series does not change, the committed minute is judged so again exactly when fifty of its
      closes are still seen. */
  lemma {:induction false} OnOneSeriesFiftyCloses(tape: seq<Bar>, n: nat, ext: seq<Row>, rth: seq<Row>, side: Side)
    requires 2 <= n < |tape| && Ascending(ext) && Ascending(rth) && tape[n - 1].ts <= tape[n].ts
    requires SeriesOf(tape, n, ext, rth) == SeriesOf(tape, n - 1, ext, rth)
    requires EmittedAt(tape, n - 1, ext, rth, side) == Committed
    ensures StillWith(SeenBefore(tape, n, ext, rth), side) <==> |SeenBefore(tape, n, ext, rth)| >= SMA_LEN
  {
    var t, now := EndOf(tape[n - 1]), EndOf(tape[n]);
    var store := if SeriesOf(tape, n, ext, rth).Extended? then ext else rth;
    assert BarsSeen(tape, n, ext, rth) == BarsAt(store, now) && BarsSeen(tape, n - 1, ext, rth) == BarsAt(store, t);
    StateAtIsDamped(tape, n - 1, BarsAt(store, t), side);
    LaterReadSeesTail(store, t, now);
    var seen, closes := SeenBefore(tape, n, ext, rth), ClosesBy(BarsAt(store, t), t);
    RejudgedCommittedIff(closes, seen, Window(tape, n - 1), side);
    if |seen| >= SMA_LEN {
      VerdictOfTail(closes, seen, Window(tape, n - 1), side);
    }
  }

  // --- Concrete stores --------------------------------------------------------------------------

  /** Rows at least five minutes apart, so one to a bar. */
  ghost predicate Spaced(rows: seq<Row>) {
    forall i :: 0 < i < |rows| ==> rows[i - 1].ts + 300 <= rows[i].ts
  }

  function BarOf(row: Row): FiveBar {
    FiveBar(BucketOf(row.ts), row.close)
  }

  ghost predicate BarsOfRows(bars: seq<FiveBar>, rows: seq<Row>) {
    |bars| == |rows| && forall i :: 0 <= i < |rows| ==> bars[i] == BarOf(rows[i])
  }

  lemma {:induction false} NextBar(bars: seq<FiveBar>, rows: seq<Row>, row: Row)
    requires BarsOfRows(bars, rows) && (rows != [] ==> rows[|rows| - 1].ts + 300 <= row.ts)
    ensures BarsOfRows(AddRow(bars, row), rows + [row])
  {
    if rows != [] {
      assert bars[|bars| - 1] == BarOf(rows[|rows| - 1]);
    }
  }

  lemma {:induction false} GroupIsRows(rows: seq<Row>, n: nat)
    requires n <= |rows| && Spaced(rows)
    ensures BarsOfRows(Group(rows[..n]), rows[..n])
  {
    if n > 0 {
      GroupIsRows(rows, n - 1);
      assert rows[..n][..n - 1] == rows[..n - 1] && rows[..n] == rows[..n - 1] + [rows[n - 1]];
      NextBar(Group(rows[..n - 1]), rows[..n - 1], rows[n - 1]);
    }
  }

  /** A read that some rows have aged out of and that reaches all the others. */
  lemma {:induction false} ReadIsSuffix(aged: seq<Row>, rows: seq<Row>, from: int, to: int)
    requires forall i :: 0 <= i < |aged| ==> aged[i].ts < from
    requires forall i :: 0 <= i < |rows| ==> from <= rows[i].ts <= to
    ensures Read(aged + rows, from, to) == rows
    decreases |rows|
  {
    if rows == [] {
      assert aged + rows == aged;
      ReadNothing(aged, from, to);
    } else {
      var init := rows[..|rows| - 1];
      assert (aged + rows)[..|aged + rows| - 1] == aged + init;
      ReadIsSuffix(aged, init, from, to);
      assert rows == init + [rows[|rows| - 1]];
    }
  }

  lemma {:induction false} ClosesOfEndedBars(five: seq<FiveBar>, n: nat, t: int)
    requires n <= |five|
    requires forall i :: 0 <= i < n ==> five[i].start + 300 <= t
    requires forall i :: n <= i < |five| ==> five[i].start + 300 > t
    ensures |ClosesBy(five, t)| == n
    ensures forall i :: 0 <= i < n ==> ClosesBy(five, t)[i] == five[i].close
  {
    if five != [] {
      ClosesOfEndedBars(five[..|five| - 1], if n == |five| then n - 1 else n, t);
    }
  }

  /** What a read at `now` says had ended by t, for spaced rows: the first n of those not aged out. */
  lemma {:induction false} SeenRows(aged: seq<Row>, rows: seq<Row>, now: int, t: int, n: nat)
    requires Spaced(rows) && t <= now && n <= |rows|
    requires forall i :: 0 <= i < |aged| ==> aged[i].ts < now - LOOKBACK
    requires forall i :: 0 <= i < |rows| ==> now - LOOKBACK <= rows[i].ts <= now
    requires forall i :: 0 <= i < n ==> rows[i].ts + 300 <= t
    requires forall i :: n <= i < |rows| ==> BucketOf(rows[i].ts) + 300 > t
    ensures |ClosesBy(BarsAt(aged + rows, now), t)| == n
    ensures forall i :: 0 <= i < n ==> ClosesBy(BarsAt(aged + rows, now), t)[i] == rows[i].close
  {
    ReadIsSuffix(aged, rows, now - LOOKBACK, now);
    GroupIsRows(rows, |rows|);
    assert rows[..|rows|] == rows;
    ClosesOfRows(rows, Group(rows), n, t);
    ClosesOfEnded(Group(rows), t, now);
  }

  lemma {:induction false} ClosesOfRows(rows: seq<Row>, bars: seq<FiveBar>, n: nat, t: int)
    requires n <= |rows| && BarsOfRows(bars, rows)
    requires forall i :: 0 <= i < n ==> rows[i].ts + 300 <= t
    requires forall i :: n <= i < |rows| ==> BucketOf(rows[i].ts) + 300 > t
    ensures |ClosesBy(bars, t)| == n
    ensures forall i :: 0 <= i < n ==> ClosesBy(bars, t)[i] == rows[i].close
  {
    ClosesOfEndedBars(bars, n, t);
  }

  const THEN := 599940
  const NOW := 600000

  /** Four full minutes of one session; the last two end at THEN and NOW. */
  function FullTape(): (tape: seq<Bar>)
    ensures |tape| == 4
    ensures forall i :: 0 <= i < 4 ==> tape[i] == Bar(NOW - 240 + 60 * i, 0, 1.0, 0.0, 1.0)
  {
    seq(4, i => Bar(NOW - 240 + 60 * i, 0, 1.0, 0.0, 1.0))
  }

  /** Forty-eight quiet bars, a last one, and whatever comes after. */
  function Tail(last: real, more: seq<Row>): (rows: seq<Row>)
    ensures |rows| == 49 + |more| && rows[48] == Row(599400, last)
    ensures forall i :: 0 <= i < 48 ==> rows[i] == Row(300300 + 300 * i, 0.0)
    ensures forall i :: 49 <= i < |rows| ==> rows[i] == more[i - 49]
  {
    seq(48, i => Row(300300 + 300 * i, 0.0)) + [Row(599400, last)] + more
  }

  const AGED := [Row(THEN - LOOKBACK, 0.0)]

  /** The same behind a row that a read at THEN just reaches and one at NOW does not. */
  function Aging(last: real, more: seq<Row>): seq<Row> {
    AGED + Tail(last, more)
  }

  /** The same behind one more quiet bar, which both reads reach. */
  function Recent(last: real): seq<Row> {
    [Row(300000, 0.0)] + Tail(last, [])
  }

  /** Rows of this kind: k quiet ones, the one at 599400, and perhaps one more at 599700. */
  ghost predicate Staged(rows: seq<Row>, k: nat, last: real, more: seq<Row>) {
    && Spaced(rows) && |rows| == k + 1 + |more| && |more| <= 1
    && (forall i :: 0 <= i < k ==> THEN - LOOKBACK <= rows[i].ts <= 314400 && rows[i].close == 0.0)
    && rows[k] == Row(599400, last)
    && (more != [] ==> more[0].ts == 599700 && rows[k + 1] == more[0])
  }

  lemma {:induction false} TailIsStaged(head: seq<Row>, last: real, more: seq<Row>)
    requires |head| <= 1 && (head != [] ==> THEN - LOOKBACK <= head[0].ts <= 300000 && head[0].close == 0.0)
    requires |more| <= 1 && (more != [] ==> more[0].ts == 599700)
    ensures Staged(head + Tail(last, more), |head| + 48, last, more)
  {
    var rows, tail := head + Tail(last, more), Tail(last, more);
    forall i | 0 < i < |rows| ensures rows[i - 1].ts + 300 <= rows[i].ts {
      assert rows[i] == tail[i - |head|];
      assert i - 1 >= |head| ==> rows[i - 1] == tail[i - 1 - |head|];
    }
    forall i | 0 <= i < |head| + 48 ensures THEN - LOOKBACK <= rows[i].ts <= 314400 && rows[i].close == 0.0 {
      assert i >= |head| ==> rows[i] == tail[i - |head|];
    }
  }

  /** The closes of such rows read at `now`, by t: without the one more while its bar has not ended. */
  lemma {:induction false} StagedCloses(aged: seq<Row>, rows: seq<Row>, k: nat, last: real, more: seq<Row>,
                                        now: int, t: int)
    requires Staged(rows, k, last, more) && THEN <= t <= now <= NOW
    requires rows[0].ts >= now - LOOKBACK && forall i :: 0 <= i < |aged| ==> aged[i].ts < now - LOOKBACK
    ensures var closes := ClosesBy(BarsAt(aged + rows, now), t);
      && |closes| == (if t < NOW then k + 1 else |rows|) && closes[k] == last
      && (forall i :: 0 <= i < k ==> closes[i] == 0.0)
      && (t == NOW && more != [] ==> closes[k + 1] == more[0].close)
  {
    forall i | 0 <= i < |rows| ensures rows[i].ts >= now - LOOKBACK {
      LaterStaged(rows, i);
    }
    SeenRows(aged, rows, now, t, if t < NOW then k + 1 else |rows|);
  }

  lemma {:induction false} LaterStaged(rows: seq<Row>, i: nat)
    requires Spaced(rows) && i < |rows|
    ensures rows[0].ts <= rows[i].ts
  {
    if i > 0 {
      LaterStaged(rows, i - 1);
    }
  }

  lemma {:induction false} FallIsAgainstLong(closes: seq<real>)
    requires |closes| == SMA_LEN && closes[49] < 0.0
    requires forall i :: 0 <= i < 48 ==> closes[i] == 0.0
    requires closes[48] == 0.0 || (closes[48] == 1.0 && closes[49] == -100.0)
    ensures WithMarket(closes, Short) && !WithMarket(closes, Long)
  {
    assert Last(closes, SMA_LEN) == closes;
    SumOfZeros(closes[..48]);
    assert closes[..49][..48] == closes[..48];
    assert Sum(closes[..49]) == closes[48];
    assert Sum(closes) == closes[48] + closes[49];
  }

  lemma {:induction false} FullIsReady(n: nat)
    requires 2 <= n < 4
    ensures |Clvs(Window(FullTape(), n), Long)| >= CLV_RECENT
  {
    FullClvs(Window(FullTape(), n));
  }

  /** What the snapshot at THEN reads: fifty closes, the last one up. */
  lemma {:induction false} SeenThen(more: seq<Row>, closes: seq<real>)
    requires |more| <= 1 && (more != [] ==> more[0].ts == 599700)
    requires closes == ClosesBy(BarsAt(Aging(1.0, more), THEN), THEN)
    ensures |closes| == SMA_LEN && WithMarket(closes, Long) && WithMomentum(closes, Long)
  {
    TailIsStaged(AGED, 1.0, more);
    assert [] + Aging(1.0, more) == Aging(1.0, more);
    StagedCloses([], Aging(1.0, more), 49, 1.0, more, THEN, THEN);
    StepIsWithMarket(closes);
  }

  /** So it emits committed. */
  lemma {:induction false} CommittedThen(more: seq<Row>, rth: seq<Row>)
    requires more == [] || more == [Row(599700, -100.0)]
    ensures EmittedAt(FullTape(), 2, Aging(1.0, more), rth, Long) == Committed
    ensures SeriesOf(FullTape(), 2, Aging(1.0, more), rth) == Extended
  {
    var tape, bars := FullTape(), BarsAt(Aging(1.0, more), THEN);
    assert EndOf(tape[2]) == THEN;
    SeenThen(more, ClosesBy(bars, THEN));
    ThreeFull(tape);
    assert Window(tape, 2) == tape[..3];
    assert RawAt(tape, 2, bars, Long).Raw() == Committed;
    StateAtIsDamped(tape, 2, bars, Long);
  }

  /** The snapshot at NOW judges a fall, and the minute before it not committed: abandoned. */
  lemma {:induction false} AbandonedNow(ext: seq<Row>, rth: seq<Row>)
    requires EmittedAt(FullTape(), 2, ext, rth, Long) == Committed
    requires var closes := ClosesBy(BarsSeen(FullTape(), 3, ext, rth), NOW);
      |closes| >= SMA_LEN && WithMarket(closes, Short)
    requires !StillWith(SeenBefore(FullTape(), 3, ext, rth), Long)
    ensures EmittedAt(FullTape(), 3, ext, rth, Long) == Abandoned
  {
    var tape := FullTape();
    FullIsReady(3);
    AgainstMarketIsAbandoned(ClosesBy(BarsSeen(tape, 3, ext, rth), NOW), Window(tape, 3), Long);
    assert EndOf(tape[3]) == NOW;
    CommittedToAbandonedIff(tape, 3, ext, rth, Long);
  }

  /** Committed, then abandoned in the next minute of the session. */
  ghost predicate DampingLost(tape: seq<Bar>, n: nat, ext: seq<Row>, rth: seq<Row>) {
    && 2 <= n < |tape| && tape[n].session == tape[n - 1].session
    && EmittedAt(tape, n - 1, ext, rth, Long) == Committed
    && EmittedAt(tape, n, ext, rth, Long) == Abandoned
  }

  /** At NOW the aged row is out of reach: the closes are those of the tail that had ended. */
  lemma {:induction false} AgedCloses(more: seq<Row>, t: int)
    requires |more| <= 1 && (more != [] ==> more[0].ts == 599700) && THEN <= t <= NOW
    ensures var closes := ClosesBy(BarsAt(Aging(1.0, more), NOW), t);
      && |closes| == (if t < NOW then 49 else 49 + |more|) && closes[48] == 1.0
      && (forall i :: 0 <= i < 48 ==> closes[i] == 0.0)
      && (t == NOW && more != [] ==> closes[49] == more[0].close)
  {
    TailAlone(more);
    StagedCloses(AGED, Tail(1.0, more), 48, 1.0, more, NOW, t);
  }

  lemma {:induction false} TailAlone(more: seq<Row>)
    requires |more| <= 1 && (more != [] ==> more[0].ts == 599700)
    ensures Staged(Tail(1.0, more), 48, 1.0, more) && Tail(1.0, more)[0].ts >= NOW - LOOKBACK
    ensures forall i :: 0 <= i < |AGED| ==> AGED[i].ts < NOW - LOOKBACK
  {
    TailIsStaged([], 1.0, more);
    assert [] + Tail(1.0, more) == Tail(1.0, more);
  }

  lemma {:induction false} ExtendedIsShortNow()
    ensures |ClosesBy(BarsAt(Aging(1.0, []), NOW), NOW)| == SMA_LEN - 1
  {
    AgedCloses([], NOW);
  }

  lemma {:induction false} RegularIsDown(t: int)
    requires THEN <= t <= NOW
    ensures var closes := ClosesBy(BarsAt(Recent(-1.0), NOW), t);
      |closes| == SMA_LEN && WithMarket(closes, Short) && !WithMarket(closes, Long)
  {
    TailIsStaged([Row(300000, 0.0)], -1.0, []);
    assert [] + Recent(-1.0) == Recent(-1.0);
    StagedCloses([], Recent(-1.0), 49, -1.0, [], NOW, t);
    FallIsAgainstLong(ClosesBy(BarsAt(Recent(-1.0), NOW), t));
  }

  /** It happens when the extended series falls under fifty closes and the regular one is judged instead. */
  lemma {:induction false} SwitchOfSeriesLosesTheDamping()
    ensures var tape, ext, rth := FullTape(), Aging(1.0, []), Recent(-1.0);
      && DampingLost(tape, 3, ext, rth)
      && SeriesOf(tape, 2, ext, rth) == Extended && SeriesOf(tape, 3, ext, rth) == Regular
      && |SeenBefore(tape, 3, ext, rth)| == SMA_LEN
  {
    var tape, ext, rth := FullTape(), Aging(1.0, []), Recent(-1.0);
    CommittedThen([], rth);
    assert EndOf(tape[3]) == NOW && EndOf(tape[2]) == THEN;
    ExtendedIsShortNow();
    assert BarsSeen(tape, 3, ext, rth) == BarsAt(rth, NOW);
    RegularIsDown(NOW);
    RegularIsDown(THEN);
    AbandonedNow(ext, rth);
  }

  lemma {:induction false} OneSeriesNow(more: seq<Row>)
    requires more == [Row(599700, -100.0)]
    ensures var bars := BarsAt(Aging(1.0, more), NOW);
      && |ClosesBy(bars, NOW)| == SMA_LEN && WithMarket(ClosesBy(bars, NOW), Short)
      && |ClosesBy(bars, THEN)| == SMA_LEN - 1
  {
    AgedCloses(more, NOW);
    AgedCloses(more, THEN);
    FallIsAgainstLong(ClosesBy(BarsAt(Aging(1.0, more), NOW), NOW));
  }

  /** And on one series, when a new bar ends as the oldest falls out, and forty-nine are left for the minute
      before. */
  lemma {:induction false} FortyNineClosesLoseTheDamping()
    ensures var tape, ext := FullTape(), Aging(1.0, [Row(599700, -100.0)]);
      && DampingLost(tape, 3, ext, [])
      && SeriesOf(tape, 2, ext, []) == Extended && SeriesOf(tape, 3, ext, []) == Extended
      && |SeenBefore(tape, 3, ext, [])| == SMA_LEN - 1
  {
    var tape, ext := FullTape(), Aging(1.0, [Row(599700, -100.0)]);
    CommittedThen([Row(599700, -100.0)], []);
    assert EndOf(tape[3]) == NOW && EndOf(tape[2]) == THEN;
    OneSeriesNow([Row(599700, -100.0)]);
    assert BarsSeen(tape, 3, ext, []) == BarsAt(ext, NOW);
    AbandonedNow(ext, []);
  }
}
