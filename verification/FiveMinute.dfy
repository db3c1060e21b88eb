/**
 Five-minute bars built from a series of one-minute rows, and how a later read of the same series
 changes what an earlier one saw.  Times are epoch seconds.
 */
module FiveMinute {
  import opened Common
  import opened CommitmentState

  const LOOKBACK := 6 * 86400

  datatype Row = Row(ts: int, close: real)

  /** The store keeps one row per minute, in order. */
  ghost predicate Ascending(rows: seq<Row>) {
    forall i, j :: 0 <= i < j < |rows| ==> rows[i].ts < rows[j].ts
  }

  function BucketOf(ts: int): (k: int)
    ensures k <= ts < k + 300 && k % 300 == 0
  {
    ts - ts % 300
  }

  /** A row closes its bar anew, or starts the next one. */
  function AddRow(bars: seq<FiveBar>, row: Row): seq<FiveBar> {
    var k := BucketOf(row.ts);
    if bars != [] && bars[|bars| - 1].start == k then bars[..|bars| - 1] + [FiveBar(k, row.close)]
    else bars + [FiveBar(k, row.close)]
  }

  function Group(rows: seq<Row>): seq<FiveBar> {
    if rows == [] then [] else AddRow(Group(rows[..|rows| - 1]), rows[|rows| - 1])
  }

  /** The rows of a store between two moments. */
  function Read(store: seq<Row>, from: int, to: int): seq<Row> {
    if store == [] then []
    else
      var init, row := store[..|store| - 1], store[|store| - 1];
      Read(init, from, to) + if from <= row.ts <= to then [row] else []
  }

  function Ended(bars: seq<FiveBar>, t: int): seq<FiveBar> {
    if bars == [] then []
    else
      var init, b := bars[..|bars| - 1], bars[|bars| - 1];
      Ended(init, t) + if b.start + 300 <= t then [b] else []
  }

  /** The five-minute bars a read at t sees. */
  function BarsAt(store: seq<Row>, t: int): seq<FiveBar> {
    Ended(Group(Read(store, t - LOOKBACK, t)), t)
  }

  /** The next row goes into the last bar or begins one. */
  lemma {:induction false} GroupNext(rows: seq<Row>, i: nat)
    requires i < |rows|
    ensures var bars, k := Group(rows[..i]), BucketOf(rows[i].ts);
      Group(rows[..i + 1])
      == if bars != [] && bars[|bars| - 1].start == k then bars[|bars| - 1 := FiveBar(k, rows[i].close)]
         else bars + [FiveBar(k, rows[i].close)]
  {
    assert rows[..i + 1][..i] == rows[..i];
    ReplaceLast(Group(rows[..i]), FiveBar(BucketOf(rows[i].ts), rows[i].close));
  }

  lemma {:induction false} ReplaceLast(bars: seq<FiveBar>, bar: FiveBar)
    ensures bars != [] ==> bars[|bars| - 1 := bar] == bars[..|bars| - 1] + [bar]
  {
  }

  method Bars5m(store: seq<Row>, t: int) returns (out: seq<FiveBar>)
    ensures out == BarsAt(store, t)
  {
    var rows := Read(store, t - LOOKBACK, t);
    var bars: seq<FiveBar> := [];
    for i := 0 to |rows|
      invariant bars == Group(rows[..i])
    {
      GroupNext(rows, i);
      var k := rows[i].ts - rows[i].ts % 300;
      if bars != [] && bars[|bars| - 1].start == k {
        bars := bars[|bars| - 1 := FiveBar(k, rows[i].close)];
      } else {
        bars := bars + [FiveBar(k, rows[i].close)];
      }
    }
    assert rows[..|rows|] == rows;
    out := Ended(bars, t);
  }

  // --- The bars, exactly ------------------------------------------------------------------------

  /** The moment lies in the five minutes that start at k, which is a multiple of five minutes. */
  predicate InBucket(ts: int, k: int) {
    k % 300 == 0 && k <= ts < k + 300
  }

  lemma {:induction false} BucketIff(ts: int, k: int)
    ensures InBucket(ts, k) <==> k == BucketOf(ts)
  {
  }

  /** Row i is the last of its bucket, which starts at k. */
  ghost predicate LastOf(rows: seq<Row>, i: nat, k: int)
    requires i < |rows|
  {
    InBucket(rows[i].ts, k) && forall j :: i < j < |rows| ==> !InBucket(rows[j].ts, k)
  }

  ghost predicate ClosesAt(rows: seq<Row>, k: int, close: real) {
    exists i :: 0 <= i < |rows| && LastOf(rows, i, k) && rows[i].close == close
  }

  lemma {:induction false} ClosesAtSnoc(init: seq<Row>, row: Row, k: int, close: real)
    ensures ClosesAt(init + [row], k, close)
       <==> if InBucket(row.ts, k) then row.close == close else ClosesAt(init, k, close)
  {
    var rows := init + [row];
    assert rows[|init|] == row;
    if InBucket(row.ts, k) {
      assert LastOf(rows, |init|, k);
    } else {
      if i :| 0 <= i < |init| && LastOf(init, i, k) && init[i].close == close {
        assert rows[i] == init[i] && LastOf(rows, i, k);
      }
      if i :| 0 <= i < |rows| && LastOf(rows, i, k) && rows[i].close == close {
        assert i < |init| && init[i] == rows[i];
        assert forall j :: i < j < |init| ==> init[j] == rows[j];
        assert LastOf(init, i, k);
      }
    }
  }

  /** Bars of distinct starts in order, the last one that of the last row. */
  ghost predicate Ordered(bars: seq<FiveBar>, rows: seq<Row>) {
    && (forall i, j :: 0 <= i < j < |bars| ==> bars[i].start < bars[j].start)
    && (bars == [] <==> rows == [])
    && (bars != [] ==> InBucket(rows[|rows| - 1].ts, bars[|bars| - 1].start))
  }

  lemma {:induction false} AddRowIs(bars: seq<FiveBar>, row: Row, b: FiveBar)
    requires forall i, j :: 0 <= i < j < |bars| ==> bars[i].start < bars[j].start
    requires bars != [] ==> bars[|bars| - 1].start <= BucketOf(row.ts)
    ensures b in AddRow(bars, row)
       <==> if b.start == BucketOf(row.ts) then b.close == row.close else b in bars
  {
    var k := BucketOf(row.ts);
    var after := AddRow(bars, row);
    assert after[|after| - 1] == FiveBar(k, row.close);
    if bars != [] && bars[|bars| - 1].start == k {
      assert bars == bars[..|bars| - 1] + [bars[|bars| - 1]];
    }
  }

  /** The bars are one per bucket that has any row, with its last close. */
  ghost predicate Tells(bars: seq<FiveBar>, rows: seq<Row>) {
    forall b :: b in bars <==> ClosesAt(rows, b.start, b.close)
  }

  lemma {:induction false} NothingGrouped()
    ensures Ordered([], []) && Tells([], [])
  {
  }

  /** Grouped rows of ascending moments are those bars, in order. */
  lemma {:induction false} GroupIs(rows: seq<Row>)
    requires Ascending(rows)
    ensures Ordered(Group(rows), rows) && Tells(Group(rows), rows)
  {
    if rows == [] {
      NothingGrouped();
    } else {
      var init, row := rows[..|rows| - 1], rows[|rows| - 1];
      assert rows == init + [row];
      EarlierRows(init, row);
      GroupIs(init);
      OrderedNext(Group(init), init, row);
      ToldNext(Group(init), init, row);
    }
  }

  lemma {:induction false} ToldNext(bars: seq<FiveBar>, init: seq<Row>, row: Row)
    requires Ordered(bars, init) && (bars != [] ==> bars[|bars| - 1].start <= BucketOf(row.ts)) && Tells(bars, init)
    ensures Tells(AddRow(bars, row), init + [row])
  {
    forall b ensures b in AddRow(bars, row) <==> ClosesAt(init + [row], b.start, b.close) {
      InNextGroup(bars, init, row, b);
    }
  }

  lemma {:induction false} InNextGroup(bars: seq<FiveBar>, init: seq<Row>, row: Row, b: FiveBar)
    requires Ordered(bars, init) && (bars != [] ==> bars[|bars| - 1].start <= BucketOf(row.ts))
    requires b in bars <==> ClosesAt(init, b.start, b.close)
    ensures b in AddRow(bars, row) <==> ClosesAt(init + [row], b.start, b.close)
  {
    AddRowIs(bars, row, b);
    ClosesAtSnoc(init, row, b.start, b.close);
    BucketIff(row.ts, b.start);
  }

  lemma {:induction false} OrderedNext(bars: seq<FiveBar>, init: seq<Row>, row: Row)
    requires Ordered(bars, init) && (init != [] ==> init[|init| - 1].ts < row.ts)
    ensures bars != [] ==> bars[|bars| - 1].start <= BucketOf(row.ts)
    ensures Ordered(AddRow(bars, row), init + [row])
  {
    var k, after := BucketOf(row.ts), AddRow(bars, row);
    var kept := after[..|after| - 1];
    assert after[|after| - 1] == FiveBar(k, row.close);
    BucketIff(row.ts, k);
    if bars != [] {
      NoEarlierBucket(init[|init| - 1].ts, row.ts, bars[|bars| - 1].start);
    }
    forall i | 0 <= i < |kept| ensures kept[i] == bars[i] && kept[i].start < k {
      assert i < |bars| - 1 ==> bars[i].start < bars[|bars| - 1].start;
    }
  }

  lemma {:induction false} NoEarlierBucket(ts: int, later: int, k: int)
    requires InBucket(ts, k) && ts < later
    ensures k <= BucketOf(later)
  {
  }

  lemma {:induction false} ReadIs(store: seq<Row>, from: int, to: int)
    requires Ascending(store)
    ensures Ascending(Read(store, from, to))
    ensures forall r :: r in Read(store, from, to) <==> r in store && from <= r.ts <= to
  {
    if store != [] {
      var init, row := store[..|store| - 1], store[|store| - 1];
      assert store == init + [row];
      EarlierRows(init, row);
      ReadIs(init, from, to);
      OneMoreRead(init, row, Read(init, from, to), from, to);
    }
  }

  lemma {:induction false} OneMoreRead(init: seq<Row>, row: Row, seen: seq<Row>, from: int, to: int)
    requires Ascending(seen) && forall i :: 0 <= i < |init| ==> init[i].ts < row.ts
    requires forall r :: r in seen <==> r in init && from <= r.ts <= to
    ensures var all := seen + if from <= row.ts <= to then [row] else [];
      Ascending(all) && forall r :: r in all <==> r in init + [row] && from <= r.ts <= to
  {
    forall i | 0 <= i < |seen| ensures seen[i].ts < row.ts {
      assert seen[i] in init;
    }
  }

  lemma {:induction false} EndedIs(bars: seq<FiveBar>, t: int)
    ensures forall b :: b in Ended(bars, t) <==> b in bars && b.start + 300 <= t
  {
    if bars != [] {
      EndedIs(bars[..|bars| - 1], t);
      assert bars == bars[..|bars| - 1] + [bars[|bars| - 1]];
    }
  }

  /** What a read at t sees: of the six days up to t, for every five minutes that have ended and hold a row, one
      bar with the close of the last of them. */
  lemma {:induction false} BarsAre(store: seq<Row>, t: int)
    requires Ascending(store)
    ensures var seen := Read(store, t - 6 * 86400, t);
      && (forall r :: r in seen <==> r in store && t - 518400 <= r.ts <= t)
      && (forall b :: b in BarsAt(store, t) <==> b.start + 300 <= t && ClosesAt(seen, b.start, b.close))
  {
    ReadIs(store, t - LOOKBACK, t);
    GroupIs(Read(store, t - LOOKBACK, t));
    EndedIs(Group(Read(store, t - LOOKBACK, t)), t);
  }

  lemma {:induction false} ClosesConcat(a: seq<FiveBar>, b: seq<FiveBar>, t: int)
    ensures ClosesBy(a + b, t) == ClosesBy(a, t) + ClosesBy(b, t)
    decreases |b|
  {
    if b == [] {
      assert a + b == a;
    } else {
      var init := b[..|b| - 1];
      assert (a + b)[..|a + b| - 1] == a + init;
      ClosesConcat(a, init, t);
    }
  }

  /** Bars that end later than t do not show at t. */
  lemma {:induction false} ClosesOfEnded(bars: seq<FiveBar>, t: int, now: int)
    requires t <= now
    ensures ClosesBy(Ended(bars, now), t) == ClosesBy(bars, t)
  {
    if bars != [] {
      var init, b := bars[..|bars| - 1], bars[|bars| - 1];
      ClosesOfEnded(init, t, now);
      if b.start + 300 <= now {
        ClosesConcat(Ended(init, now), [b], t);
        ClosesConcat(init, [b], t);
        assert bars == init + [b];
        assert Ended(bars, now) == Ended(init, now) + [b];
      } else {
        assert Ended(bars, now) == Ended(init, now);
      }
    }
  }

  /** A row later than t belongs to a bar that has not ended at t. */
  lemma {:induction false} LateRowIgnored(bars: seq<FiveBar>, row: Row, t: int)
    requires t < row.ts
    ensures ClosesBy(AddRow(bars, row), t) == ClosesBy(bars, t)
  {
    var k := BucketOf(row.ts);
    if bars != [] && bars[|bars| - 1].start == k {
      ClosesConcat(bars[..|bars| - 1], [FiveBar(k, row.close)], t);
    } else {
      ClosesConcat(bars, [FiveBar(k, row.close)], t);
    }
    assert ClosesBy([FiveBar(k, row.close)], t) == [];
  }

  lemma {:induction false} ReadNothing(store: seq<Row>, from: int, to: int)
    requires forall i :: 0 <= i < |store| ==> store[i].ts < from
    ensures Read(store, from, to) == []
  {
    if store != [] {
      ReadNothing(store[..|store| - 1], from, to);
    }
  }

  lemma {:induction false} EarlierRows(init: seq<Row>, row: Row)
    requires Ascending(init + [row])
    ensures Ascending(init) && forall i :: 0 <= i < |init| ==> init[i].ts < row.ts
  {
    var rows := init + [row];
    assert rows[|init|] == row && forall i :: 0 <= i < |init| ==> rows[i] == init[i];
  }

  /** A read splits in time. */
  lemma {:induction false} ReadSplit(store: seq<Row>, from: int, mid: int, to: int)
    requires Ascending(store) && from <= mid <= to + 1
    ensures Read(store, from, to) == Read(store, from, mid - 1) + Read(store, mid, to)
  {
    if store != [] {
      var init, row := store[..|store| - 1], store[|store| - 1];
      assert store == init + [row];
      EarlierRows(init, row);
      ReadSplit(init, from, mid, to);
      if row.ts < mid {
        ReadNothing(init, mid, to);
        assert Read(store, mid, to) == [];
      }
    }
  }

  lemma {:induction false} ReadAfter(store: seq<Row>, from: int, to: int)
    ensures forall i :: 0 <= i < |Read(store, from, to)| ==> Read(store, from, to)[i].ts >= from
  {
    if store != [] {
      ReadAfter(store[..|store| - 1], from, to);
    }
  }

  lemma {:induction false} LateRowsIgnored(rows: seq<Row>, late: seq<Row>, t: int)
    requires forall i :: 0 <= i < |late| ==> late[i].ts > t
    ensures ClosesBy(Group(rows + late), t) == ClosesBy(Group(rows), t)
    decreases |late|
  {
    if late == [] {
      assert rows + late == rows;
    } else {
      var init, row := late[..|late| - 1], late[|late| - 1];
      assert (rows + late)[..|rows + late| - 1] == rows + init;
      LateRowsIgnored(rows, init, t);
      LateRowIgnored(Group(rows + init), row, t);
    }
  }

  /** Reading further into the future changes nothing that had ended by t. */
  lemma {:induction false} LaterRowsIgnored(store: seq<Row>, from: int, t: int, now: int)
    requires Ascending(store) && from <= t + 1 && t <= now
    ensures ClosesBy(Group(Read(store, from, now)), t) == ClosesBy(Group(Read(store, from, t)), t)
  {
    ReadSplit(store, from, t + 1, now);
    ReadAfter(store, t + 1, now);
    LateRowsIgnored(Read(store, from, t), Read(store, t + 1, now), t);
  }

  ghost predicate SuffixOf<T>(s: seq<T>, whole: seq<T>) {
    |s| <= |whole| && whole[|whole| - |s|..] == s
  }

  lemma {:induction false} AddRowKeepsSuffix(s: seq<FiveBar>, whole: seq<FiveBar>, row: Row)
    requires SuffixOf(s, whole)
    ensures SuffixOf(AddRow(s, row), AddRow(whole, row))
  {
    var cut := |whole| - |s|;
    if s != [] {
      assert whole[|whole| - 1] == s[|s| - 1];
    }
    var a, b := AddRow(s, row), AddRow(whole, row);
    assert |a| <= |b|;
    forall i | 0 <= i < |a| ensures b[|b| - |a| + i] == a[i] {
      if i < |s| {
        assert whole[cut + i] == s[i];
      }
    }
  }

  lemma {:induction false} GroupSuffix(front: seq<Row>, rows: seq<Row>)
    ensures SuffixOf(Group(rows), Group(front + rows))
    decreases |rows|
  {
    if rows != [] {
      var init, row := rows[..|rows| - 1], rows[|rows| - 1];
      assert (front + rows)[..|front + rows| - 1] == front + init;
      GroupSuffix(front, init);
      AddRowKeepsSuffix(Group(init), Group(front + init), row);
    }
  }

  /** A read that starts later sees a suffix of the bars. */
  lemma {:induction false} LaterStartIsSuffix(store: seq<Row>, from: int, from': int, to: int)
    requires Ascending(store) && from <= from' <= to + 1
    ensures SuffixOf(Group(Read(store, from', to)), Group(Read(store, from, to)))
  {
    ReadSplit(store, from, from', to);
    GroupSuffix(Read(store, from, from' - 1), Read(store, from', to));
  }

  /** What a later read says had ended by t is the tail of what a read at t said: the bars themselves do
      not change, only the oldest fall out of the lookback. */
  lemma {:induction false} LaterReadSeesTail(store: seq<Row>, t: int, now: int)
    requires Ascending(store) && t <= now
    ensures SuffixOf(ClosesBy(BarsAt(store, now), t), ClosesBy(BarsAt(store, t), t))
  {
    var from := now - LOOKBACK;
    ClosesOfEnded(Group(Read(store, from, now)), t, now);
    ClosesOfEnded(Group(Read(store, t - LOOKBACK, t)), t, t);
    if t < from {
      ReadTooLate(store, from, now, t);
    } else {
      ReadInTime(store, t - LOOKBACK, from, t, now);
    }
  }

  lemma {:induction false} ReadInTime(store: seq<Row>, from: int, from': int, t: int, now: int)
    requires Ascending(store) && from <= from' <= t <= now
    ensures SuffixOf(ClosesBy(Group(Read(store, from', now)), t), ClosesBy(Group(Read(store, from, t)), t))
  {
    LaterRowsIgnored(store, from', t, now);
    LaterStartIsSuffix(store, from, from', t);
    ClosesOfSuffix(Group(Read(store, from', t)), Group(Read(store, from, t)), t);
  }

  lemma {:induction false} ClosesOfSuffix(s: seq<FiveBar>, whole: seq<FiveBar>, t: int)
    requires SuffixOf(s, whole)
    ensures SuffixOf(ClosesBy(s, t), ClosesBy(whole, t))
  {
    var cut := |whole| - |s|;
    assert whole == whole[..cut] + s;
    ClosesConcat(whole[..cut], s, t);
  }

  /** A read that starts after t sees nothing that had ended by it. */
  lemma {:induction false} ReadTooLate(store: seq<Row>, from: int, to: int, t: int)
    requires t < from
    ensures ClosesBy(Group(Read(store, from, to)), t) == []
  {
    ReadAfter(store, from, to);
    LateRowsIgnored([], Read(store, from, to), t);
    assert [] + Read(store, from, to) == Read(store, from, to);
  }

  /** No bar that ends after t shows in the closes at t, whatever its place in the list. */
  lemma {:induction false} UnendedBarIgnored(a: seq<FiveBar>, late: FiveBar, b: seq<FiveBar>, t: int)
    requires t < late.start + 300
    ensures ClosesBy(a + [late] + b, t) == ClosesBy(a + b, t)
  {
    ClosesConcat(a + [late], b, t);
    ClosesConcat(a, [late], t);
    ClosesConcat(a, b, t);
    assert ClosesBy([late], t) == [];
  }
}
