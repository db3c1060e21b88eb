/**
 What the loop does with the commitment state: records it once per side and closed bar, and keeps a
 directional entry from being placed on an abandoned side of a paper box.
 */
module CommitmentGate {
  import opened Common
  import opened CommitmentState
  import opened CommitmentRun
  import opened FiveMinute
  import Latch

  const DIRECTIONAL := ["Breakout", "RunawayContinuation", "LiquidityHunt", "VOLT", "ORBStrategy"]

  // --- The recorder -----------------------------------------------------------------------------

  datatype StateRow = StateRow(side: Side, barTs: int, report: Report)

  function Look(snap: Snapshot): Latch.Event {
    if snap.Snap? then Latch.Event(snap.barTs, true) else Latch.Event(0, false)
  }

  function Looks(snaps: seq<Snapshot>): (es: seq<Latch.Event>)
    ensures |es| == |snaps| && forall i :: 0 <= i < |es| ==> es[i] == Look(snaps[i])
  {
    seq(|snaps|, i requires 0 <= i < |snaps| => Look(snaps[i]))
  }

  ghost predicate BothSides(snap: Snapshot) {
    snap.Snap? ==> snap.sides.Keys == {Long, Short}
  }

  /** The later rows are the earlier ones followed by rows of the snapshot. */
  ghost predicate Added(before: seq<StateRow>, after: seq<StateRow>, snap: Snapshot) {
    && before <= after
    && forall i :: |before| <= i < |after| ==>
         && snap.Snap? && after[i].side in snap.sides
         && after[i] == StateRow(after[i].side, snap.barTs, snap.sides[after[i].side])
  }

  lemma {:induction false} AddedByBoth(a: seq<StateRow>, b: seq<StateRow>, c: seq<StateRow>, snap: Snapshot)
    requires snap.Snap? && Long in snap.sides && Short in snap.sides
    requires b == a || b == a + [StateRow(Long, snap.barTs, snap.sides[Long])]
    requires c == b || c == b + [StateRow(Short, snap.barTs, snap.sides[Short])]
    ensures Added(a, c, snap)
  {
  }

  /** One more snapshot is one more look at the latch. */
  lemma {:induction false} OneMoreLook(seen: seq<Snapshot>, snap: Snapshot)
    ensures var es, e := Looks(seen), Look(snap);
      && Latch.Emitted(Looks(seen + [snap]))
         == Latch.Emitted(es) + (if Latch.Fires(e, Latch.LastAfter(es)) then [e.key] else [])
      && Latch.LastAfter(Looks(seen + [snap])) == Latch.Next(e, Latch.LastAfter(es))
  {
    Latch.Extend(Looks(seen), Look(snap));
    assert Looks(seen + [snap]) == Looks(seen) + [Look(snap)];
  }

  /** The bars recorded for one side, in order. */
  function BarsOf(rows: seq<StateRow>, side: Side): seq<int> {
    if rows == [] then []
    else
      var init, row := rows[..|rows| - 1], rows[|rows| - 1];
      BarsOf(init, side) + if row.side == side then [row.barTs] else []
  }

  class Recorder {
    var lastBar: map<Side, int>
    var rows: seq<StateRow>
    ghost var seen: seq<Snapshot>

    function LastBar(side: Side): Option<int>
      reads this
    {
      if side in lastBar then Some(lastBar[side]) else None
    }

    ghost predicate Valid()
      reads this
    {
      UpToDate(Long) && UpToDate(Short)
    }

    /** The side's rows and memory are what the latch makes of the snapshots seen. */
    ghost predicate UpToDate(side: Side)
      reads this
    {
      && BarsOf(rows, side) == Latch.Emitted(Looks(seen))
      && LastBar(side) == Latch.LastAfter(Looks(seen))
    }

    constructor ()
      ensures Valid() && seen == [] && rows == []
    {
      lastBar, rows, seen := map[], [], [];
    }

    /** One tick: a row per side when the snapshot's bar is new to the side. */
    method Observe(snap: Snapshot)
      requires Valid() && BothSides(snap)
      modifies this
      ensures Valid() && seen == old(seen) + [snap]
      ensures Added(old(rows), rows, snap)
    {
      OneMoreLook(seen, snap);
      ghost var before := rows;
      seen := seen + [snap];
      if snap.Unreadable? {
        return;
      }
      RecordSide(snap, Long);
      ghost var between := rows;
      RecordSide(snap, Short);
      AddedByBoth(before, between, rows, snap);
    }

    method RecordSide(snap: Snapshot, side: Side)
      requires snap.Snap? && side in snap.sides
      modifies `lastBar, `rows
      ensures var isNew := old(LastBar(side)) != Some(snap.barTs);
        && rows == old(rows) + (if isNew then [StateRow(side, snap.barTs, snap.sides[side])] else [])
        && LastBar(side) == Some(snap.barTs)
        && LastBar(Opposite(side)) == old(LastBar(Opposite(side)))
        && BarsOf(rows, side) == BarsOf(old(rows), side) + (if isNew then [snap.barTs] else [])
        && BarsOf(rows, Opposite(side)) == BarsOf(old(rows), Opposite(side))
    {
      if LastBar(side) == Some(snap.barTs) {
        return;
      }
      lastBar := lastBar[side := snap.barTs];
      rows := rows + [StateRow(side, snap.barTs, snap.sides[side])];
      assert rows[..|rows| - 1] == old(rows);
    }
  }

  /** With bars that never go backwards, each side records each closed bar it was shown exactly once. */
  lemma {:induction false} OneRowPerSidePerBar(rows: seq<StateRow>, seen: seq<Snapshot>, side: Side)
    requires BarsOf(rows, side) == Latch.Emitted(Looks(seen))
    requires forall i, j :: 0 <= i < j < |seen| && seen[i].Snap? && seen[j].Snap? ==>
               seen[i].barTs <= seen[j].barTs
    ensures Latch.StrictlyIncreasing(BarsOf(rows, side))
    ensures forall ts :: ts in BarsOf(rows, side)
                    <==> exists i :: 0 <= i < |seen| && seen[i].Snap? && seen[i].barTs == ts
  {
    var es := Looks(seen);
    assert Latch.Monotone(es);
    Latch.ExactlyOncePerKey(es);
    forall ts ensures ts in BarsOf(rows, side)
                 <==> exists i :: 0 <= i < |seen| && seen[i].Snap? && seen[i].barTs == ts
    {
      if Latch.ReadyIn(es, ts) {
        var i :| 0 <= i < |es| && es[i].ready && es[i].key == ts;
        assert seen[i].Snap? && seen[i].barTs == ts;
      }
      if i :| 0 <= i < |seen| && seen[i].Snap? && seen[i].barTs == ts {
        assert es[i].ready && es[i].key == ts;
      }
    }
  }

  // --- The entry gate ---------------------------------------------------------------------------

  datatype Mode = Off | LogOnly | Trade

  datatype Direction = LongWord | ShortWord | OtherWord

  datatype OptionSide = CallOption | PutOption | NoOption

  datatype Signal = Signal(strategy: string, direction: Direction, optionSide: OptionSide)

  /** What the tick put on its context; a context without it is not a tick. */
  datatype TickState = NotATick | NoState | OnTick(snap: Snapshot)

  datatype Call = Call(signal: Signal, tick: TickState, mode: Mode, paper: bool)

  datatype Decision = Blocked | WouldBlock | Allowed

  datatype GateRow = GateRow(
    strategy: string, side: Option<Side>, state: Option<State>, readable: bool,
    mode: Mode, effective: Mode, decision: Decision)

  function SideOf(signal: Signal): Option<Side> {
    match signal.direction
    case LongWord => Some(Long)
    case ShortWord => Some(Short)
    case OtherWord =>
      match signal.optionSide
      case CallOption => Some(Long)
      case PutOption => Some(Short)
      case NoOption => None
  }

  predicate Readable(c: Call) {
    c.tick.OnTick? && c.tick.snap.Snap? && SideOf(c.signal).Some?
  }

  function StateOf(c: Call): Option<State> {
    if Readable(c) && SideOf(c.signal).value in c.tick.snap.sides
    then Some(c.tick.snap.sides[SideOf(c.signal).value].state) else None
  }

  /** Whether the gate has an opinion: a directional entry on a tick with the gate not off. */
  predicate Directional(c: Call) {
    c.mode != Off && c.signal.strategy in DIRECTIONAL && !c.tick.NotATick?
  }

  function Effective(c: Call): Mode {
    if c.mode != Trade || c.paper then c.mode else LogOnly
  }

  predicate Refused(c: Call) {
    Directional(c) && StateOf(c) == Some(Abandoned) && Effective(c) == Trade
  }

  function RowOf(c: Call): GateRow {
    GateRow(c.signal.strategy, SideOf(c.signal), StateOf(c), Readable(c), c.mode, Effective(c),
            if Refused(c) then Blocked else if StateOf(c) == Some(Abandoned) then WouldBlock else Allowed)
  }

  class GateLog {
    var rows: seq<GateRow>

    constructor ()
      ensures rows == []
    {
      rows := [];
    }

    /** True when the entry must not be placed. */
    method Gate(c: Call) returns (block: bool)
      modifies this
      ensures block <==> Refused(c)
      ensures rows == old(rows) + if Directional(c) then [RowOf(c)] else []
    {
      if c.mode == Off || c.signal.strategy !in DIRECTIONAL {
        return false;
      }
      if c.tick.NotATick? {
        return false;
      }
      var side := SideOf(c.signal);
      var state: Option<State>, readable := None, false;
      if c.tick.OnTick? && c.tick.snap.Snap? && side.Some? {
        readable := true;
        if side.value in c.tick.snap.sides {
          state := Some(c.tick.snap.sides[side.value].state);
        }
      }
      var effective := if c.mode != Trade || c.paper then c.mode else LogOnly;
      block := state == Some(Abandoned) && effective == Trade;
      var decision := if block then Blocked else if state == Some(Abandoned) then WouldBlock else Allowed;
      rows := rows + [GateRow(c.signal.strategy, side, state, readable, c.mode, effective, decision)];
    }
  }

  /** The rows of a sequence of calls: one for each the gate records, in order. */
  function RowsOf(calls: seq<Call>, n: nat): seq<GateRow>
    requires n <= |calls|
  {
    if n == 0 then [] else RowsOf(calls, n - 1) + if Directional(calls[n - 1]) then [RowOf(calls[n - 1])] else []
  }

  method GateRun(calls: seq<Call>) returns (rows: seq<GateRow>, blocks: seq<bool>)
    ensures rows == RowsOf(calls, |calls|)
    ensures |blocks| == |calls| && forall n :: 0 <= n < |calls| ==> (blocks[n] <==> Refused(calls[n]))
  {
    var log := new GateLog();
    blocks := [];
    for n := 0 to |calls|
      invariant log.rows == RowsOf(calls, n)
      invariant |blocks| == n && forall k :: 0 <= k < n ==> (blocks[k] <==> Refused(calls[k]))
    {
      var block := log.Gate(calls[n]);
      blocks := blocks + [block];
    }
    rows := log.rows;
  }

  /** How many of the first n calls the gate records. */
  function Recorded(calls: seq<Call>, n: nat): (k: nat)
    requires n <= |calls|
    ensures k <= n
  {
    if n == 0 then 0 else Recorded(calls, n - 1) + if Directional(calls[n - 1]) then 1 else 0
  }

  /** The log holds one row per directional call and no other: the row of call n stands where the calls
      recorded before it leave off, and is a blocked row exactly when the entry was refused. */
  lemma {:induction false} OneRowPerDirectionalCall(calls: seq<Call>, n: nat, m: nat)
    requires n < m <= |calls|
    ensures |RowsOf(calls, m)| == Recorded(calls, m)
    ensures Directional(calls[n]) ==>
              && Recorded(calls, n) < Recorded(calls, m)
              && RowsOf(calls, m)[Recorded(calls, n)] == RowOf(calls[n])
              && (RowsOf(calls, m)[Recorded(calls, n)].decision == Blocked <==> Refused(calls[n]))
  {
    if m == n + 1 {
      RowsCounted(calls, n);
    } else {
      OneRowPerDirectionalCall(calls, n, m - 1);
    }
  }

  lemma {:induction false} RowsCounted(calls: seq<Call>, n: nat)
    requires n <= |calls|
    ensures |RowsOf(calls, n)| == Recorded(calls, n)
  {
    if n > 0 {
      RowsCounted(calls, n - 1);
    }
  }

  /** The side an entry takes: its direction's, or else its option's. */
  predicate Takes(signal: Signal, side: Side) {
    match side
    case Long => signal.direction.LongWord? || (signal.direction.OtherWord? && signal.optionSide.CallOption?)
    case Short => signal.direction.ShortWord? || (signal.direction.OtherWord? && signal.optionSide.PutOption?)
  }

  /** The tick reads the side the entry takes as being in the state. */
  predicate Reads(c: Call, state: State) {
    && c.tick.OnTick? && c.tick.snap.Snap?
    && exists side :: side in c.tick.snap.sides && Takes(c.signal, side) && c.tick.snap.sides[side].state == state
  }

  /** An entry is refused exactly when it is one of the five directional strategies', on a paper box that trades the
      gate, and the tick reads the side it takes as abandoned. */
  lemma {:induction false} RefusedIff(c: Call)
    ensures Refused(c)
       <==> && c.signal.strategy in {"Breakout", "RunawayContinuation", "LiquidityHunt", "VOLT", "ORBStrategy"}
            && c.mode == Trade && c.paper && Reads(c, Abandoned)
  {
  }

  /** What the gate's row says of a call. */
  lemma {:induction false} RowIs(c: Call, side: Side)
    ensures var row := RowOf(c);
      && row.strategy == c.signal.strategy && row.mode == c.mode
      && (row.side == Some(side) <==> Takes(c.signal, side))
      && (row.readable <==> c.tick.OnTick? && c.tick.snap.Snap? && (Takes(c.signal, Long) || Takes(c.signal, Short)))
      && (forall state :: row.state == Some(state) <==> Reads(c, state))
      && (row.effective == if c.mode == Trade && !c.paper then LogOnly else c.mode)
      && (row.decision == Blocked <==> Refused(c))
      && (row.decision == WouldBlock <==> Reads(c, Abandoned) && !Refused(c))
  {
  }

  /** Only a directional entry of a paper box that trades the gate is ever refused. */
  lemma {:induction false} LiveBoxRefusesNothing(c: Call)
    requires Refused(c)
    ensures Directional(c) && c.paper && c.mode == Trade
  {
  }

  /** Replay: on a paper box that trades the gate, an entry that was let through against the market had
      its side committed on the previous bar of the session, or lacked the minutes to be judged. */
  lemma {:induction false} AdmittedAgainstMarket(tape: seq<Bar>, five: seq<FiveBar>, c: Call, side: Side)
    requires |tape| >= 2
    requires Directional(c) && c.paper && c.mode == Trade && !Refused(c)
    requires c.tick.OnTick? && c.tick.snap.Snap? && SideOf(c.signal) == Some(side)
    requires side in c.tick.snap.sides && c.tick.snap.sides[side] == ReportOf(tape, five, side)
    requires var closes := ClosesBy(five, EndOf(tape[|tape| - 1]));
      |closes| >= SMA_LEN && WithMarket(closes, Opposite(side))
    ensures var n := |tape| - 1;
      || |Clvs(Window(tape, n), side)| < CLV_RECENT
      || (RawAt(tape, n - 1, five, side).Raw() == Committed && tape[n].session == tape[n - 1].session)
  {
    var n := |tape| - 1;
    if |Clvs(Window(tape, n), side)| >= CLV_RECENT {
      AgainstMarketIsAbandoned(ClosesBy(five, EndOf(tape[n])), Window(tape, n), side);
    }
  }
}
