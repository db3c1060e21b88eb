/**
 The book of open credit verticals and the gate that decides what may open beside what is already
 open: at most two, never two of a side, the second always a sweep with a live rejection, and the pair
 never born crossed.  The opening-range credit spread, which pairs with nothing, is not in this book.
 */
module CreditBook {
  import opened Common

  datatype Side = CallSide | PutSide

  /** The sweep state a tick carries: none, one that cannot be read, or a swept level. */
  datatype SweepState =
    | NoSweep
    | Unreadable
    | Swept(reclaimed: bool, invalidated: bool, barsAgo: Option<int>)

  /** A vertical on offer.  A short contract that the strategy could not select is None. */
  datatype Signal = Signal(
    side: Side, source: string, valid: bool, shortCall: Option<real>, shortPut: Option<real>)

  /** An open vertical as its row in the trades table tells it. */
  datatype Leg = Leg(id: nat, side: Side, source: string, shortStrike: real)

  /** Which of the gate's three reads of the trades table succeeded. */
  datatype TableReads = TableReads(sides: bool, legs: bool, geometry: bool)

  // --- The trigger pairing ----------------------------------------------------------------------

  datatype TriggerClass = Trend | Sweep | Fork | Unknown

  function ClassOf(source: string): TriggerClass {
    if source == "trend_orb" then Trend
    else if source == "sweep_reversal" then Sweep
    else if source == "1h_fork" || source == "1d_fork" then Fork
    else Unknown
  }

  const SWEEP_REJECTION_MAX_BARS := 5

  /** The age in bars since the reclaim; a missing age and an age of zero both read as unmeasurable. */
  function RejectionAge(barsAgo: Option<int>): int {
    if barsAgo.None? || barsAgo.value == 0 then -1 else barsAgo.value
  }

  predicate SweepHasRejection(sweep: SweepState) {
    if !sweep.Swept? then false
    else if !sweep.reclaimed then false
    else if sweep.invalidated then false
    else
      var bars := RejectionAge(sweep.barsAgo);
      !(bars < 0) && !(bars > SWEEP_REJECTION_MAX_BARS)
  }

  function Completes(first: TriggerClass): set<TriggerClass> {
    match first
    case Trend => {Sweep}
    case Sweep => {Sweep}
    case Fork => {Sweep}
    case Unknown => {}
  }

  predicate PairingAllowed(leg1Source: string, leg2Source: string, sweep: SweepState) {
    var c1, c2 := ClassOf(leg1Source), ClassOf(leg2Source);
    if c1.Unknown? || c2.Unknown? then false
    else if c2.Trend? then false
    else if c2 !in Completes(c1) then false
    else if c2.Sweep? then SweepHasRejection(sweep)
    else true
  }

  // --- The gate ---------------------------------------------------------------------------------

  function OpenSides(legs: seq<Leg>): set<Side> {
    set l | l in legs :: l.side
  }

  function ShortContract(s: Signal): Option<real> {
    if s.side.CallSide? then s.shortCall else s.shortPut
  }

  function ShortStrike(s: Signal): real {
    if ShortContract(s).Some? then ShortContract(s).value else 0.0
  }

  /** The geometry of the would-be pair; a pair whose strikes cannot be verified passes. */
  predicate GeometryAllows(s: Signal, existing: Leg, price: real) {
    var ex, nw := existing.shortStrike, ShortStrike(s);
    if ex <= 0.0 || nw <= 0.0 then true
    else
      var shortCall := if s.side.CallSide? then nw else ex;
      var shortPut := if s.side.PutSide? then nw else ex;
      !(shortPut >= price) && !(shortCall <= price) && !(shortPut >= shortCall)
  }

  predicate CanOpen(legs: seq<Leg>, s: Signal, price: real, sweep: SweepState, db: TableReads) {
    var sides := if db.sides then OpenSides(legs) else {};
    if |sides| >= 2 then false
    else if sides != {} && !PairingAllowed(if db.legs && legs != [] then legs[0].source else "",
                                           s.source, sweep) then false
    else if s.side in sides then false
    else if sides == {} || price <= 0.0 then true
    else if !db.geometry || legs == [] then true
    else GeometryAllows(s, legs[0], price)
  }

  // --- The paths that ask it --------------------------------------------------------------------

  /** The sweep's dispatch, the trend spread's dispatch and the second-leg window. */
  datatype Path = SweepDispatch | TrendDispatch | SecondLegWindow

  /** One attempt to open a vertical; `fills` is what becomes of it after the gate. */
  datatype Attempt = Attempt(
    path: Path, signal: Signal, price: real, sweep: SweepState, db: TableReads, fills: bool, id: nat)

  /** The signal as the path stamps it. */
  function Stamped(a: Attempt): Signal {
    match a.path
    case SweepDispatch => if a.signal.source == "" then a.signal.(source := "sweep_reversal") else a.signal
    case TrendDispatch => a.signal.(source := "trend_orb")
    case SecondLegWindow => a.signal
  }

  /** The trend spread's dispatch hands the gate no context. */
  function SweepSeen(a: Attempt): SweepState {
    if a.path.TrendDispatch? then NoSweep else a.sweep
  }

  predicate Opens(legs: seq<Leg>, a: Attempt) {
    && (a.path.SweepDispatch? ==> a.signal.valid)
    && CanOpen(legs, Stamped(a), a.price, SweepSeen(a), a.db)
    && a.fills && ShortContract(a.signal).Some?
  }

  function LegOf(a: Attempt): Leg {
    Leg(a.id, a.signal.side, Stamped(a).source, ShortStrike(a.signal))
  }

  /** A live handoff grant lets the sweep in unasked, but not while another vertical of the sweep is open:
      everything that is not a trend spread is the sweep's own. */
  predicate OnlyTrendOpen(legs: seq<Leg>) {
    forall l :: l in legs ==> ClassOf(l.source).Trend?
  }

  function HandoffStep(legs: seq<Leg>, s: Signal, fills: bool, id: nat): seq<Leg> {
    if OnlyTrendOpen(legs) && fills && ShortContract(s).Some? then legs + [Leg(id, s.side, s.source, ShortStrike(s))]
    else legs
  }

  /** An attempt on a gated path, a sweep on a live handoff grant, or a leg closing. */
  datatype Event = Try(attempt: Attempt) | Grant(signal: Signal, fills: bool, id: nat) | Close(id: nat)

  function Without(legs: seq<Leg>, id: nat): seq<Leg> {
    if legs == [] then []
    else (if legs[0].id == id then [] else [legs[0]]) + Without(legs[1..], id)
  }

  function Step(legs: seq<Leg>, e: Event): seq<Leg> {
    match e
    case Try(a) => if Opens(legs, a) then legs + [LegOf(a)] else legs
    case Grant(s, fills, id) => HandoffStep(legs, s, fills, id)
    case Close(id) => Without(legs, id)
  }

  class TradeBook {
    var legs: seq<Leg>

    constructor ()
      ensures legs == []
    {
      legs := [];
    }

    /** The gate, as it reads the table. */
    method CanOpenCreditSpread(s: Signal, price: real, sweep: SweepState, db: TableReads) returns (ok: bool)
      ensures ok <==> CanOpen(legs, s, price, sweep, db)
      ensures legs == [] || !db.sides ==> ok
      ensures db.sides && |legs| == 1 ==> (ok <==> SecondLegTerms(legs[0], s, price, sweep, db))
      ensures db.sides && |legs| == 2 && legs[0].side != legs[1].side ==> !ok
    {
      if db.sides && |legs| == 1 {
        assert legs == [legs[0]];
        SecondLegAdmittedIff(legs[0], s, price, sweep, db);
      }
      if db.sides && |legs| == 2 && legs[0].side != legs[1].side {
        ThirdLegRefused(legs, s, price, sweep, db);
      }
      var sides := if db.sides then OpenSides(legs) else {};
      if |sides| >= 2 {
        return false;
      }
      if sides != {} {
        var source1 := if db.legs && legs != [] then legs[0].source else "";
        if !PairingAllowed(source1, s.source, sweep) {
          return false;
        }
      }
      if s.side in sides {
        return false;
      }
      if sides == {} || price <= 0.0 {
        return true;
      }
      if !db.geometry || legs == [] {
        return true;
      }
      return GeometryAllows(s, legs[0], price);
    }

    /** The sweep on a live grant; it never asks the gate. */
    method AttemptSweepOnGrant(s: Signal, fills: bool, id: nat)
      modifies this
      ensures legs == HandoffStep(old(legs), s, fills, id)
    {
      if exists l :: l in legs && !ClassOf(l.source).Trend? {
        return;
      }
      if fills && ShortContract(s).Some? {
        legs := legs + [Leg(id, s.side, s.source, ShortStrike(s))];
      }
    }

    method Handle(e: Event)
      modifies this
      ensures legs == Step(old(legs), e)
    {
      match e {
        case Close(id) =>
          legs := Without(legs, id);
        case Grant(s, fills, id) =>
          AttemptSweepOnGrant(s, fills, id);
        case Try(a) =>
          if a.path.SweepDispatch? && !a.signal.valid {
            return;
          }
          var ok := CanOpenCreditSpread(Stamped(a), a.price, SweepSeen(a), a.db);
          if ok && a.fills && ShortContract(a.signal).Some? {
            legs := legs + [LegOf(a)];
          }
      }
    }
  }

  // --- What the gate admits ---------------------------------------------------------------------

  predicate Uncrossed(s: Signal, existing: Leg, price: real) {
    if s.side.CallSide? then existing.shortStrike < price < ShortStrike(s)
    else ShortStrike(s) < price < existing.shortStrike
  }

  predicate Verifiable(s: Signal, existing: Leg, price: real, db: TableReads) {
    var contract := if s.side.CallSide? then s.shortCall else s.shortPut;
    db.geometry && price > 0.0 && existing.shortStrike > 0.0 && contract.Some? && contract.value > 0.0
  }

  /** With nothing open, or with the sides unreadable, the gate admits anything. */
  lemma {:induction false} FirstLegAlwaysAdmitted(legs: seq<Leg>, s: Signal, price: real, sweep: SweepState,
                                                db: TableReads)
    requires legs == [] || !db.sides
    ensures CanOpen(legs, s, price, sweep, db)
  {
  }

  /** What a second leg takes: a sweep on the other side of a leg of a known trigger, reclaimed, not
      invalidated, one to five bars old, and geometrically sound wherever that can be verified. */
  predicate SecondLegTerms(e: Leg, s: Signal, price: real, sweep: SweepState, db: TableReads) {
    && s.side != e.side
    && s.source == "sweep_reversal"
    && db.legs && e.source in {"trend_orb", "sweep_reversal", "1h_fork", "1d_fork"}
    && sweep.Swept? && sweep.reclaimed && !sweep.invalidated
    && sweep.barsAgo.Some? && 1 <= sweep.barsAgo.value <= 5
    && (Verifiable(s, e, price, db) ==> Uncrossed(s, e, price))
  }

  /** A second leg is admitted exactly on those terms. */
  lemma {:induction false} SecondLegAdmittedIff(e: Leg, s: Signal, price: real, sweep: SweepState, db: TableReads)
    requires db.sides
    ensures CanOpen([e], s, price, sweep, db) <==> SecondLegTerms(e, s, price, sweep, db)
  {
    OneSidedAdmittedIff([e], s, price, sweep, db);
  }

  /** Legs of one side, more than one of them only when an unreadable table let them in. */
  predicate OneSided(legs: seq<Leg>) {
    legs != [] && forall l :: l in legs ==> l.side == legs[0].side
  }

  /** Beside legs of one side the first of them is the one the terms are measured on. */
  lemma {:induction false} OneSidedAdmittedIff(legs: seq<Leg>, s: Signal, price: real, sweep: SweepState,
                                               db: TableReads)
    requires db.sides && OneSided(legs)
    ensures CanOpen(legs, s, price, sweep, db) <==> SecondLegTerms(legs[0], s, price, sweep, db)
  {
    assert OpenSides(legs) == {legs[0].side} by {
      assert legs[0] in legs;
    }
    assert ClassOf("") == Unknown;
  }

  /** Beside legs of both sides nothing is admitted. */
  lemma {:induction false} TwoSidedRefused(legs: seq<Leg>, s: Signal, price: real, sweep: SweepState, db: TableReads)
    requires db.sides && legs != [] && !OneSided(legs)
    ensures !CanOpen(legs, s, price, sweep, db)
  {
    var l :| l in legs && l.side != legs[0].side;
    assert legs[0] in legs;
    assert {legs[0].side, l.side} <= OpenSides(legs);
    SubsetSize({legs[0].side, l.side}, OpenSides(legs));
  }

  /** Nothing joins two legs of different sides. */
  lemma {:induction false} ThirdLegRefused(legs: seq<Leg>, s: Signal, price: real, sweep: SweepState, db: TableReads)
    requires db.sides && |legs| == 2 && legs[0].side != legs[1].side
    ensures !CanOpen(legs, s, price, sweep, db)
  {
    TwoSidedRefused(legs, s, price, sweep, db);
  }

  lemma {:induction false} SubsetSize(a: set<Side>, b: set<Side>)
    requires a <= b
    ensures |a| <= |b|
  {
    assert b == a + (b - a);
  }

  // --- What an attempt does to the book ---------------------------------------------------------

  /** The attempt gets past its own path: a short contract on its side, a fill, and on the sweep's dispatch a
      signal that calls itself valid. */
  predicate Executable(a: Attempt) {
    && a.fills
    && (if a.signal.side.CallSide? then a.signal.shortCall.Some? else a.signal.shortPut.Some?)
    && (a.path.SweepDispatch? ==> a.signal.valid)
  }

  function StrikeOf(a: Attempt): real
    requires Executable(a)
  {
    if a.signal.side.CallSide? then a.signal.shortCall.value else a.signal.shortPut.value
  }

  /** What a leg is booked as: the trend spread's path says so itself, the sweep's only where the signal does
      not. */
  function SourceOf(a: Attempt): string {
    if a.path.TrendDispatch? then "trend_orb"
    else if a.path.SweepDispatch? && a.signal.source == "" then "sweep_reversal"
    else a.signal.source
  }

  /** Into an empty book, or one that cannot be read, every executable attempt puts its leg. */
  lemma {:induction false} FirstLegOpensIff(legs: seq<Leg>, a: Attempt)
    requires legs == [] || !a.db.sides
    ensures Step(legs, Try(a)) == if !Executable(a) then legs
                                  else legs + [Leg(a.id, a.signal.side, SourceOf(a), StrikeOf(a))]
  {
    FirstLegAlwaysAdmitted(legs, Stamped(a), a.price, SweepSeen(a), a.db);
  }

  /** What joins legs of one side, in the attempt's own fields: never on the trend spread's path; a sweep's
      vertical of the other side, over a leg whose trigger is known, while the tick's sweep is reclaimed, not
      invalidated and one to five bars old; with price between the two short strikes wherever that can be
      verified. */
  predicate Joins(first: Leg, a: Attempt)
    requires Executable(a)
  {
    && !a.path.TrendDispatch?
    && a.signal.side != first.side
    && (a.signal.source == "sweep_reversal" || (a.path.SweepDispatch? && a.signal.source == ""))
    && a.db.legs && first.source in {"trend_orb", "sweep_reversal", "1h_fork", "1d_fork"}
    && a.sweep.Swept? && a.sweep.reclaimed && !a.sweep.invalidated
    && a.sweep.barsAgo.Some? && 1 <= a.sweep.barsAgo.value <= 5
    && (a.db.geometry && a.price > 0.0 && first.shortStrike > 0.0 && StrikeOf(a) > 0.0 ==>
          if a.signal.side.CallSide? then first.shortStrike < a.price < StrikeOf(a)
          else StrikeOf(a) < a.price < first.shortStrike)
  }

  /** Onto legs of one side that can be read, an executable attempt adds its leg exactly on those terms. */
  lemma {:induction false} SecondLegOpensIff(legs: seq<Leg>, a: Attempt)
    requires OneSided(legs) && a.db.sides
    ensures Step(legs, Try(a)) == if !Executable(a) || !Joins(legs[0], a) then legs
                                  else legs + [Leg(a.id, a.signal.side, SourceOf(a), StrikeOf(a))]
  {
    OneSidedAdmittedIff(legs, Stamped(a), a.price, SweepSeen(a), a.db);
  }

  /** Beside legs of both sides that can be read nothing opens. */
  lemma {:induction false} ThirdLegNeverOpens(legs: seq<Leg>, a: Attempt)
    requires legs != [] && !OneSided(legs) && a.db.sides
    ensures Step(legs, Try(a)) == legs
  {
    TwoSidedRefused(legs, Stamped(a), a.price, SweepSeen(a), a.db);
  }

  /** A grant adds its leg exactly when every open leg is a trend spread's, whatever the gate would say. */
  lemma {:induction false} GrantOpensIff(legs: seq<Leg>, s: Signal, fills: bool, id: nat)
    ensures var contract := if s.side.CallSide? then s.shortCall else s.shortPut;
      Step(legs, Grant(s, fills, id))
      == if fills && contract.Some? && forall l :: l in legs ==> l.source == "trend_orb"
         then legs + [Leg(id, s.side, s.source, contract.value)] else legs
  {
  }

  /** A close takes out the legs with its identity and leaves the others in their order. */
  lemma {:induction false} CloseRemovesOnly(a: seq<Leg>, l: Leg, b: seq<Leg>, id: nat)
    ensures Step([], Close(id)) == []
    ensures Step(a + [l] + b, Close(id))
            == Step(a, Close(id)) + (if l.id == id then [] else [l]) + Step(b, Close(id))
  {
    WithoutSplits(a + [l], b, id);
    WithoutSplits(a, [l], id);
    WithoutCons(l, [], id);
    assert [l] + [] == [l];
  }

  lemma {:induction false} WithoutCons(l: Leg, rest: seq<Leg>, id: nat)
    ensures Without([l] + rest, id) == (if l.id == id then [] else [l]) + Without(rest, id)
  {
    assert ([l] + rest)[1..] == rest;
  }

  lemma {:induction false} WithoutSplits(a: seq<Leg>, b: seq<Leg>, id: nat)
    ensures Without(a + b, id) == Without(a, id) + Without(b, id)
  {
    if a == [] {
      assert a + b == b;
    } else {
      var l, rest := a[0], a[1..];
      assert a == [l] + rest && a + b == [l] + (rest + b);
      WithoutSplits(rest, b, id);
      WithoutCons(l, rest, id);
      WithoutCons(l, rest + b, id);
    }
  }

  // --- Every history ----------------------------------------------------------------------------

  /** The open legs after a history that began with an empty table. */
  function Book(history: seq<Event>): seq<Leg> {
    if history == [] then [] else Step(Book(history[..|history| - 1]), history[|history| - 1])
  }

  /** No grant, and every attempt could read which sides were open. */
  ghost predicate GatedAndReadable(history: seq<Event>) {
    forall i :: 0 <= i < |history| ==> !history[i].Grant? && (history[i].Try? ==> history[i].attempt.db.sides)
  }

  /** What is said of a pair: it was formed by some attempt of the history, on top of its first leg. */
  ghost predicate FormedBy(history: seq<Event>, n: nat, first: Leg, second: Leg)
    requires n < |history|
  {
    && history[n].Try?
    && Book(history[..n]) == [first]
    && Opens([first], history[n].attempt)
    && second == LegOf(history[n].attempt)
  }

  lemma {:induction false} WithoutShape(legs: seq<Leg>, id: nat)
    requires |legs| <= 2
    ensures |Without(legs, id)| <= |legs|
    ensures |Without(legs, id)| == 2 ==> Without(legs, id) == legs
  {
    if legs != [] {
      var tail := legs[1..];
      assert |tail| <= 1;
      assert tail == [] || Without(tail, id) == (if tail[0].id == id then [] else [tail[0]]) + Without([], id);
      if |Without(legs, id)| == 2 {
        assert legs == [legs[0]] + [legs[1]];
      }
    }
  }

  /** Over every history of gated opens and arbitrary closes: at most two legs, and two only as a pair
      formed by an attempt of the history on top of the first. */
  lemma {:induction false} EveryPairWasFormed(history: seq<Event>)
    requires GatedAndReadable(history)
    ensures |Book(history)| <= 2
    ensures |Book(history)| == 2 ==> WasFormed(history)
  {
    if history != [] {
      var last := |history| - 1;
      var init, e := history[..last], history[last];
      EveryPairWasFormed(init);
      var before := Book(init);
      if e.Close? {
        WithoutShape(before, e.id);
      } else if e.Try? && Opens(before, e.attempt) {
        if |before| == 2 {
          PairSides(init);
          ThirdLegRefused(before, Stamped(e.attempt), e.attempt.price, SweepSeen(e.attempt), e.attempt.db);
        } else if |before| == 1 {
          assert before == [before[0]];
          assert FormedBy(history, last, before[0], LegOf(e.attempt));
          assert Book(history)[0] == before[0] && Book(history)[1] == LegOf(e.attempt);
          assert FormedBy(history, last, Book(history)[0], Book(history)[1]);
        }
      }
      if |before| == 2 && Book(history) == before {
        StillFormed(init, history);
      }
    }
  }

  ghost predicate WasFormed(history: seq<Event>)
    requires |Book(history)| == 2
  {
    exists n :: 0 <= n < |history| && FormedBy(history, n, Book(history)[0], Book(history)[1])
  }

  lemma {:induction false} StillFormed(init: seq<Event>, history: seq<Event>)
    requires init <= history && |Book(init)| == 2 && WasFormed(init) && Book(history) == Book(init)
    ensures WasFormed(history)
  {
    var n :| 0 <= n < |init| && FormedBy(init, n, Book(init)[0], Book(init)[1]);
    assert init[..n] == history[..n];
    assert FormedBy(history, n, Book(init)[0], Book(init)[1]);
  }

  lemma {:induction false} PairSides(history: seq<Event>)
    requires GatedAndReadable(history) && |Book(history)| == 2 && WasFormed(history)
    ensures Book(history)[0].side != Book(history)[1].side
  {
    var first, second := Book(history)[0], Book(history)[1];
    var n :| 0 <= n < |history| && FormedBy(history, n, first, second);
    var a := history[n].attempt;
    SecondLegAdmittedIff(first, Stamped(a), a.price, SweepSeen(a), a.db);
  }

  /** The structure law, over every history: never a third leg and never two of a side; the second leg is
      a sweep, never a trend spread, taken on a rejection one to five bars old; and where the geometry
      could be verified at its formation, price stood between the short strikes, so they are uncrossed
      for as long as both legs stay open. */
  lemma {:induction false} StructureLaw(history: seq<Event>)
    requires GatedAndReadable(history)
    ensures |Book(history)| <= 2
    ensures |Book(history)| == 2 ==>
      var first, second := Book(history)[0], Book(history)[1];
      && first.side != second.side
      && second.source == "sweep_reversal"
      && exists n :: 0 <= n < |history| && FormedBy(history, n, first, second)
           && var a := history[n].attempt;
              && SweepHasRejection(a.sweep) && a.sweep.barsAgo.Some? && 1 <= a.sweep.barsAgo.value <= 5
              && !a.path.TrendDispatch?
              && (Verifiable(a.signal, first, a.price, a.db) ==>
                    if second.side.CallSide? then first.shortStrike < a.price < second.shortStrike
                    else second.shortStrike < a.price < first.shortStrike)
  {
    EveryPairWasFormed(history);
    if |Book(history)| == 2 {
      var first, second := Book(history)[0], Book(history)[1];
      PairSides(history);
      var n :| 0 <= n < |history| && FormedBy(history, n, first, second);
      var a := history[n].attempt;
      SecondLegAdmittedIff(first, Stamped(a), a.price, SweepSeen(a), a.db);
      assert ShortStrike(Stamped(a)) == ShortStrike(a.signal);
    }
  }

  // --- Where the law stops ----------------------------------------------------------------------

  /** At most two legs, and never two of a side. */
  predicate Shape(legs: seq<Leg>) {
    |legs| <= 2 && (|legs| == 2 ==> legs[0].side != legs[1].side)
  }

  /** An event that adds a leg without seeing which sides are open. */
  predicate Blind(legs: seq<Leg>, e: Event) {
    match e
    case Try(a) =>
      !a.db.sides && (a.path.SweepDispatch? ==> a.signal.valid) && a.fills && ShortContract(a.signal).Some?
    case Grant(s, fills, _) => OnlyTrendOpen(legs) && fills && ShortContract(s).Some?
    case Close(_) => false
  }

  predicate FindsRoom(legs: seq<Leg>, e: Event) {
    match e
    case Try(a) => |legs| < 2 && a.signal.side !in OpenSides(legs)
    case Grant(s, _, _) => |legs| < 2 && s.side !in OpenSides(legs)
    case Close(_) => true
  }

  /** One event keeps the shape exactly when it is not a blind one that finds no room. */
  lemma {:induction false} StepKeepsShapeIff(legs: seq<Leg>, e: Event)
    requires Shape(legs)
    ensures Shape(Step(legs, e)) <==> (Blind(legs, e) ==> FindsRoom(legs, e))
  {
    if |legs| == 1 {
      assert OpenSides(legs) == {legs[0].side};
      assert legs == [legs[0]];
    }
    match e {
      case Close(id) =>
        WithoutShape(legs, id);
      case Grant(_, _, _) =>
      case Try(a) =>
        if !a.db.sides {
          FirstLegAlwaysAdmitted(legs, Stamped(a), a.price, SweepSeen(a), a.db);
        } else if |legs| == 1 {
          SecondLegAdmittedIff(legs[0], Stamped(a), a.price, SweepSeen(a), a.db);
        } else if |legs| == 2 {
          ThirdLegRefused(legs, Stamped(a), a.price, SweepSeen(a), a.db);
        }
    }
  }

  lemma {:induction false} BookStep(history: seq<Event>, n: nat)
    requires n < |history|
    ensures Book(history[..n + 1]) == Step(Book(history[..n]), history[n])
  {
    assert history[..n + 1][..n] == history[..n];
  }

  /** Over every history, grants and unreadable tables included, the book keeps its shape throughout
      exactly when every blind addition finds room. */
  lemma {:induction false} ShapeKeptIff(history: seq<Event>)
    ensures (forall n :: 0 <= n <= |history| ==> Shape(Book(history[..n])))
       <==> (forall n :: 0 <= n < |history| && Blind(Book(history[..n]), history[n]) ==>
               FindsRoom(Book(history[..n]), history[n]))
  {
    if forall n :: 0 <= n <= |history| ==> Shape(Book(history[..n])) {
      forall n | 0 <= n < |history| && Blind(Book(history[..n]), history[n])
        ensures FindsRoom(Book(history[..n]), history[n])
      {
        BookStep(history, n);
        assert Shape(Book(history[..n + 1]));
        StepKeepsShapeIff(Book(history[..n]), history[n]);
      }
    }
    if forall n :: 0 <= n < |history| && Blind(Book(history[..n]), history[n]) ==>
                     FindsRoom(Book(history[..n]), history[n]) {
      forall n | 0 <= n <= |history| ensures Shape(Book(history[..n])) {
        ShapeWhileRoom(history, n);
      }
    }
  }

  lemma {:induction false} ShapeWhileRoom(history: seq<Event>, n: nat)
    requires n <= |history|
    requires forall k :: 0 <= k < |history| && Blind(Book(history[..k]), history[k]) ==>
               FindsRoom(Book(history[..k]), history[k])
    ensures Shape(Book(history[..n]))
  {
    if n == 0 {
      assert history[..0] == [];
    } else {
      ShapeWhileRoom(history, n - 1);
      BookStep(history, n - 1);
      StepKeepsShapeIff(Book(history[..n - 1]), history[n - 1]);
    }
  }

  /** Three puts, when the sides could never be read. */
  lemma {:induction false} ThreePutsWhenUnreadable()
    ensures exists history :: |history| == 3 && OpenSides(Book(history)) == {PutSide} && |Book(history)| == 3
  {
    var s := Signal(PutSide, "sweep_reversal", true, None, Some(95.0));
    var e := Try(Attempt(SweepDispatch, s, 100.0, NoSweep, TableReads(false, false, false), true, 0));
    var leg := LegOf(e.attempt);
    assert [e][..0] == [] && [e, e][..1] == [e] && [e, e, e][..2] == [e, e];
    assert Book([e]) == [leg];
    assert Book([e, e]) == [leg, leg];
    var history := [e, e, e];
    assert Book(history) == [leg, leg, leg];
    assert leg in Book(history) && OpenSides(Book(history)) == {PutSide};
  }

  /** A second leg whose strikes cannot be compared is admitted whatever its strike: here a put sold above
      the price. */
  lemma {:induction false} UnverifiableGeometryPasses(strike: real, price: real)
    requires strike > price > 0.0
    ensures var first := Leg(0, CallSide, "1h_fork", 0.0);
            var s := Signal(PutSide, "sweep_reversal", true, None, Some(strike));
      CanOpen([first], s, price, Swept(true, false, Some(1)), TableReads(true, true, true))
      && !Uncrossed(s, first, price)
  {
    SecondLegAdmittedIff(Leg(0, CallSide, "1h_fork", 0.0),
                         Signal(PutSide, "sweep_reversal", true, None, Some(strike)),
                         price, Swept(true, false, Some(1)), TableReads(true, true, true));
  }

  /** A grant breaks the shape exactly when no vertical of the sweep is open and the book is full or holds
      the grant's side. */
  lemma {:induction false} HandoffBreaksShapeIff(legs: seq<Leg>, s: Signal, id: nat)
    requires Shape(legs) && ShortContract(s).Some?
    ensures !Shape(HandoffStep(legs, s, true, id))
       <==> OnlyTrendOpen(legs) && (|legs| == 2 || s.side in OpenSides(legs))
  {
    StepKeepsShapeIff(legs, Grant(s, true, id));
  }

  /** Beside one trend put: a granted put makes two of a side, and a granted call makes a pair on no
      rejection at all; the gate refuses both. */
  lemma {:induction false} HandoffBesideATrendPut(price: real)
    ensures var first := Leg(0, PutSide, "trend_orb", 95.0);
            var put := Signal(PutSide, "sweep_reversal", true, None, Some(94.0));
            var call := Signal(CallSide, "sweep_reversal", true, Some(105.0), None);
      && Shape([first])
      && !Shape(HandoffStep([first], put, true, 1))
      && HandoffStep([first], call, true, 1) == [first, Leg(1, CallSide, "sweep_reversal", 105.0)]
      && (forall sweep :: !CanOpen([first], put, price, sweep, TableReads(true, true, true)))
      && !CanOpen([first], call, price, NoSweep, TableReads(true, true, true))
  {
    var first := Leg(0, PutSide, "trend_orb", 95.0);
    var put := Signal(PutSide, "sweep_reversal", true, None, Some(94.0));
    assert first in [first];
    HandoffBreaksShapeIff([first], put, 1);
    forall sweep ensures !CanOpen([first], put, price, sweep, TableReads(true, true, true)) {
      SecondLegAdmittedIff(first, put, price, sweep, TableReads(true, true, true));
    }
    SecondLegAdmittedIff(first, Signal(CallSide, "sweep_reversal", true, Some(105.0), None), price, NoSweep,
                         TableReads(true, true, true));
  }
}
