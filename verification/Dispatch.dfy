/**
 One tick's hunt for entries: the admission set it publishes, the fixed cascade of strategies it asks,
 the isolation of a strategy that raises, the loss-cap branch and the once-per-session caps.
 Strategies, order placement and the feed answer through the tick's world; the model is of the cascade.
 */
module Dispatch {
  import opened Common

  /** The names the admission table and the trades table know a strategy by. */
  datatype Plan =
    | OrbPlan | SweepPlan | HuntPlan | BreakoutPlan | VoltPlan | RunawayPlan | ParkPlan | GexPlan | AtpPlan
    | TrendPlan | OrcsPlan | LegTwoLabel

  /** The places a strategy is asked from; the sweep has two. */
  datatype Site =
    | Orb | GrantSweep | Hunt | Breakout | Volt | Runaway | Sweep | Park | GexFly | AtpFly | Trend | Orcs

  function PlanOf(site: Site): Plan {
    match site
    case Orb => OrbPlan
    case GrantSweep => SweepPlan
    case Hunt => HuntPlan
    case Breakout => BreakoutPlan
    case Volt => VoltPlan
    case Runaway => RunawayPlan
    case Sweep => SweepPlan
    case Park => ParkPlan
    case GexFly => GexPlan
    case AtpFly => AtpPlan
    case Trend => TrendPlan
    case Orcs => OrcsPlan
  }

  /** The place in the cascade. */
  function Rank(site: Site): nat {
    match site
    case Orb => 0
    case GrantSweep => 1
    case Hunt => 2
    case Breakout => 3
    case Volt => 4
    case Runaway => 5
    case Sweep => 6
    case Park => 7
    case GexFly => 8
    case AtpFly => 9
    case Trend => 10
    case Orcs => 11
  }

  /** The sites whose whole attempt, execution included, sits inside its own exception handler. */
  predicate Guarded(site: Site) {
    site.GrantSweep? || site.Hunt? || site.GexFly? || site.AtpFly? || site.Orcs?
  }

  /** The plans that enter at most once a session. */
  predicate OncePerSession(plan: Plan) {
    plan.RunawayPlan? || plan.ParkPlan? || plan.GexPlan? || plan.AtpPlan?
  }

  /** What the rest of the tick can see of a visit. */
  datatype Act = Asked(site: Site, admitted: Option<set<Plan>>) | Executed(site: Site, filled: bool)

  datatype Answer = Declines | Raises | Signal(valid: bool)

  datatype Outcome = Outcome(fills: bool, raises: bool)

  /** The plans that may be asked this tick, and those past their window that are asked only to be recorded. */
  datatype Admission = Admission(eligible: set<Plan>, observed: set<Plan>)

  /**
   Everything a tick meets.  What a strategy, a gate or an execution does may depend on all that has been
   asked and executed before it this tick.
   */
  datatype World = World(
    day: int,
    sessionOpen: bool,
    capHit: bool,
    admission: Option<Admission>,
    logged: set<Plan>,
    rules: Option<set<Plan>>,
    unasked: set<Plan>,
    debitBlocked: set<Plan>,
    tickChain: bool,
    fetchedChain: bool,
    ready: (Site, seq<Act>) -> bool,
    countable: (Plan, seq<Act>) -> bool,
    evaluate: (Site, seq<Act>) -> Answer,
    pairs: (Site, seq<Act>) -> bool,
    execute: (Site, seq<Act>) -> Outcome)

  datatype Row = Row(plan: Plan, day: int)

  /** The two module globals, the trades table, what this tick has done, and whether it was abandoned. */
  datatype State = State(
    admitted: Option<set<Plan>>, observed: set<Plan>, rows: seq<Row>, acts: seq<Act>, aborted: bool)

  /** The plans that go on being asked after their window. */
  const PAST_WINDOW := {BreakoutPlan, RunawayPlan, HuntPlan}

  /** What a plan signals is only recorded: it is asked past its window, or it is switched to LOG, which no
      admission is needed for. */
  predicate LogOnly(observed: set<Plan>, plan: Plan, w: World) {
    plan in observed || plan in w.logged
  }

  // --- Asking -----------------------------------------------------------------------------------

  /** An unset tick and a plan the table has no opinion on pass; an unreadable table refuses. */
  predicate Allows(admitted: Option<set<Plan>>, plan: Plan, rules: Option<set<Plan>>) {
    if admitted.None? then true
    else if rules.None? then false
    else if plan !in rules.value then true
    else plan in admitted.value
  }

  predicate TradedSince(rows: seq<Row>, plan: Plan, day: int) {
    exists i :: 0 <= i < |rows| && rows[i].plan == plan && rows[i].day >= day
  }

  /** The table's count of the plan's trades entered on the day or later, open or closed. */
  function CountSince(rows: seq<Row>, plan: Plan, day: int): nat {
    if rows == [] then 0
    else
      var init, row := rows[..|rows| - 1], rows[|rows| - 1];
      CountSince(init, plan, day) + if row.plan == plan && row.day >= day then 1 else 0
  }

  lemma {:induction false} CountedIff(rows: seq<Row>, plan: Plan, day: int)
    ensures CountSince(rows, plan, day) >= 1 <==> TradedSince(rows, plan, day)
  {
    if rows != [] {
      var init, row := rows[..|rows| - 1], rows[|rows| - 1];
      CountedIff(init, plan, day);
      if TradedSince(init, plan, day) {
        var i :| 0 <= i < |init| && init[i].plan == plan && init[i].day >= day;
        assert rows[i] == init[i];
      }
      if TradedSince(rows, plan, day) {
        var i :| 0 <= i < |rows| && rows[i].plan == plan && rows[i].day >= day;
        assert i < |init| ==> init[i] == rows[i];
      }
    }
  }

  /** The durable session cap; a table that cannot be counted reads as used. */
  predicate Used(s: State, plan: Plan, w: World) {
    !w.countable(plan, s.acts) || TradedSince(s.rows, plan, w.day)
  }

  /** What must hold before the site's strategy is even put to the admission funnel. */
  predicate Reached(s: State, site: Site, w: World) {
    match site
    case Hunt => w.ready(site, s.acts)
    case GrantSweep => w.ready(site, s.acts)
    case Orcs => w.ready(site, s.acts)
    case Park => w.ready(site, s.acts) && !Used(s, ParkPlan, w)
    case Runaway => !Used(s, RunawayPlan, w)
    case _ => true
  }

  predicate MayAsk(s: State, site: Site, w: World) {
    Allows(s.admitted, PlanOf(site), w.rules) && PlanOf(site) !in w.unasked
  }

  function Ask(s: State, site: Site): State {
    s.(acts := s.acts + [Asked(site, s.admitted)])
  }

  /** The doors between a signal and its execution. */
  predicate Passes(s: State, site: Site, valid: bool, w: World) {
    && !LogOnly(s.observed, PlanOf(site), w)
    && match site
       case Orb => OrbPlan !in w.debitBlocked
       case Breakout => BreakoutPlan !in w.debitBlocked
       case Volt => VoltPlan !in w.debitBlocked
       case Runaway => RunawayPlan !in w.debitBlocked
       case Sweep => valid && w.pairs(site, s.acts)
       case Trend => w.pairs(site, s.acts)
       case _ => true
  }

  function Execute(s: State, site: Site, w: World): State {
    var o := w.execute(site, s.acts);
    s.(acts := s.acts + [Executed(site, o.fills)],
       rows := s.rows + (if o.fills then [Row(PlanOf(site), w.day)] else []),
       aborted := o.raises && !Guarded(site))
  }

  /** One site's whole attempt; an abandoned tick attempts nothing more. */
  function Visit(s: State, site: Site, w: World): State {
    if s.aborted || !Reached(s, site, w) || !MayAsk(s, site, w) then s
    else
      var t, answer := Ask(s, site), w.evaluate(site, s.acts);
      if answer.Signal? && Passes(t, site, answer.valid, w) then Execute(t, site, w) else t
  }

  predicate Signals(s: State, site: Site, w: World) {
    MayAsk(s, site, w) && w.evaluate(site, s.acts).Signal?
  }

  /** The two butterflies: both caps are read first, and the second is asked only if the first had no signal. */
  function Flies(s: State, w: World): State {
    if s.aborted then s
    else
      var gexUsed, atpUsed := Used(s, GexPlan, w), Used(s, AtpPlan, w);
      if (gexUsed && atpUsed) || !w.tickChain then s
      else if gexUsed then Visit(s, AtpFly, w)
      else
        var t := Visit(s, GexFly, w);
        if Signals(s, GexFly, w) || atpUsed then t else Visit(t, AtpFly, w)
  }

  // --- The tick ---------------------------------------------------------------------------------

  datatype Stage = At(site: Site) | Butterflies

  const CASCADE := [At(Orb), At(GrantSweep), At(Hunt), At(Breakout), At(Volt), At(Runaway), At(Sweep), At(Park),
                    Butterflies, At(Trend), At(Orcs)]

  function Do(s: State, stage: Stage, w: World): State {
    if stage.At? then Visit(s, stage.site, w) else Flies(s, w)
  }

  /** The state after the first n stages of the cascade. */
  function Upto(s: State, n: nat, w: World): State
    requires n <= |CASCADE|
  {
    if n == 0 then s else Do(Upto(s, n - 1, w), CASCADE[n - 1], w)
  }

  function Cleared(s: State): State {
    State(None, {}, s.rows, [], false)
  }

  function Admit(s: State, w: World): State {
    match w.admission
    case None => s
    case Some(a) => s.(admitted := Some(a.eligible + a.observed), observed := a.observed * PAST_WINDOW)
  }

  /** At the loss cap an admission table that could not be computed asks nothing. */
  function Capped(s: State, w: World): State {
    if w.admission.None? then s else Flies(Visit(s, Park, w), w)
  }

  function Tick(s: State, w: World): State {
    var a := Admit(Cleared(s), w);
    if !w.sessionOpen then Cleared(s)
    else if w.capHit then Capped(a, w)
    else if !w.tickChain && !w.fetchedChain then a
    else Upto(a, |CASCADE|, w)
  }

  class Dispatcher {
    var admitted: Option<set<Plan>>
    var observed: set<Plan>
    var rows: seq<Row>
    var acts: seq<Act>

    constructor (trades: seq<Row>)
      ensures Now(false) == State(None, {}, trades, [], false)
    {
      admitted, observed, rows, acts := None, {}, trades, [];
    }

    function Now(raised: bool): State
      reads this
    {
      State(admitted, observed, rows, acts, raised)
    }

    /** Runs one evaluation in isolation: a raise comes back as no signal. */
    method SafeStrategy(site: Site, w: World) returns (signal: Option<bool>)
      modifies `acts
      ensures Now(false) == if MayAsk(old(Now(false)), site, w) then Ask(old(Now(false)), site) else old(Now(false))
      ensures signal.Some? <==> Signals(old(Now(false)), site, w)
      ensures signal.Some? ==> w.evaluate(site, old(acts)) == Signal(signal.value)
    {
      if !Allows(admitted, PlanOf(site), w.rules) || PlanOf(site) in w.unasked {
        return None;
      }
      var answer := w.evaluate(site, acts);
      acts := acts + [Asked(site, admitted)];
      match answer {
        case Declines => signal := None;
        case Raises => signal := None;
        case Signal(valid) => signal := Some(valid);
      }
    }

    /** Places the trade; a fill writes its row.  A guarded site swallows what the placement raises. */
    method ExecuteSignal(site: Site, w: World) returns (raised: bool)
      modifies `acts, `rows
      ensures Now(raised) == Execute(old(Now(false)), site, w)
    {
      var o := w.execute(site, acts);
      acts := acts + [Executed(site, o.fills)];
      if o.fills {
        rows := rows + [Row(PlanOf(site), w.day)];
      }
      raised := o.raises && !Guarded(site);
    }

    method OnePerSessionUsed(plan: Plan, w: World) returns (used: bool)
      ensures used == Used(Now(false), plan, w)
      ensures w.countable(plan, acts) ==>
                (used <==> exists i :: 0 <= i < |rows| && rows[i].plan == plan && rows[i].day >= w.day)
      ensures !w.countable(plan, acts) ==> used
    {
      var count := 1;
      if w.countable(plan, acts) {
        CountedIff(rows, plan, w.day);
        count := CountSince(rows, plan, w.day);
      }
      used := count >= 1;
    }

    method Attempt(site: Site, w: World) returns (raised: bool)
      modifies `acts, `rows
      ensures Now(raised) == Visit(old(Now(false)), site, w)
    {
      if !Reached(Now(false), site, w) {
        return false;
      }
      var signal := SafeStrategy(site, w);
      if signal.Some? && Passes(Now(false), site, signal.value, w) {
        raised := ExecuteSignal(site, w);
      } else {
        raised := false;
      }
    }

    method AttemptButterfly(w: World) returns (raised: bool)
      modifies `acts, `rows
      ensures Now(raised) == Flies(old(Now(false)), w)
    {
      raised := false;
      var gexUsed := OnePerSessionUsed(GexPlan, w);
      var atpUsed := OnePerSessionUsed(AtpPlan, w);
      if (gexUsed && atpUsed) || !w.tickChain {
        return;
      }
      if !gexUsed {
        var signal := SafeStrategy(GexFly, w);
        if signal.Some? {
          if !LogOnly(observed, GexPlan, w) {
            raised := ExecuteSignal(GexFly, w);
          }
          return;
        }
      }
      if !atpUsed {
        raised := Attempt(AtpFly, w);
      }
    }

    method AttemptNewEntry(w: World) returns (raised: bool)
      modifies this
      ensures Now(raised) == Tick(old(Now(false)), w)
    {
      admitted, observed, acts, raised := None, {}, [], false;
      if !w.sessionOpen {
        return;
      }
      if w.admission.Some? {
        admitted := Some(w.admission.value.eligible + w.admission.value.observed);
        observed := w.admission.value.observed * PAST_WINDOW;
      }
      if w.capHit {
        if w.admission.None? {
          return;
        }
        raised := Attempt(Park, w);
        if raised {
          return;
        }
        raised := AttemptButterfly(w);
        return;
      }
      if !w.tickChain && !w.fetchedChain {
        return;
      }
      raised := RunCascade(w);
    }

    /** One stage; a raise past it abandons what is left of the cascade. */
    method RunStage(ghost start: State, ghost n: nat, stage: Stage, w: World) returns (raised: bool)
      requires n < |CASCADE| && stage == CASCADE[n]
      requires Now(false) == Upto(start, n, w)
      modifies `acts, `rows
      ensures Now(raised) == Upto(start, n + 1, w)
      ensures raised ==> Now(true) == Upto(start, |CASCADE|, w)
    {
      if stage.At? {
        raised := Attempt(stage.site, w);
      } else {
        raised := AttemptButterfly(w);
      }
      if raised {
        OnceAborted(start, n + 1, w);
      }
    }

    /** The strategies born of the opening range, and the control arm beside them. */
    method RunOpeningRange(ghost start: State, w: World) returns (raised: bool)
      requires Now(false) == Upto(start, 0, w)
      modifies `acts, `rows
      ensures Now(raised) == if raised then Upto(start, |CASCADE|, w) else Upto(start, 5, w)
    {
      raised := RunStage(start, 0, At(Orb), w);
      if raised { return; }
      raised := RunStage(start, 1, At(GrantSweep), w);
      if raised { return; }
      raised := RunStage(start, 2, At(Hunt), w);
      if raised { return; }
      raised := RunStage(start, 3, At(Breakout), w);
      if raised { return; }
      raised := RunStage(start, 4, At(Volt), w);
    }

    method RunRest(ghost start: State, w: World) returns (raised: bool)
      requires Now(false) == Upto(start, 5, w)
      modifies `acts, `rows
      ensures Now(raised) == Upto(start, |CASCADE|, w)
    {
      raised := RunStage(start, 5, At(Runaway), w);
      if raised { return; }
      raised := RunStage(start, 6, At(Sweep), w);
      if raised { return; }
      raised := RunStage(start, 7, At(Park), w);
      if raised { return; }
      raised := RunStage(start, 8, Butterflies, w);
      if raised { return; }
      raised := RunStage(start, 9, At(Trend), w);
      if raised { return; }
      raised := RunStage(start, 10, At(Orcs), w);
    }

    method RunCascade(w: World) returns (raised: bool)
      modifies `acts, `rows
      ensures Now(raised) == Upto(old(Now(false)), |CASCADE|, w)
    {
      ghost var start := Now(false);
      raised := RunOpeningRange(start, w);
      if !raised {
        raised := RunRest(start, w);
      }
    }
  }

  lemma {:induction false} OnceAborted(s: State, n: nat, w: World)
    requires n <= |CASCADE| && Upto(s, n, w).aborted
    ensures Upto(s, |CASCADE|, w) == Upto(s, n, w)
    decreases |CASCADE| - n
  {
    if n < |CASCADE| {
      assert Upto(s, n + 1, w) == Upto(s, n, w);
      OnceAborted(s, n + 1, w);
    }
  }

  // --- Isolation --------------------------------------------------------------------------------

  /** The two worlds differ only in that some evaluations raise in one and decline in the other. */
  ghost predicate SameButForRaises(w: World, v: World) {
    && v == w.(evaluate := v.evaluate)
    && forall site, acts ::
         var e, f := w.evaluate(site, acts), v.evaluate(site, acts);
         e == f || (!e.Signal? && !f.Signal?)
  }

  lemma {:induction false} CascadeIgnoresRaises(s: State, n: nat, w: World, v: World)
    requires n <= |CASCADE| && SameButForRaises(w, v)
    ensures Upto(s, n, w) == Upto(s, n, v)
  {
    if n > 0 {
      CascadeIgnoresRaises(s, n - 1, w, v);
      var t := Upto(s, n - 1, w);
      if CASCADE[n - 1].At? {
        VisitIgnoresRaises(t, CASCADE[n - 1].site, w, v);
      } else {
        FliesIgnoreRaises(t, w, v);
      }
    }
  }

  lemma {:induction false} VisitIgnoresRaises(s: State, site: Site, w: World, v: World)
    requires SameButForRaises(w, v)
    ensures Visit(s, site, w) == Visit(s, site, v)
  {
    assert w.evaluate(site, s.acts) == v.evaluate(site, s.acts)
        || (!w.evaluate(site, s.acts).Signal? && !v.evaluate(site, s.acts).Signal?);
  }

  lemma {:induction false} FliesIgnoreRaises(s: State, w: World, v: World)
    requires SameButForRaises(w, v)
    ensures Flies(s, w) == Flies(s, v)
  {
    VisitIgnoresRaises(s, GexFly, w, v);
    VisitIgnoresRaises(s, AtpFly, w, v);
    VisitIgnoresRaises(Visit(s, GexFly, w), AtpFly, w, v);
  }

  /** A strategy that raises costs the tick exactly what one that declines costs it. */
  lemma {:induction false} RaiseIsADecline(s: State, w: World, v: World)
    requires SameButForRaises(w, v)
    ensures Tick(s, w) == Tick(s, v)
  {
    var a := Admit(Cleared(s), w);
    CascadeIgnoresRaises(a, |CASCADE|, w, v);
    VisitIgnoresRaises(a, Park, w, v);
    FliesIgnoreRaises(Visit(a, Park, w), w, v);
  }

  /** The sites at which nothing catches what an execution raises. */
  const UNGUARDED := {Orb, Breakout, Volt, Runaway, Sweep, Park, Trend}

  /** The tick's last act is an execution that raised past its site. */
  predicate EndsInARaise(acts: seq<Act>, w: World) {
    && acts != []
    && var last := acts[|acts| - 1];
       last.Executed? && last.site in UNGUARDED && w.execute(last.site, acts[..|acts| - 1]).raises
  }

  lemma {:induction false} VisitEnds(s: State, site: Site, w: World)
    requires s.aborted <==> EndsInARaise(s.acts, w)
    ensures Visit(s, site, w).aborted <==> EndsInARaise(Visit(s, site, w).acts, w)
    ensures s.aborted ==> Visit(s, site, w) == s
  {
    var t := Ask(s, site);
    assert (t.acts + [Executed(site, w.execute(site, t.acts).fills)])[..|t.acts|] == t.acts;
  }

  lemma {:induction false} FliesEnd(s: State, w: World)
    requires s.aborted <==> EndsInARaise(s.acts, w)
    ensures Flies(s, w).aborted <==> EndsInARaise(Flies(s, w).acts, w)
  {
    VisitEnds(s, GexFly, w);
    VisitEnds(s, AtpFly, w);
    VisitEnds(Visit(s, GexFly, w), AtpFly, w);
  }

  lemma {:induction false} CascadeEnds(s: State, n: nat, w: World)
    requires n <= |CASCADE| && (s.aborted <==> EndsInARaise(s.acts, w))
    ensures Upto(s, n, w).aborted <==> EndsInARaise(Upto(s, n, w).acts, w)
  {
    if n > 0 {
      CascadeEnds(s, n - 1, w);
      var t := Upto(s, n - 1, w);
      if CASCADE[n - 1].At? {
        VisitEnds(t, CASCADE[n - 1].site, w);
      } else {
        FliesEnd(t, w);
      }
    }
  }

  /** An execution has no such isolation: one that raises past an unguarded site is the tick's last act. */
  lemma {:induction false} UnguardedRaiseEndsTheTick(s: State, w: World)
    ensures Tick(s, w).aborted <==> EndsInARaise(Tick(s, w).acts, w)
  {
    var a := Admit(Cleared(s), w);
    CascadeEnds(a, |CASCADE|, w);
    VisitEnds(a, Park, w);
    FliesEnd(Visit(a, Park, w), w);
  }

  // --- The order of the cascade -----------------------------------------------------------------

  /** The place of the last act in the cascade. */
  function Top(acts: seq<Act>): int {
    if acts == [] then -1 else Rank(acts[|acts| - 1].site)
  }

  /** Each act is a new question further down the cascade, or the execution of the question just asked. */
  predicate Follows(acts: seq<Act>, i: nat)
    requires i < |acts|
  {
    if acts[i].Asked? then i > 0 ==> Rank(acts[i - 1].site) < Rank(acts[i].site)
    else i > 0 && acts[i - 1].Asked? && acts[i - 1].site == acts[i].site
  }

  ghost predicate InOrder(acts: seq<Act>) {
    forall i :: 0 <= i < |acts| ==> Follows(acts, i)
  }

  lemma {:induction false} InOrderSnoc(acts: seq<Act>, act: Act)
    requires InOrder(acts) && Follows(acts + [act], |acts|)
    ensures InOrder(acts + [act])
  {
    forall i | 0 <= i < |acts| ensures Follows(acts + [act], i) {
      assert Follows(acts, i);
    }
  }

  lemma {:induction false} VisitInOrder(s: State, site: Site, w: World)
    requires InOrder(s.acts) && Top(s.acts) < Rank(site)
    ensures InOrder(Visit(s, site, w).acts) && Top(Visit(s, site, w).acts) <= Rank(site)
  {
    var t := Ask(s, site);
    InOrderSnoc(s.acts, Asked(site, s.admitted));
    InOrderSnoc(t.acts, Executed(site, w.execute(site, t.acts).fills));
  }

  lemma {:induction false} FliesInOrder(s: State, w: World)
    requires InOrder(s.acts) && Top(s.acts) < Rank(GexFly)
    ensures InOrder(Flies(s, w).acts) && Top(Flies(s, w).acts) <= Rank(AtpFly)
  {
    VisitInOrder(s, GexFly, w);
    VisitInOrder(s, AtpFly, w);
    VisitInOrder(Visit(s, GexFly, w), AtpFly, w);
  }

  function LastRank(n: nat): int {
    if n <= 8 then n - 1 else n
  }

  lemma {:induction false} StageInOrder(s: State, n: nat, w: World)
    requires n < |CASCADE| && InOrder(s.acts) && Top(s.acts) <= LastRank(n)
    ensures InOrder(Do(s, CASCADE[n], w).acts) && Top(Do(s, CASCADE[n], w).acts) <= LastRank(n + 1)
  {
    if CASCADE[n].At? {
      assert LastRank(n) < Rank(CASCADE[n].site) == LastRank(n + 1);
      VisitInOrder(s, CASCADE[n].site, w);
    } else {
      assert n == 8;
      FliesInOrder(s, w);
    }
  }

  lemma {:induction false} CascadeInOrder(s: State, n: nat, w: World)
    requires n <= |CASCADE| && s.acts == []
    ensures InOrder(Upto(s, n, w).acts) && Top(Upto(s, n, w).acts) <= LastRank(n)
  {
    if n > 0 {
      CascadeInOrder(s, n - 1, w);
      StageInOrder(Upto(s, n - 1, w), n - 1, w);
    }
  }

  lemma {:induction false} TickInOrder(s: State, w: World)
    ensures InOrder(Tick(s, w).acts)
  {
    var a := Admit(Cleared(s), w);
    CascadeInOrder(a, |CASCADE|, w);
    VisitInOrder(a, Park, w);
    FliesInOrder(Visit(a, Park, w), w);
  }

  /** Two acts of a tick: the later one is further down the cascade, or executes what the other asked. */
  lemma {:induction false} LaterIsLower(acts: seq<Act>, i: nat, j: nat)
    requires InOrder(acts) && i < j < |acts|
    ensures || Rank(acts[i].site) < Rank(acts[j].site)
            || (j == i + 1 && acts[i].Asked? && acts[j].Executed? && acts[i].site == acts[j].site)
    decreases j
  {
    assert Follows(acts, j) && Follows(acts, j - 1);
    if i < j - 1 {
      LaterIsLower(acts, i, j - 1);
      if acts[j].Executed? && i < j - 2 {
        LaterIsLower(acts, i, j - 2);
      }
    }
  }

  /** No strategy site is asked twice in a tick, so none executes twice. */
  lemma {:induction false} AskedAtMostOnce(s: State, w: World, i: nat, j: nat)
    requires i < j < |Tick(s, w).acts|
    requires Tick(s, w).acts[i].site == Tick(s, w).acts[j].site
    ensures j == i + 1 && Tick(s, w).acts[i].Asked? && Tick(s, w).acts[j].Executed?
  {
    TickInOrder(s, w);
    LaterIsLower(Tick(s, w).acts, i, j);
  }

  predicate IsFly(site: Site) {
    site.GexFly? || site.AtpFly?
  }

  // --- Admission --------------------------------------------------------------------------------

  /** Everything asked was let through by the one admission set, and nothing only observed was executed. */
  ghost predicate Admitted(s: State, t: State, w: World) {
    && t.admitted == s.admitted && t.observed == s.observed
    && forall i :: 0 <= i < |t.acts| ==>
         var act := t.acts[i];
         if act.Asked? then
           && act.admitted == s.admitted
           && Allows(s.admitted, PlanOf(act.site), w.rules)
           && PlanOf(act.site) !in w.unasked
         else !LogOnly(s.observed, PlanOf(act.site), w)
  }

  lemma {:induction false} VisitAdmitted(s: State, t: State, site: Site, w: World)
    requires Admitted(s, t, w)
    ensures Admitted(s, Visit(t, site, w), w)
  {
    if !t.aborted && Reached(t, site, w) && MayAsk(t, site, w) {
      assert Admitted(s, Ask(t, site), w);
    }
  }

  lemma {:induction false} FliesAdmitted(s: State, t: State, w: World)
    requires Admitted(s, t, w)
    ensures Admitted(s, Flies(t, w), w)
  {
    VisitAdmitted(s, t, GexFly, w);
    VisitAdmitted(s, t, AtpFly, w);
    VisitAdmitted(s, Visit(t, GexFly, w), AtpFly, w);
  }

  lemma {:induction false} CascadeAdmitted(s: State, n: nat, w: World)
    requires n <= |CASCADE| && s.acts == []
    ensures Admitted(s, Upto(s, n, w), w)
  {
    if n > 0 {
      CascadeAdmitted(s, n - 1, w);
      var t := Upto(s, n - 1, w);
      if CASCADE[n - 1].At? {
        VisitAdmitted(s, t, CASCADE[n - 1].site, w);
      } else {
        FliesAdmitted(s, t, w);
      }
    }
  }

  /** Nothing is asked on an earlier tick's admitted set, and a plan that is only observed, or switched to LOG,
      never executes, admission table or none. */
  lemma {:induction false} OnlyThisTicksAdmission(s: State, leftover: Option<set<Plan>>, seen: set<Plan>, w: World)
    ensures Tick(s.(admitted := leftover, observed := seen), w) == Tick(s, w)
    ensures Admitted(Admit(Cleared(s), w), Tick(s, w), w) || !w.sessionOpen
    ensures !w.sessionOpen ==> Tick(s, w) == Cleared(s)
  {
    var a := Admit(Cleared(s), w);
    CascadeAdmitted(a, |CASCADE|, w);
    VisitAdmitted(a, a, Park, w);
    FliesAdmitted(a, Visit(a, Park, w), w);
  }

  /**
   The second-leg window asks before the tick has cleared the set, under a label that is in no table: the
   leftover set changes its answer exactly when the table cannot be read.
   */
  lemma {:induction false} LeftoverReachesTheSecondLegIff(rules: Option<set<Plan>>)
    requires rules.Some? ==> LegTwoLabel !in rules.value
    ensures (forall a, b :: Allows(a, LegTwoLabel, rules) == Allows(b, LegTwoLabel, rules)) <==> rules.Some?
  {
    if rules.None? {
      assert Allows(None, LegTwoLabel, rules) && !Allows(Some({}), LegTwoLabel, rules);
    }
  }

  // --- The loss cap -----------------------------------------------------------------------------

  predicate Exempt(site: Site) {
    site.Park? || IsFly(site)
  }

  ghost predicate OnlyExempt(acts: seq<Act>) {
    forall i :: 0 <= i < |acts| ==> Exempt(acts[i].site)
  }

  lemma {:induction false} VisitStaysExempt(s: State, site: Site, w: World)
    requires OnlyExempt(s.acts) && Exempt(site)
    ensures OnlyExempt(Visit(s, site, w).acts)
  {
    assert OnlyExempt(Ask(s, site).acts);
  }

  /** At the cap only PARK and the butterflies can be asked, and nothing when admission failed. */
  lemma {:induction false} AtTheCap(s: State, w: World)
    requires w.capHit
    ensures forall i :: 0 <= i < |Tick(s, w).acts| ==> Tick(s, w).acts[i].site in {Park, GexFly, AtpFly}
    ensures w.admission.None? ==> Tick(s, w).acts == []
  {
    var a := Admit(Cleared(s), w);
    var p := Visit(a, Park, w);
    VisitStaysExempt(a, Park, w);
    VisitStaysExempt(p, GexFly, w);
    VisitStaysExempt(p, AtpFly, w);
    VisitStaysExempt(Visit(p, GexFly, w), AtpFly, w);
    assert OnlyExempt(Tick(s, w).acts);
  }

  // --- One butterfly a tick ---------------------------------------------------------------------

  ghost predicate NoFly(acts: seq<Act>) {
    forall i :: 0 <= i < |acts| ==> !IsFly(acts[i].site)
  }

  /** Either no pin butterfly has executed, or the other one has not even been asked. */
  ghost predicate OneFly(acts: seq<Act>) {
    forall i, j :: 0 <= i < |acts| && 0 <= j < |acts| && acts[i].Executed? && acts[i].site.GexFly? ==>
      !acts[j].site.AtpFly?
  }

  lemma {:induction false} VisitKeepsFlies(s: State, site: Site, w: World)
    requires !IsFly(site)
    ensures NoFly(s.acts) ==> NoFly(Visit(s, site, w).acts)
    ensures OneFly(s.acts) ==> OneFly(Visit(s, site, w).acts)
  {
    var acts, after := s.acts, Visit(s, site, w).acts;
    assert forall i :: 0 <= i < |after| ==> if i < |acts| then after[i] == acts[i] else after[i].site == site;
  }

  lemma {:induction false} FliesKeepOne(s: State, w: World)
    requires NoFly(s.acts)
    ensures OneFly(Flies(s, w).acts)
  {
    var acts := s.acts;
    if s.aborted || (Used(s, GexPlan, w) && Used(s, AtpPlan, w)) || !w.tickChain {
    } else if Used(s, GexPlan, w) {
      var after := Visit(s, AtpFly, w).acts;
      assert forall i :: 0 <= i < |after| ==> if i < |acts| then after[i] == acts[i] else after[i].site == AtpFly;
    } else if Signals(s, GexFly, w) || Used(s, AtpPlan, w) {
      var after := Visit(s, GexFly, w).acts;
      assert forall i :: 0 <= i < |after| ==> if i < |acts| then after[i] == acts[i] else after[i].site == GexFly;
    } else {
      var t := Visit(s, GexFly, w);
      assert t == s || t == Ask(s, GexFly);
      assert forall i :: 0 <= i < |t.acts| ==> !(t.acts[i].Executed? && IsFly(t.acts[i].site));
      var after := Visit(t, AtpFly, w).acts;
      assert forall i :: 0 <= i < |after| ==> if i < |t.acts| then after[i] == t.acts[i] else after[i].site == AtpFly;
    }
  }

  lemma {:induction false} CascadeKeepsOne(s: State, n: nat, w: World)
    requires n <= |CASCADE| && s.acts == []
    ensures OneFly(Upto(s, n, w).acts) && (n <= 8 ==> NoFly(Upto(s, n, w).acts))
  {
    if n > 0 {
      CascadeKeepsOne(s, n - 1, w);
      var t := Upto(s, n - 1, w);
      if CASCADE[n - 1].At? {
        VisitKeepsFlies(t, CASCADE[n - 1].site, w);
      } else {
        FliesKeepOne(t, w);
      }
    }
  }

  /** Both butterflies never enter on one tick. */
  lemma {:induction false} OneButterflyPerTick(s: State, w: World)
    ensures OneFly(Tick(s, w).acts)
  {
    var a := Admit(Cleared(s), w);
    CascadeKeepsOne(a, |CASCADE|, w);
    VisitKeepsFlies(a, Park, w);
    FliesKeepOne(Visit(a, Park, w), w);
  }

  // --- Once per session -------------------------------------------------------------------------

  /** No two of the plan's trades were entered on one day. */
  ghost predicate OncePerDay(rows: seq<Row>, plan: Plan) {
    forall i, j :: 0 <= i < j < |rows| && rows[i].plan == plan && rows[j].plan == plan ==>
      rows[i].day != rows[j].day
  }

  predicate FirstToday(s: State, site: Site, w: World) {
    OncePerSession(PlanOf(site)) ==> !TradedSince(s.rows, PlanOf(site), w.day)
  }

  lemma {:induction false} VisitOncePerDay(s: State, site: Site, plan: Plan, w: World)
    requires OncePerDay(s.rows, plan) && OncePerSession(plan)
    requires IsFly(site) ==> FirstToday(s, site, w)
    ensures OncePerDay(Visit(s, site, w).rows, plan)
  {
    var rows := s.rows + [Row(PlanOf(site), w.day)];
    if Visit(s, site, w).rows == rows {
      assert FirstToday(s, site, w);
      forall i, j | 0 <= i < j < |rows| && rows[i].plan == plan && rows[j].plan == plan
        ensures rows[i].day != rows[j].day
      {
        assert rows[i] == s.rows[i];
        if j < |s.rows| {
          assert rows[j] == s.rows[j];
        }
      }
    }
  }

  lemma {:induction false} FliesOncePerDay(s: State, plan: Plan, w: World)
    requires OncePerDay(s.rows, plan) && OncePerSession(plan)
    ensures OncePerDay(Flies(s, w).rows, plan)
  {
    if !Used(s, GexPlan, w) {
      VisitOncePerDay(s, GexFly, plan, w);
      var t := Visit(s, GexFly, w);
      if !Signals(s, GexFly, w) && !Used(s, AtpPlan, w) {
        assert t.rows == s.rows;
        VisitOncePerDay(t, AtpFly, plan, w);
      }
    } else if !Used(s, AtpPlan, w) {
      VisitOncePerDay(s, AtpFly, plan, w);
    }
  }

  lemma {:induction false} CascadeOncePerDay(s: State, n: nat, plan: Plan, w: World)
    requires n <= |CASCADE| && OncePerDay(s.rows, plan) && OncePerSession(plan)
    ensures OncePerDay(Upto(s, n, w).rows, plan)
  {
    if n > 0 {
      CascadeOncePerDay(s, n - 1, plan, w);
      var t := Upto(s, n - 1, w);
      if CASCADE[n - 1].At? {
        assert !IsFly(CASCADE[n - 1].site);
        VisitOncePerDay(t, CASCADE[n - 1].site, plan, w);
      } else {
        FliesOncePerDay(t, plan, w);
      }
    }
  }

  lemma {:induction false} TickOncePerDay(s: State, plan: Plan, w: World)
    requires OncePerDay(s.rows, plan) && OncePerSession(plan)
    ensures OncePerDay(Tick(s, w).rows, plan)
  {
    var a := Admit(Cleared(s), w);
    CascadeOncePerDay(a, |CASCADE|, plan, w);
    VisitOncePerDay(a, Park, plan, w);
    FliesOncePerDay(Visit(a, Park, w), plan, w);
  }

  /** A run of the bot: ticks, and restarts that forget everything but the trades table. */
  datatype Event = TickOf(world: World) | Restart

  function Run(s: State, events: seq<Event>): State {
    if events == [] then s
    else
      var before, e := Run(s, events[..|events| - 1]), events[|events| - 1];
      match e
      case TickOf(w) => Tick(before, w)
      case Restart => State(None, {}, before.rows, [], false)
  }

  /** Over every run, restarts and clocks that step back included, a capped plan enters once a session. */
  lemma {:induction false} OneEntryPerSession(s: State, events: seq<Event>, plan: Plan)
    requires plan in {RunawayPlan, ParkPlan, GexPlan, AtpPlan} && OncePerDay(s.rows, plan)
    ensures OncePerDay(Run(s, events).rows, plan)
  {
    if events != [] {
      OneEntryPerSession(s, events[..|events| - 1], plan);
      if events[|events| - 1].TickOf? {
        TickOncePerDay(Run(s, events[..|events| - 1]), plan, events[|events| - 1].world);
      }
    }
  }

  // --- What the caps do not stop ----------------------------------------------------------------

  /** The trades table cannot be counted for the plan, whatever has happened this tick. */
  ghost predicate Uncountable(plan: Plan, w: World) {
    forall acts :: !w.countable(plan, acts)
  }

  ghost predicate NeverAt(acts: seq<Act>, site: Site) {
    forall i :: 0 <= i < |acts| ==> acts[i].site != site
  }

  lemma {:induction false} VisitElsewhere(s: State, at: Site, site: Site, w: World)
    requires NeverAt(s.acts, site) && (at == site ==> !Reached(s, at, w))
    ensures NeverAt(Visit(s, at, w).acts, site)
  {
    var acts, after := s.acts, Visit(s, at, w).acts;
    assert forall i :: 0 <= i < |after| ==> if i < |acts| then after[i] == acts[i] else after[i].site == at;
  }

  lemma {:induction false} FliesElsewhere(s: State, site: Site, w: World)
    requires NeverAt(s.acts, site) && Uncountable(PlanOf(site), w)
    ensures NeverAt(Flies(s, w).acts, site)
  {
    assert !w.countable(PlanOf(site), s.acts);
    if !site.GexFly? {
      VisitElsewhere(s, GexFly, site, w);
    }
    if !site.AtpFly? {
      VisitElsewhere(s, AtpFly, site, w);
      if !site.GexFly? {
        VisitElsewhere(Visit(s, GexFly, w), AtpFly, site, w);
      }
    }
  }

  lemma {:induction false} CascadeElsewhere(s: State, n: nat, site: Site, w: World)
    requires n <= |CASCADE| && s.acts == []
    requires OncePerSession(PlanOf(site)) && Uncountable(PlanOf(site), w)
    ensures NeverAt(Upto(s, n, w).acts, site)
  {
    if n > 0 {
      CascadeElsewhere(s, n - 1, site, w);
      var t := Upto(s, n - 1, w);
      if CASCADE[n - 1].At? {
        assert !w.countable(PlanOf(site), t.acts);
        VisitElsewhere(t, CASCADE[n - 1].site, site, w);
      } else {
        FliesElsewhere(t, site, w);
      }
    }
  }

  /** A trades table that cannot be counted admits none of the capped plans, at the cap or under it. */
  lemma {:induction false} UncountableAsksNone(s: State, site: Site, w: World)
    requires site in {Runaway, Park, GexFly, AtpFly} && Uncountable(PlanOf(site), w)
    ensures NeverAt(Tick(s, w).acts, site)
  {
    var a := Admit(Cleared(s), w);
    CascadeElsewhere(a, |CASCADE|, site, w);
    assert !w.countable(PlanOf(site), a.acts);
    VisitElsewhere(a, Park, site, w);
    FliesElsewhere(Visit(a, Park, w), site, w);
  }

  predicate HoldsPlan(stage: Stage, plan: Plan) {
    if stage.At? then PlanOf(stage.site) == plan else plan.GexPlan? || plan.AtpPlan?
  }

  lemma {:induction false} DoExtends(s: State, stage: Stage, w: World)
    ensures s.acts <= Do(s, stage, w).acts && s.rows <= Do(s, stage, w).rows
    ensures Do(s, stage, w).admitted == s.admitted
    ensures s.aborted ==> Do(s, stage, w) == s
  {
  }

  lemma {:induction false} RowsSnoc(rows: seq<Row>, row: Row, plan: Plan, day: int)
    requires row.plan != plan
    ensures TradedSince(rows + [row], plan, day) <==> TradedSince(rows, plan, day)
  {
    if TradedSince(rows, plan, day) {
      var i :| 0 <= i < |rows| && rows[i].plan == plan && rows[i].day >= day;
      assert (rows + [row])[i] == rows[i];
    }
  }

  lemma {:induction false} VisitLeavesOthers(s: State, site: Site, plan: Plan, w: World)
    requires PlanOf(site) != plan
    ensures TradedSince(Visit(s, site, w).rows, plan, w.day) <==> TradedSince(s.rows, plan, w.day)
  {
    RowsSnoc(s.rows, Row(PlanOf(site), w.day), plan, w.day);
    assert s.rows + [] == s.rows;
  }

  lemma {:induction false} DoLeavesOthers(s: State, stage: Stage, plan: Plan, w: World)
    requires !HoldsPlan(stage, plan)
    ensures TradedSince(Do(s, stage, w).rows, plan, w.day) <==> TradedSince(s.rows, plan, w.day)
  {
    if stage.At? {
      VisitLeavesOthers(s, stage.site, plan, w);
    } else {
      VisitLeavesOthers(s, GexFly, plan, w);
      VisitLeavesOthers(s, AtpFly, plan, w);
      VisitLeavesOthers(Visit(s, GexFly, w), AtpFly, plan, w);
    }
  }

  function StageOf(site: Site): nat {
    if Rank(site) <= 8 then Rank(site) else Rank(site) - 1
  }

  lemma {:induction false} HeldOnlyLater(n: nat, site: Site)
    requires OncePerSession(PlanOf(site)) && n < StageOf(site)
    ensures !HoldsPlan(CASCADE[n], PlanOf(site))
  {
  }

  lemma {:induction false} UntradedUntilAsked(s: State, n: nat, site: Site, w: World)
    requires OncePerSession(PlanOf(site)) && n <= StageOf(site)
    ensures TradedSince(Upto(s, n, w).rows, PlanOf(site), w.day) <==> TradedSince(s.rows, PlanOf(site), w.day)
  {
    if n > 0 {
      UntradedUntilAsked(s, n - 1, site, w);
      HeldOnlyLater(n - 1, site);
      DoLeavesOthers(Upto(s, n - 1, w), CASCADE[n - 1], PlanOf(site), w);
    }
  }

  lemma {:induction false} CascadeExtends(s: State, n: nat, m: nat, w: World)
    requires n <= m <= |CASCADE|
    ensures Upto(s, n, w).acts <= Upto(s, m, w).acts && Upto(s, m, w).admitted == Upto(s, n, w).admitted
    ensures Upto(s, n, w).aborted ==> Upto(s, m, w).aborted
  {
    if n < m {
      CascadeExtends(s, n, m - 1, w);
      DoExtends(Upto(s, m - 1, w), CASCADE[m - 1], w);
    }
  }

  /** Nothing outside admission and the session cap keeps the site's strategy from being asked. */
  ghost predicate Askable(s: State, site: Site, w: World) {
    && MayAsk(s, site, w)
    && (forall acts :: w.ready(site, acts))
    && (OncePerSession(PlanOf(site)) ==>
          && !TradedSince(s.rows, PlanOf(site), w.day)
          && forall acts :: w.countable(PlanOf(site), acts))
    && (site.GexFly? ==> w.tickChain)
  }

  lemma {:induction false} StageAsks(t: State, n: nat, site: Site, w: World)
    requires !site.AtpFly? && n == StageOf(site) && !t.aborted && MayAsk(t, site, w)
    requires w.ready(site, t.acts) && (site.GexFly? ==> w.tickChain)
    requires OncePerSession(PlanOf(site)) ==> !Used(t, PlanOf(site), w)
    ensures |t.acts| < |Do(t, CASCADE[n], w).acts|
    ensures Do(t, CASCADE[n], w).acts[|t.acts|] == Asked(site, t.admitted)
  {
    if site.GexFly? {
      assert CASCADE[n] == Butterflies;
    } else {
      assert CASCADE[n] == At(site);
    }
  }

  lemma {:induction false} FliesNotYet(s: State, site: Site, w: World)
    requires NeverAt(s.acts, site) && !IsFly(site)
    ensures NeverAt(Flies(s, w).acts, site)
  {
    VisitElsewhere(s, GexFly, site, w);
    VisitElsewhere(s, AtpFly, site, w);
    VisitElsewhere(Visit(s, GexFly, w), AtpFly, site, w);
  }

  lemma {:induction false} CascadeNotYet(s: State, n: nat, site: Site, w: World)
    requires n <= StageOf(site) && s.acts == []
    ensures NeverAt(Upto(s, n, w).acts, site)
  {
    if n > 0 {
      CascadeNotYet(s, n - 1, site, w);
      var t := Upto(s, n - 1, w);
      if CASCADE[n - 1].At? {
        assert CASCADE[n - 1].site != site;
        VisitElsewhere(t, CASCADE[n - 1].site, site, w);
      } else {
        FliesNotYet(t, site, w);
      }
    }
  }

  /** The tick gets as far as the cascade. */
  predicate Dispatches(w: World) {
    w.sessionOpen && !w.capHit && (w.tickChain || w.fetchedChain)
  }

  function Start(s: State, w: World): State {
    Admit(Cleared(s), w)
  }

  /**
   The strategies do not compete: whatever fired before, an admitted one is asked, exactly unless an
   execution raised past its site at an earlier stage.
   */
  lemma {:induction false} EveryAdmittedSiteIsAskedIff(s: State, site: Site, w: World)
    requires Dispatches(w) && !site.AtpFly? && Askable(Start(s, w), site, w)
    ensures Asked(site, Start(s, w).admitted) in Tick(s, w).acts <==> !Upto(Start(s, w), StageOf(site), w).aborted
  {
    var a := Start(s, w);
    if Upto(a, StageOf(site), w).aborted {
      OnceAborted(a, StageOf(site), w);
      CascadeNotYet(a, StageOf(site), site, w);
    } else {
      CascadeAsks(a, StageOf(site), site, w);
    }
  }

  lemma {:induction false} CascadeAsks(a: State, n: nat, site: Site, w: World)
    requires !site.AtpFly? && n == StageOf(site) && Askable(a, site, w) && !Upto(a, n, w).aborted
    ensures Asked(site, a.admitted) in Upto(a, |CASCADE|, w).acts
  {
    CascadeExtends(a, 0, n, w);
    CascadeExtends(a, n + 1, |CASCADE|, w);
    var t := Upto(a, n, w);
    assert w.ready(site, t.acts);
    if OncePerSession(PlanOf(site)) {
      UntradedUntilAsked(a, n, site, w);
      assert w.countable(PlanOf(site), t.acts);
    }
    StageAsks(t, n, site, w);
    assert Upto(a, n + 1, w).acts[|t.acts|] == Asked(site, a.admitted);
  }

  /** No unguarded site earlier in the cascade has an execution that raises. */
  ghost predicate QuietBefore(rank: nat, w: World) {
    forall site, acts :: Rank(site) < rank && !Guarded(site) ==> !w.execute(site, acts).raises
  }

  lemma {:induction false} QuietVisit(t: State, site: Site, rank: nat, w: World)
    requires QuietBefore(rank, w) && Rank(site) < rank && !t.aborted
    ensures !Visit(t, site, w).aborted
  {
    assert Guarded(site) || !w.execute(site, Ask(t, site).acts).raises;
  }

  lemma {:induction false} QuietIsNotAbandoned(a: State, n: nat, rank: nat, w: World)
    requires n <= |CASCADE| && LastRank(n) < rank && QuietBefore(rank, w) && !a.aborted
    ensures !Upto(a, n, w).aborted
  {
    if n > 0 {
      QuietIsNotAbandoned(a, n - 1, rank, w);
      var t := Upto(a, n - 1, w);
      if CASCADE[n - 1].At? {
        assert Rank(CASCADE[n - 1].site) == LastRank(n);
        QuietVisit(t, CASCADE[n - 1].site, rank, w);
      } else {
        FliesCutShort(t, w);
      }
    }
  }

  /** Which a caller can see to beforehand: with nothing unguarded raising before it, an admitted site is asked. */
  lemma {:induction false} AskedWhenQuietBefore(s: State, site: Site, w: World)
    requires Dispatches(w) && !site.AtpFly? && Askable(Start(s, w), site, w) && QuietBefore(Rank(site), w)
    ensures Asked(site, Start(s, w).admitted) in Tick(s, w).acts
  {
    EveryAdmittedSiteIsAskedIff(s, site, w);
    QuietIsNotAbandoned(Start(s, w), StageOf(site), Rank(site), w);
  }

  /** A world in which only the opening-range strategy signals, and its execution may raise. */
  function OneSignal(raises: bool): World {
    World(0, true, false, None, {}, None, {}, {}, true, true, (site, acts) => true, (plan, acts) => true,
          (site, acts) => if site == Orb then Signal(true) else Declines, (site, acts) => true,
          (site, acts) => Outcome(true, raises))
  }

  /** When it raises, the control arm, admitted and eager, is not asked; when it does not, it is. */
  lemma {:induction false} SilencedByARaise(s: State)
    ensures Askable(Start(s, OneSignal(true)), Volt, OneSignal(true))
    ensures Asked(Volt, None) !in Tick(s, OneSignal(true)).acts
    ensures Asked(Volt, None) in Tick(s, OneSignal(false)).acts
  {
    var w := OneSignal(true);
    var a := Start(s, w);
    assert Upto(a, 0, w) == a;
    assert Upto(a, 1, w) == Visit(a, Orb, w) && Upto(a, 1, w).aborted;
    CascadeExtends(a, 1, StageOf(Volt), w);
    EveryAdmittedSiteIsAskedIff(s, Volt, w);
    AskedWhenQuietBefore(s, Volt, OneSignal(false));
  }

  // --- What a raising execution costs -----------------------------------------------------------

  /** The same world with executions that never raise. */
  function Calm(w: World): World {
    w.(execute := (site, acts) => Outcome(w.execute(site, acts).fills, false))
  }

  /** One tick is the other cut short: the same until it was abandoned, and nothing after. */
  ghost predicate CutShort(u: State, v: State) {
    if u.aborted then u.acts <= v.acts && u.rows <= v.rows else u == v
  }

  lemma {:induction false} VisitCutShort(s: State, site: Site, w: World)
    requires !s.aborted
    ensures Visit(s, site, w).(aborted := false) == Visit(s, site, Calm(w))
    ensures Guarded(site) ==> !Visit(s, site, w).aborted
  {
    ExecuteCutShort(Ask(s, site), site, w);
  }

  lemma {:induction false} ExecuteCutShort(s: State, site: Site, w: World)
    ensures Execute(s, site, w).(aborted := false) == Execute(s, site, Calm(w))
    ensures Guarded(site) ==> !Execute(s, site, w).aborted
  {
  }

  lemma {:induction false} FliesCutShort(s: State, w: World)
    requires !s.aborted
    ensures Flies(s, w) == Flies(s, Calm(w)) && !Flies(s, w).aborted
  {
    VisitCutShort(s, GexFly, w);
    VisitCutShort(s, AtpFly, w);
    VisitCutShort(Visit(s, GexFly, w), AtpFly, w);
  }

  lemma {:induction false} CascadeCutShort(s: State, n: nat, w: World)
    requires n <= |CASCADE| && !s.aborted
    ensures CutShort(Upto(s, n, w), Upto(s, n, Calm(w)))
  {
    if n > 0 {
      CascadeCutShort(s, n - 1, w);
      DoCutShort(Upto(s, n - 1, w), Upto(s, n - 1, Calm(w)), CASCADE[n - 1], w);
    }
  }

  lemma {:induction false} DoCutShort(u: State, v: State, stage: Stage, w: World)
    requires CutShort(u, v)
    ensures CutShort(Do(u, stage, w), Do(v, stage, Calm(w)))
  {
    if u.aborted {
      DoExtends(v, stage, Calm(w));
    } else if stage.At? {
      VisitCutShort(u, stage.site, w);
      DoExtends(u, stage, Calm(w));
    } else {
      FliesCutShort(u, w);
    }
  }

  /** A raising execution only cuts the tick short: what was asked, executed and booked before it stands, and
      a tick that is not abandoned is the one that would have run without raises. */
  lemma {:induction false} RaiseOnlyCutsShort(s: State, w: World)
    ensures CutShort(Tick(s, w), Tick(s, Calm(w)))
  {
    var a := Start(s, w);
    assert Start(s, Calm(w)) == a;
    CascadeCutShort(a, |CASCADE|, w);
    VisitCutShort(a, Park, w);
    if Visit(a, Park, w).aborted {
      DoExtends(Visit(a, Park, Calm(w)), Butterflies, Calm(w));
    } else {
      FliesCutShort(Visit(a, Park, w), w);
    }
  }

  /** In the state before its stage, the site's execution is reached and raises past it. */
  predicate RaisesAt(t: State, site: Site, w: World) {
    && !t.aborted && !Guarded(site) && Reached(t, site, w) && Signals(t, site, w)
    && Passes(Ask(t, site), site, w.evaluate(site, t.acts).valid, w)
    && w.execute(site, Ask(t, site).acts).raises
  }

  lemma {:induction false} CascadeAbandonedIff(a: State, n: nat, w: World)
    requires n <= |CASCADE| && !a.aborted
    ensures Upto(a, n, w).aborted
       <==> exists k :: 0 <= k < n && CASCADE[k].At? && RaisesAt(Upto(a, k, w), CASCADE[k].site, w)
  {
    if n > 0 {
      CascadeAbandonedIff(a, n - 1, w);
      var t := Upto(a, n - 1, w);
      if t.aborted {
        assert Upto(a, n, w) == t;
      } else if CASCADE[n - 1].At? {
        assert Upto(a, n, w).aborted <==> RaisesAt(t, CASCADE[n - 1].site, w);
      } else {
        FliesCutShort(t, w);
      }
    }
  }

  /** The tick is abandoned exactly when some stage of the cascade is reached whose unguarded execution raises,
      or, at the loss cap, when PARK's does. */
  lemma {:induction false} AbandonedIff(s: State, w: World)
    ensures Tick(s, w).aborted
       <==> || (Dispatches(w) && exists k :: 0 <= k < |CASCADE| && CASCADE[k].At?
                                             && RaisesAt(Upto(Start(s, w), k, w), CASCADE[k].site, w))
            || (w.sessionOpen && w.capHit && w.admission.Some? && RaisesAt(Start(s, w), Park, w))
  {
    CascadeAbandonedIff(Start(s, w), |CASCADE|, w);
    AbandonedAtTheCapIff(Start(s, w), w);
  }

  lemma {:induction false} AbandonedAtTheCapIff(a: State, w: World)
    requires !a.aborted
    ensures Capped(a, w).aborted <==> w.admission.Some? && RaisesAt(a, Park, w)
  {
    var t := Visit(a, Park, w);
    assert t.aborted <==> RaisesAt(a, Park, w);
    if !t.aborted {
      FliesCutShort(t, w);
    }
  }

  // --- The second butterfly ---------------------------------------------------------------------

  /** The pin butterfly is asked and signals, whatever becomes of the signal. */
  predicate PinSignals(t: State, w: World) {
    !Used(t, GexPlan, w) && Signals(t, GexFly, w)
  }

  lemma {:induction false} FliesAskSecondIff(t: State, w: World)
    requires !t.aborted && NeverAt(t.acts, AtpFly)
    requires w.tickChain && !Used(t, AtpPlan, w) && MayAsk(t, AtpFly, w)
    ensures Asked(AtpFly, t.admitted) in Flies(t, w).acts <==> !PinSignals(t, w)
    ensures PinSignals(t, w) ==> NeverAt(Flies(t, w).acts, AtpFly)
  {
    VisitElsewhere(t, GexFly, AtpFly, w);
    var u := if Used(t, GexPlan, w) then t else Visit(t, GexFly, w);
    VisitCutShort(t, GexFly, w);
    if !PinSignals(t, w) {
      assert !u.aborted && u.admitted == t.admitted && MayAsk(u, AtpFly, w);
      assert Flies(t, w) == Visit(u, AtpFly, w);
      assert Visit(u, AtpFly, w).acts[|u.acts|] == Asked(AtpFly, t.admitted);
    }
  }

  lemma {:induction false} NothingAfterTheFlies(s: State, site: Site, w: World)
    requires IsFly(site) && NeverAt(Upto(s, 9, w).acts, site)
    ensures NeverAt(Upto(s, |CASCADE|, w).acts, site)
  {
    VisitElsewhere(Upto(s, 9, w), Trend, site, w);
    assert Upto(s, 10, w) == Visit(Upto(s, 9, w), Trend, w);
    VisitElsewhere(Upto(s, 10, w), Orcs, site, w);
    assert Upto(s, 11, w) == Visit(Upto(s, 10, w), Orcs, w);
  }

  /** The second butterfly, admitted and under its cap, is asked exactly unless the tick was abandoned before
      the butterflies or the pin butterfly signalled: it yields to the signal, not to a fill. */
  lemma {:induction false} SecondButterflyIsAskedIff(s: State, w: World)
    requires Dispatches(w) && w.tickChain && Askable(Start(s, w), AtpFly, w)
    ensures Asked(AtpFly, Start(s, w).admitted) in Tick(s, w).acts
       <==> var t := Upto(Start(s, w), StageOf(AtpFly), w); !t.aborted && !PinSignals(t, w)
  {
    var a, n := Start(s, w), StageOf(AtpFly);
    var t := Upto(a, n, w);
    CascadeNotYet(a, n, AtpFly, w);
    if t.aborted {
      OnceAborted(a, n, w);
    } else {
      CascadeExtends(a, 0, n, w);
      UntradedUntilAsked(a, n, AtpFly, w);
      assert w.countable(AtpPlan, t.acts);
      FliesAskSecondIff(t, w);
      assert Upto(a, 9, w) == Flies(t, w);
      CascadeExtends(a, 9, |CASCADE|, w);
      if PinSignals(t, w) {
        NothingAfterTheFlies(a, AtpFly, w);
      }
    }
  }

  /** At the loss cap likewise, after PARK. */
  lemma {:induction false} SecondButterflyAtTheCapIff(s: State, w: World)
    requires w.sessionOpen && w.capHit && w.admission.Some? && w.tickChain && Askable(Start(s, w), AtpFly, w)
    ensures Asked(AtpFly, Start(s, w).admitted) in Tick(s, w).acts
       <==> var t := Visit(Start(s, w), Park, w); !t.aborted && !PinSignals(t, w)
  {
    var a := Start(s, w);
    var t := Visit(a, Park, w);
    VisitElsewhere(a, Park, AtpFly, w);
    VisitLeavesOthers(a, Park, AtpPlan, w);
    if !t.aborted {
      assert w.countable(AtpPlan, t.acts);
      FliesAskSecondIff(t, w);
    }
  }

  /** A pin plan switched to LOG signals, executes nothing, and still keeps the second butterfly from being
      asked. */
  lemma {:induction false} LoggedPinStillTakesTheTick(s: State, w: World)
    requires Dispatches(w) && w.tickChain && Askable(Start(s, w), AtpFly, w)
    requires GexPlan in w.logged && PinSignals(Upto(Start(s, w), StageOf(AtpFly), w), w)
    ensures Asked(AtpFly, Start(s, w).admitted) !in Tick(s, w).acts
    ensures forall i :: 0 <= i < |Tick(s, w).acts| ==>
              !(Tick(s, w).acts[i].Executed? && Tick(s, w).acts[i].site.GexFly?)
  {
    SecondButterflyIsAskedIff(s, w);
    OnlyThisTicksAdmission(s, None, {}, w);
  }
}
