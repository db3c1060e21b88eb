/**
 What one tick does, told in terms of the world it meets: which questions it asks, which of the answers it
 turns into trades, and which rows it leaves behind.
 */
module DispatchActs {
  import opened Common
  import opened Dispatch

  // --- From a signal to a trade -----------------------------------------------------------------

  /** The question at i was followed by an execution. */
  predicate Placed(acts: seq<Act>, i: nat)
    requires i < |acts|
  {
    i + 1 < |acts| && acts[i + 1].Executed?
  }

  /** The doors that stand before an execution in the source, site by site; `before` is what the tick had done
      when the site was asked. */
  ghost predicate DoorsOpen(site: Site, before: seq<Act>, asked: seq<Act>, observed: set<Plan>, w: World) {
    && PlanOf(site) !in observed && PlanOf(site) !in w.logged
    && (site == Orb ==> OrbPlan !in w.debitBlocked)
    && (site == Breakout ==> BreakoutPlan !in w.debitBlocked)
    && (site == Volt ==> VoltPlan !in w.debitBlocked)
    && (site == Runaway ==> RunawayPlan !in w.debitBlocked)
    && (site == Sweep ==> w.evaluate(site, before) == Signal(true))
    && (site in {Sweep, Trend} ==> w.pairs(site, asked))
  }

  ghost predicate Due(acts: seq<Act>, i: nat, observed: set<Plan>, w: World)
    requires i < |acts|
  {
    && w.evaluate(acts[i].site, acts[..i]).Signal?
    && DoorsOpen(acts[i].site, acts[..i], acts[..i + 1], observed, w)
  }

  ghost predicate CarriedAt(acts: seq<Act>, i: nat, observed: set<Plan>, w: World)
    requires i < |acts|
  {
    acts[i].Asked? ==>
      && (Placed(acts, i) <==> Due(acts, i, observed, w))
      && (Placed(acts, i) ==>
            acts[i + 1] == Executed(acts[i].site, w.execute(acts[i].site, acts[..i + 1]).fills))
  }

  /** Every question was followed by its execution exactly when that was due. */
  ghost predicate Carried(acts: seq<Act>, observed: set<Plan>, w: World) {
    forall i :: 0 <= i < |acts| ==> CarriedAt(acts, i, observed, w)
  }

  /** Whether a question was carried out shows in the acts up to the one after it. */
  lemma {:induction false} CarriedBefore(acts: seq<Act>, more: seq<Act>, observed: set<Plan>, w: World)
    requires Carried(acts, observed, w) && more != [] && more[0].Asked?
    ensures forall i :: 0 <= i < |acts| ==> CarriedAt(acts + more, i, observed, w)
  {
    forall i | 0 <= i < |acts| ensures CarriedAt(acts + more, i, observed, w) {
      var all := acts + more;
      assert CarriedAt(acts, i, observed, w);
      assert all[..i] == acts[..i] && all[..i + 1] == acts[..i + 1] && all[i] == acts[i];
      assert i + 1 < |acts| ==> all[i + 1] == acts[i + 1];
    }
  }

  lemma {:induction false} CarriedAsk(s: State, site: Site, w: World)
    requires Carried(s.acts, s.observed, w) && !Due(Ask(s, site).acts, |s.acts|, s.observed, w)
    ensures Carried(Ask(s, site).acts, s.observed, w)
  {
    CarriedBefore(s.acts, [Asked(site, s.admitted)], s.observed, w);
  }

  lemma {:induction false} CarriedExecute(s: State, site: Site, w: World)
    requires Carried(s.acts, s.observed, w) && Due(Ask(s, site).acts, |s.acts|, s.observed, w)
    ensures Carried(Execute(Ask(s, site), site, w).acts, s.observed, w)
  {
    var t := Ask(s, site);
    var done := Executed(site, w.execute(site, t.acts).fills);
    var all := Execute(t, site, w).acts;
    CarriedBefore(s.acts, [Asked(site, s.admitted), done], s.observed, w);
    assert all == s.acts + [Asked(site, s.admitted), done];
    assert all[..|s.acts|] == s.acts && all[..|s.acts| + 1] == t.acts && t.acts[..|s.acts| + 1] == t.acts;
  }

  /** The doors of a site in the cascade are those the source has. */
  lemma {:induction false} PassesIffDue(s: State, site: Site, w: World)
    ensures var t, answer := Ask(s, site), w.evaluate(site, s.acts);
      Due(t.acts, |s.acts|, s.observed, w) <==> answer.Signal? && Passes(t, site, answer.valid, w)
  {
    var t := Ask(s, site);
    assert t.acts[..|s.acts|] == s.acts && t.acts[..|s.acts| + 1] == t.acts;
  }

  lemma {:induction false} VisitCarried(s: State, site: Site, w: World)
    requires Carried(s.acts, s.observed, w)
    ensures Carried(Visit(s, site, w).acts, s.observed, w) && Visit(s, site, w).observed == s.observed
  {
    if !s.aborted && Reached(s, site, w) && MayAsk(s, site, w) {
      PassesIffDue(s, site, w);
      if Due(Ask(s, site).acts, |s.acts|, s.observed, w) {
        CarriedExecute(s, site, w);
      } else {
        CarriedAsk(s, site, w);
      }
    }
  }

  lemma {:induction false} FliesCarried(s: State, w: World)
    requires Carried(s.acts, s.observed, w)
    ensures Carried(Flies(s, w).acts, s.observed, w) && Flies(s, w).observed == s.observed
  {
    VisitCarried(s, GexFly, w);
    VisitCarried(s, AtpFly, w);
    VisitCarried(Visit(s, GexFly, w), AtpFly, w);
  }

  lemma {:induction false} CascadeCarried(a: State, n: nat, w: World)
    requires n <= |CASCADE| && a.acts == []
    ensures Carried(Upto(a, n, w).acts, a.observed, w) && Upto(a, n, w).observed == a.observed
  {
    if n > 0 {
      CascadeCarried(a, n - 1, w);
      if CASCADE[n - 1].At? {
        VisitCarried(Upto(a, n - 1, w), CASCADE[n - 1].site, w);
      } else {
        FliesCarried(Upto(a, n - 1, w), w);
      }
    }
  }

  /** The plan is one of the three that admission may let look on past their window, and it does. */
  predicate PastWindow(plan: Plan, w: World) {
    plan in {BreakoutPlan, RunawayPlan, HuntPlan} && w.admission.Some? && plan in w.admission.value.observed
  }

  /** A question is followed by an execution exactly when the strategy signalled, is not recorded only, and
      stands before open doors: the debit block for the four strategies that buy, a valid signal for the
      sweep, the credit gate for the sweep and the trend spread. */
  lemma {:induction false} SignalsAreTradedIff(s: State, w: World, i: nat)
    requires i < |Tick(s, w).acts| && Tick(s, w).acts[i].Asked?
    ensures var acts := Tick(s, w).acts;
            var site := acts[i].site;
      && (Placed(acts, i) <==>
            && w.evaluate(site, acts[..i]).Signal?
            && PlanOf(site) !in w.logged && !PastWindow(PlanOf(site), w)
            && (site == Orb ==> OrbPlan !in w.debitBlocked)
            && (site == Breakout ==> BreakoutPlan !in w.debitBlocked)
            && (site == Volt ==> VoltPlan !in w.debitBlocked)
            && (site == Runaway ==> RunawayPlan !in w.debitBlocked)
            && (site == Sweep ==> w.evaluate(site, acts[..i]) == Signal(true))
            && (site in {Sweep, Trend} ==> w.pairs(site, acts[..i + 1])))
      && (Placed(acts, i) ==> acts[i + 1] == Executed(site, w.execute(site, acts[..i + 1]).fills))
  {
    var a := Start(s, w);
    CascadeCarried(a, |CASCADE|, w);
    VisitCarried(a, Park, w);
    FliesCarried(Visit(a, Park, w), w);
    assert CarriedAt(Tick(s, w).acts, i, a.observed, w);
  }

  /** So whatever was executed had its question and its signal just before it, and its doors open. */
  lemma {:induction false} ExecutedThroughOpenDoors(s: State, w: World, i: nat)
    requires i < |Tick(s, w).acts| && Tick(s, w).acts[i].Executed?
    ensures var acts := Tick(s, w).acts;
            var site := acts[i].site;
      && i > 0 && acts[i - 1] == Asked(site, Start(s, w).admitted)
      && w.evaluate(site, acts[..i - 1]).Signal?
      && (site == Sweep ==> w.evaluate(site, acts[..i - 1]) == Signal(true))
      && (site in {Sweep, Trend} ==> w.pairs(site, acts[..i]))
      && (site in {Orb, Breakout, Volt, Runaway} ==> PlanOf(site) !in w.debitBlocked)
      && acts[i].filled == w.execute(site, acts[..i]).fills
  {
    var acts := Tick(s, w).acts;
    TickInOrder(s, w);
    assert Follows(acts, i);
    SignalsAreTradedIff(s, w, i - 1);
    OnlyThisTicksAdmission(s, None, {}, w);
  }

  // --- The rows a tick leaves -------------------------------------------------------------------

  /** The rows of the filled executions, in order. */
  function Entries(acts: seq<Act>, day: int): seq<Row> {
    if acts == [] then []
    else
      var init, act := acts[..|acts| - 1], acts[|acts| - 1];
      Entries(init, day) + if act.Executed? && act.filled then [Row(PlanOf(act.site), day)] else []
  }

  lemma {:induction false} EntriesSnoc(acts: seq<Act>, act: Act, day: int)
    ensures Entries(acts + [act], day)
            == Entries(acts, day) + if act.Executed? && act.filled then [Row(PlanOf(act.site), day)] else []
  {
    assert (acts + [act])[..|acts|] == acts;
  }

  ghost predicate Booked(before: seq<Row>, t: State, day: int) {
    t.rows == before + Entries(t.acts, day)
  }

  lemma {:induction false} VisitBooks(before: seq<Row>, s: State, site: Site, w: World)
    requires Booked(before, s, w.day)
    ensures Booked(before, Visit(s, site, w), w.day)
  {
    var t := Ask(s, site);
    EntriesSnoc(s.acts, Asked(site, s.admitted), w.day);
    EntriesSnoc(t.acts, Executed(site, w.execute(site, t.acts).fills), w.day);
  }

  lemma {:induction false} FliesBook(before: seq<Row>, s: State, w: World)
    requires Booked(before, s, w.day)
    ensures Booked(before, Flies(s, w), w.day)
  {
    VisitBooks(before, s, GexFly, w);
    VisitBooks(before, s, AtpFly, w);
    VisitBooks(before, Visit(s, GexFly, w), AtpFly, w);
  }

  lemma {:induction false} CascadeBooks(a: State, n: nat, w: World)
    requires n <= |CASCADE| && a.acts == []
    ensures Booked(a.rows, Upto(a, n, w), w.day)
  {
    if n > 0 {
      CascadeBooks(a, n - 1, w);
      if CASCADE[n - 1].At? {
        VisitBooks(a.rows, Upto(a, n - 1, w), CASCADE[n - 1].site, w);
      } else {
        FliesBook(a.rows, Upto(a, n - 1, w), w);
      }
    }
  }

  /** The rows a tick adds are exactly its filled executions, in order and dated its day. */
  lemma {:induction false} TradesAreFilledExecutions(s: State, w: World)
    ensures Tick(s, w).rows == s.rows + Entries(Tick(s, w).acts, w.day)
  {
    var a := Start(s, w);
    CascadeBooks(a, |CASCADE|, w);
    assert s.rows + [] == s.rows;
    VisitBooks(a.rows, a, Park, w);
    FliesBook(a.rows, Visit(a, Park, w), w);
  }

  /** A plan is asked at one place only, but for the sweep, which has two. */
  lemma {:induction false} OnePlaceForAPlan(a: Site, b: Site)
    ensures PlanOf(a) == PlanOf(b) <==> a == b || {a, b} == {GrantSweep, Sweep}
  {
    assert {a, b} == {GrantSweep, Sweep} ==> a in {GrantSweep, Sweep} && b in {GrantSweep, Sweep};
    if a != b && PlanOf(a) == PlanOf(b) {
      assert a in {GrantSweep, Sweep} && b in {GrantSweep, Sweep};
    }
  }

  // --- When a strategy is asked -----------------------------------------------------------------

  /** The plan is awake, and it is eligible or observed wherever there is a table that has an opinion on it;
      with admission computed and no table nothing is. */
  predicate Entitled(plan: Plan, w: World) {
    && plan !in w.unasked
    && match w.admission
       case None => true
       case Some(a) => w.rules.Some? && (plan in w.rules.value ==> plan in a.eligible || plan in a.observed)
  }

  /** The plan has no trade dated the day or later. */
  predicate Unentered(rows: seq<Row>, plan: Plan, day: int) {
    forall i :: 0 <= i < |rows| && rows[i].plan == plan ==> rows[i].day < day
  }

  /** What the source tests before it puts the site's strategy to the funnel. */
  ghost predicate Open(site: Site, acts: seq<Act>, rows: seq<Row>, w: World) {
    && (site in {GrantSweep, Hunt, Park, Orcs} ==> w.ready(site, acts))
    && (site in {Runaway, Park, GexFly, AtpFly} ==>
          w.countable(PlanOf(site), acts) && Unentered(rows, PlanOf(site), w.day))
    && (site in {GexFly, AtpFly} ==> w.tickChain)
  }

  lemma {:induction false} EntitledIff(s: State, t: State, site: Site, w: World)
    requires t.admitted == Start(s, w).admitted
    ensures MayAsk(t, site, w) <==> Entitled(PlanOf(site), w)
  {
  }

  lemma {:induction false} OpenIff(t: State, site: Site, w: World)
    ensures Open(site, t.acts, t.rows, w)
       <==> && Reached(t, site, w)
            && (IsFly(site) ==> w.tickChain && !Used(t, PlanOf(site), w))
  {
  }

  /** A visit asks its site when it can and no other. */
  lemma {:induction false} VisitAsksIff(t: State, at: Site, site: Site, w: World)
    requires NeverAt(t.acts, site)
    ensures Asked(site, t.admitted) in Visit(t, at, w).acts
       <==> at == site && !t.aborted && Reached(t, site, w) && MayAsk(t, site, w)
  {
    if at == site && !t.aborted && Reached(t, site, w) && MayAsk(t, site, w) {
      assert Visit(t, at, w).acts[|t.acts|] == Asked(site, t.admitted);
    } else if at == site {
      assert Visit(t, at, w) == t;
    } else {
      VisitElsewhere(t, at, site, w);
    }
  }

  /** The pin butterfly at the butterflies' stage. */
  lemma {:induction false} PinAskedIff(t: State, w: World)
    requires NeverAt(t.acts, GexFly)
    ensures Asked(GexFly, t.admitted) in Flies(t, w).acts
       <==> !t.aborted && w.tickChain && !Used(t, GexPlan, w) && MayAsk(t, GexFly, w)
  {
    var u := Visit(t, GexFly, w);
    VisitAsksIff(t, GexFly, GexFly, w);
    VisitElsewhere(t, AtpFly, GexFly, w);
    if Asked(GexFly, t.admitted) in u.acts {
      assert u.acts <= Visit(u, AtpFly, w).acts;
    } else {
      assert u == t;
    }
  }

  /** The other butterfly there: it yields to any signal of the pin butterfly. */
  lemma {:induction false} SecondAskedIff(t: State, w: World)
    requires NeverAt(t.acts, AtpFly)
    ensures Asked(AtpFly, t.admitted) in Flies(t, w).acts
       <==> && !t.aborted && w.tickChain && !Used(t, AtpPlan, w) && MayAsk(t, AtpFly, w)
            && !PinSignals(t, w)
  {
    var u := Visit(t, GexFly, w);
    VisitElsewhere(t, GexFly, AtpFly, w);
    VisitAsksIff(t, AtpFly, AtpFly, w);
    VisitAsksIff(u, AtpFly, AtpFly, w);
    if !t.aborted {
      VisitCutShort(t, GexFly, w);
    }
  }

  lemma {:induction false} FliesStayAway(t: State, site: Site, w: World)
    requires NeverAt(t.acts, site) && !IsFly(site)
    ensures Asked(site, t.admitted) !in Flies(t, w).acts
  {
    FliesNotYet(t, site, w);
  }

  /** Nothing below a site's own stage asks it. */
  lemma {:induction false} LaterStagesAskOthers(a: State, n: nat, site: Site, w: World)
    requires StageOf(site) < n <= |CASCADE| && NeverAt(Upto(a, StageOf(site) + 1, w).acts, site)
    ensures NeverAt(Upto(a, n, w).acts, site)
  {
    if StageOf(site) + 1 < n {
      LaterStagesAskOthers(a, n - 1, site, w);
      var t := Upto(a, n - 1, w);
      if CASCADE[n - 1].At? {
        VisitElsewhere(t, CASCADE[n - 1].site, site, w);
      } else {
        FliesNotYet(t, site, w);
      }
    }
  }

  /** What was asked at its stage or not at all, over the whole cascade. */
  lemma {:induction false} AskedAtItsStage(a: State, site: Site, w: World)
    requires a.acts == []
    ensures var t := Upto(a, StageOf(site), w);
      && t.admitted == a.admitted && NeverAt(t.acts, site)
      && (Asked(site, a.admitted) in Upto(a, |CASCADE|, w).acts
          <==> Asked(site, a.admitted) in Do(t, CASCADE[StageOf(site)], w).acts)
  {
    var n := StageOf(site);
    CascadeNotYet(a, n, site, w);
    CascadeExtends(a, 0, n, w);
    CascadeExtends(a, n + 1, |CASCADE|, w);
    assert Upto(a, n + 1, w) == Do(Upto(a, n, w), CASCADE[n], w);
    if Asked(site, a.admitted) !in Upto(a, n + 1, w).acts {
      OnlyItsQuestion(Upto(a, n, w), n, site, w);
      LaterStagesAskOthers(a, |CASCADE|, site, w);
    }
  }

  /** At its stage a site either is asked or leaves no act. */
  lemma {:induction false} OnlyItsQuestion(t: State, n: nat, site: Site, w: World)
    requires n == StageOf(site) && NeverAt(t.acts, site)
    requires Asked(site, t.admitted) !in Do(t, CASCADE[n], w).acts
    ensures NeverAt(Do(t, CASCADE[n], w).acts, site)
  {
    var u := Visit(t, GexFly, w);
    VisitAsksIff(t, site, site, w);
    if site == AtpFly {
      VisitElsewhere(t, GexFly, AtpFly, w);
      VisitAsksIff(u, AtpFly, AtpFly, w);
    } else if site == GexFly {
      PinAskedIff(t, w);
      VisitElsewhere(t, AtpFly, GexFly, w);
      assert u == t || Asked(GexFly, t.admitted) in u.acts;
      assert u.acts <= Visit(u, AtpFly, w).acts;
    } else {
      assert CASCADE[n] == At(site);
    }
  }

  /** Under the loss cap: a strategy is asked exactly when the tick reaches its stage, it is entitled, and what
      the source tests before it holds; the second butterfly only without a signal of the pin butterfly. */
  lemma {:induction false} AskedIff(s: State, site: Site, w: World)
    requires !w.capHit
    ensures Asked(site, Start(s, w).admitted) in Tick(s, w).acts
       <==> var t := Upto(Start(s, w), StageOf(site), w);
            && w.sessionOpen && (w.tickChain || w.fetchedChain) && !t.aborted
            && Entitled(PlanOf(site), w) && Open(site, t.acts, t.rows, w)
            && (site == AtpFly ==> !PinSignals(t, w))
  {
    var a := Start(s, w);
    var t := Upto(a, StageOf(site), w);
    AskedAtItsStage(a, site, w);
    EntitledIff(s, t, site, w);
    OpenIff(t, site, w);
    if site == GexFly {
      PinAskedIff(t, w);
    } else if site == AtpFly {
      SecondAskedIff(t, w);
    } else {
      assert CASCADE[StageOf(site)] == At(site);
      VisitAsksIff(t, site, site, w);
    }
  }

  /** At the loss cap: PARK first and then the butterflies, on the same terms, and only with admission
      computed. */
  lemma {:induction false} AskedAtTheCapIff(s: State, site: Site, w: World)
    requires w.capHit && site in {Park, GexFly, AtpFly}
    ensures Asked(site, Start(s, w).admitted) in Tick(s, w).acts
       <==> var t := if site == Park then Start(s, w) else Visit(Start(s, w), Park, w);
            && w.sessionOpen && w.admission.Some? && !t.aborted
            && Entitled(PlanOf(site), w) && Open(site, t.acts, t.rows, w)
            && (site == AtpFly ==> !PinSignals(t, w))
  {
    var a := Start(s, w);
    var t := Visit(a, Park, w);
    if site == Park {
      EntitledIff(s, a, Park, w);
      OpenIff(a, Park, w);
      VisitAsksIff(a, Park, Park, w);
      ParkIsAskedFirst(a, w);
    } else {
      VisitElsewhere(a, Park, site, w);
      EntitledIff(s, t, site, w);
      OpenIff(t, site, w);
      PinAskedIff(t, w);
      SecondAskedIff(t, w);
    }
  }

  lemma {:induction false} ParkIsAskedFirst(a: State, w: World)
    requires a.acts == []
    ensures Asked(Park, a.admitted) in Flies(Visit(a, Park, w), w).acts <==> Asked(Park, a.admitted) in Visit(a, Park, w).acts
  {
    var t := Visit(a, Park, w);
    DoExtends(t, Butterflies, w);
    if Asked(Park, a.admitted) !in t.acts {
      VisitAsksIff(a, Park, Park, w);
      FliesNotYet(t, Park, w);
    }
  }

  /** The pin butterfly signals when it is asked and its strategy says so, whatever becomes of the signal. */
  lemma {:induction false} PinSignalsIff(s: State, t: State, w: World)
    requires t.admitted == Start(s, w).admitted && w.tickChain
    ensures PinSignals(t, w)
       <==> && Entitled(GexPlan, w) && Open(GexFly, t.acts, t.rows, w)
            && w.evaluate(GexFly, t.acts).Signal?
  {
    EntitledIff(s, t, GexFly, w);
    OpenIff(t, GexFly, w);
  }

  /** Of a capped plan nothing is entered earlier in the tick, so the test is one of the table as the tick
      found it. */
  lemma {:induction false} UnenteredBefore(s: State, site: Site, w: World)
    requires site in {Runaway, Park, GexFly, AtpFly}
    ensures Unentered(Upto(Start(s, w), StageOf(site), w).rows, PlanOf(site), w.day)
       <==> Unentered(s.rows, PlanOf(site), w.day)
  {
    UntradedUntilAsked(Start(s, w), StageOf(site), site, w);
  }
}
