/**
 Runs on one key: the entry's and the remainder's postings, over quotes that move, structures that are
 re-selected and venues that answer as they like, and the registry dropping a walk that nothing has touched
 for an hour.  What a walk has reached and remembers is told here from the log of what happened, and the
 limits posted are held against that log.
 */
module CreditWalk {
  import opened Common
  import opened Ladder
  import opened CreditRung

  /** What happens to the key: a rung is posted, or its walk is dropped as stale. */
  datatype Step = Dropped | Posted(o: Order, v: Venue)

  predicate AllOnVenue(steps: seq<Step>) {
    forall k :: 0 <= k < |steps| && steps[k].Posted? ==> OnVenue(steps[k].o.q)
  }

  function After(walk: Option<Walk>, step: Step): Option<Walk>
    requires step.Posted? ==> OnVenue(step.o.q)
  {
    match step
    case Dropped => None
    case Posted(o, v) => Post(walk, o, v).walk
  }

  /** The key's walk after the first n steps. */
  function WalkAt(steps: seq<Step>, n: nat): Option<Walk>
    requires n <= |steps| && AllOnVenue(steps)
  {
    if n == 0 then None else After(WalkAt(steps, n - 1), steps[n - 1])
  }

  // --- The log ----------------------------------------------------------------------------------

  /** Filled whole; placed but not filled whole, or not confirmed; or never placed. */
  datatype Outcome = Whole | Missed | NotPlaced

  /** One step in the log: a drop, or a posting with whether its quote was usable, its structure, its limit
      and what became of it. */
  datatype Entry = Gone | Posting(usable: bool, structure: string, limit: real, outcome: Outcome)

  function OutcomeOf(p: CreditRung.Posting, contracts: nat): Outcome {
    match p
    case Withheld(_) => NotPlaced
    case Rejected(_) => NotPlaced
    case Unconfirmed(_, _) => Missed
    case Confirmed(_, fill, _) => if Filled(fill) >= contracts then Whole else Missed
  }

  /** What a step leaves in the log, given the walk in hand. */
  function Logged(walk: Option<Walk>, step: Step): Entry
    requires step.Posted? ==> OnVenue(step.o.q)
  {
    match step
    case Dropped => Gone
    case Posted(o, v) =>
      Posting(Usable(o.q), o.structure, Limit(walk, o.q, o.structure, o.fallback),
              OutcomeOf(Post(walk, o, v).posting, o.contracts))
  }

  function Log(steps: seq<Step>): (es: seq<Entry>)
    requires AllOnVenue(steps)
    ensures |es| == |steps| && forall k :: 0 <= k < |es| ==> es[k] == Logged(WalkAt(steps, k), steps[k])
  {
    seq(|steps|, k requires 0 <= k < |steps| => Logged(WalkAt(steps, k), steps[k]))
  }

  /** A whole fill clears the walk, and a drop loses it. */
  predicate Ends(e: Entry) {
    e.Gone? || e.outcome.Whole?
  }

  /** Some quote has been usable since the walk last ended. */
  predicate Begun(es: seq<Entry>, n: nat)
    requires n <= |es|
  {
    n > 0 && !Ends(es[n - 1]) && (Begun(es, n - 1) || es[n - 1].usable)
  }

  /** A miss with a walk to remember it. */
  predicate Remembered(es: seq<Entry>, k: nat)
    requires k < |es|
  {
    es[k].Posting? && es[k].outcome.Missed? && (Begun(es, k) || es[k].usable)
  }

  /** The remembered misses since the walk last ended. */
  function Misses(es: seq<Entry>, n: nat): nat
    requires n <= |es|
  {
    if n == 0 || Ends(es[n - 1]) then 0
    else Misses(es, n - 1) + if Remembered(es, n - 1) then 1 else 0
  }

  /** The structure last priced since the walk last ended. */
  function PricedLast(es: seq<Entry>, n: nat): Option<string>
    requires n <= |es|
  {
    if n == 0 || Ends(es[n - 1]) then None
    else if es[n - 1].usable then Some(es[n - 1].structure)
    else PricedLast(es, n - 1)
  }

  /** The posting prices another structure than the one in hand. */
  predicate Changes(es: seq<Entry>, k: nat)
    requires k < |es|
  {
    es[k].Posting? && es[k].usable && PricedLast(es, k) != Some(es[k].structure)
  }

  /** The limits missed since the walk last ended and the structure last changed. */
  function Standing(es: seq<Entry>, n: nat): seq<real>
    requires n <= |es|
    decreases n, 0
  {
    if n == 0 || Ends(es[n - 1]) then []
    else Against(es, n - 1) + if Remembered(es, n - 1) then [es[n - 1].limit] else []
  }

  /** The missed limits that stand against a posting: none when it changes the structure. */
  function Against(es: seq<Entry>, k: nat): seq<real>
    requires k < |es|
    decreases k, 1
  {
    if Changes(es, k) then [] else Standing(es, k)
  }

  // --- What the walk is -------------------------------------------------------------------------

  /** One posting: a whole fill ends the walk, a miss moves it, and nothing else does. */
  lemma {:induction false} OnePosting(walk: Option<Walk>, o: Order, v: Venue)
    requires OnVenue(o.q)
    ensures var r, priced := Post(walk, o, v), Priced(walk, o.q, o.structure);
      && (priced.Some? <==> walk.Some? || Usable(o.q))
      && (!r.posting.Withheld? ==> r.posting.limit == Limit(walk, o.q, o.structure, o.fallback))
      && r.walk == match OutcomeOf(r.posting, o.contracts)
                   case Whole => None
                   case Missed => Refused(priced, Limit(walk, o.q, o.structure, o.fallback))
                   case NotPlaced => priced
  {
  }

  /** The walk's best refusal is the least of the limits. */
  predicate Remembers(best: Option<real>, limits: seq<real>) {
    if limits == [] then best.None?
    else best.Some? && best.value in limits && forall p :: p in limits ==> best.value <= p
  }

  lemma {:induction false} RefuseKeepsLeast(w: Walk, limits: seq<real>, price: real)
    requires Remembers(w.bestRefused, limits)
    ensures Remembers(Refuse(w, price).bestRefused, limits + [price])
  {
  }

  /** The walk is what the log says: it exists when a quote has been usable since it last ended, its rung
      counts the misses since, and it remembers the least limit missed on the structure in hand. */
  ghost predicate Told(walk: Option<Walk>, es: seq<Entry>, n: nat)
    requires n <= |es|
  {
    && (walk.Some? <==> Begun(es, n))
    && (walk.Some? ==>
          && walk.value.rung == Misses(es, n)
          && PricedLast(es, n).Some? && walk.value.structure == PricedLast(es, n)
          && Remembers(walk.value.bestRefused, Standing(es, n)))
    && (walk.None? ==> Misses(es, n) == 0 && PricedLast(es, n).None? && Standing(es, n) == [])
  }

  /** The walk as a posting prices it remembers what stands against the posting. */
  lemma {:induction false} PricedIsTold(walk: Option<Walk>, o: Order, es: seq<Entry>, n: nat)
    requires n < |es| && Told(walk, es, n)
    requires es[n].Posting? && es[n].usable == Usable(o.q) && es[n].structure == o.structure
    ensures var priced := Priced(walk, o.q, o.structure);
      && (priced.None? ==> Against(es, n) == [])
      && (priced.Some? ==> Remembers(priced.value.bestRefused, Against(es, n)))
  {
  }

  lemma {:induction false} ToldNext(walk: Option<Walk>, o: Order, v: Venue, es: seq<Entry>, n: nat)
    requires OnVenue(o.q) && n < |es| && Told(walk, es, n) && es[n] == Logged(walk, Posted(o, v))
    ensures Told(Post(walk, o, v).walk, es, n + 1)
  {
    OnePosting(walk, o, v);
    PricedIsTold(walk, o, es, n);
    var priced := Priced(walk, o.q, o.structure);
    if priced.Some? {
      RefuseKeepsLeast(priced.value, Against(es, n), es[n].limit);
    }
    assert Against(es, n) + [] == Against(es, n);
  }

  lemma {:induction false} ToldAfter(walk: Option<Walk>, step: Step, es: seq<Entry>, n: nat)
    requires (step.Posted? ==> OnVenue(step.o.q)) && n < |es| && Told(walk, es, n) && es[n] == Logged(walk, step)
    ensures Told(After(walk, step), es, n + 1)
  {
    if step.Posted? {
      ToldNext(walk, step.o, step.v, es, n);
    }
  }

  /** Over every run of postings and drops, the walk is what the log tells. */
  lemma {:induction false} WalkIsTold(steps: seq<Step>, n: nat)
    requires n <= |steps| && AllOnVenue(steps)
    ensures Told(WalkAt(steps, n), Log(steps), n)
  {
    if n > 0 {
      WalkIsTold(steps, n - 1);
      ToldAfter(WalkAt(steps, n - 1), steps[n - 1], Log(steps), n - 1);
    }
  }

  function MissedIn(es: seq<Entry>, a: nat, n: nat): nat
    requires a <= n <= |es|
  {
    if a == n then 0
    else MissedIn(es, a, n - 1) + if es[n - 1].Posting? && es[n - 1].outcome.Missed? then 1 else 0
  }

  lemma {:induction false} MissesAreCounted(es: seq<Entry>, a: nat, n: nat)
    requires a < n <= |es| && !Begun(es, a) && es[a].Posting? && es[a].usable && Misses(es, a) == 0
    requires forall k :: a <= k < n ==> !Ends(es[k])
    ensures Begun(es, n) && Misses(es, n) == MissedIn(es, a, n)
  {
    if a < n - 1 {
      MissesAreCounted(es, a, n - 1);
    } else {
      assert MissedIn(es, a, a) == 0;
    }
  }

  /** Between clears and drops: from the first usable quote since the walk last ended, the rung reached is the
      number of placed orders that did not fill whole. */
  lemma {:induction false} RungCountsMisses(steps: seq<Step>, a: nat, n: nat)
    requires a < n <= |steps| && AllOnVenue(steps)
    requires WalkAt(steps, a).None? && steps[a].Posted? && Usable(steps[a].o.q)
    requires forall k :: a <= k < n ==> !Ends(Log(steps)[k])
    ensures WalkAt(steps, n).Some? && WalkAt(steps, n).value.rung == MissedIn(Log(steps), a, n)
  {
    WalkIsTold(steps, a);
    MissesAreCounted(Log(steps), a, n);
    WalkIsTold(steps, n);
  }

  // --- What is posted next ----------------------------------------------------------------------

  /** The least the order can come down to: the terminal rung, or the fallback when the quote is not usable. */
  function Lowest(o: Order): real
    requires OnVenue(o.q)
  {
    if Usable(o.q) then Terminal(o.q) else o.fallback
  }

  /** A price is not under every one of the limits. */
  predicate Reaches(price: real, limits: seq<real>) {
    exists p :: p in limits && price >= p
  }

  /** A posting, with any quote, reaches some limit standing against it exactly when the lowest it can come
      down to does; and on a usable quote it is then mark itself. */
  lemma {:induction false} LimitsFallOnAStructure(steps: seq<Step>, n: nat)
    requires n < |steps| && AllOnVenue(steps) && steps[n].Posted?
    ensures var limit, o, against := Log(steps)[n].limit, steps[n].o, Against(Log(steps), n);
      && (Reaches(limit, against) <==> Reaches(Lowest(o), against))
      && (Usable(o.q) && Reaches(limit, against) ==> limit == SnapUp(Mark(o.q), o.q.inc))
  {
    var es, o := Log(steps), steps[n].o;
    WalkIsTold(steps, n);
    PricedIsTold(WalkAt(steps, n), o, es, n);
    if Usable(o.q) && Against(es, n) != [] {
      ReofferedIff(Priced(WalkAt(steps, n), o.q, o.structure).value, o.q);
    }
  }

  /** The steps from a to n neither end the walk nor price another structure. */
  ghost predicate OneWalk(es: seq<Entry>, a: nat, n: nat, structure: string)
    requires a <= n <= |es|
  {
    forall k :: a <= k < n ==> !Ends(es[k]) && (es[k].usable ==> es[k].structure == structure)
  }

  /** A remembered miss on the structure: priced for it, or posted at the fallback while it was in hand. */
  predicate MissedOn(es: seq<Entry>, a: nat, structure: string)
    requires a < |es|
  {
    && Remembered(es, a)
    && if es[a].usable then es[a].structure == structure else PricedLast(es, a) == Some(structure)
  }

  lemma {:induction false} MissStands(es: seq<Entry>, a: nat, n: nat, structure: string)
    requires a < n <= |es| && OneWalk(es, a, n, structure) && MissedOn(es, a, structure)
    ensures es[a].limit in Standing(es, n) && PricedLast(es, n) == Some(structure)
  {
    if a < n - 1 {
      MissStands(es, a, n - 1, structure);
    }
  }

  lemma {:induction false} MissStandsAgainst(es: seq<Entry>, a: nat, n: nat)
    requires a < n < |es| && es[n].Posting? && OneWalk(es, a, n, es[n].structure) && MissedOn(es, a, es[n].structure)
    ensures forall price :: price >= es[a].limit ==> Reaches(price, Against(es, n))
  {
    MissStands(es, a, n, es[n].structure);
  }

  /** Between clears and drops, on one structure, a new limit is under every limit that missed with a walk to
      remember it, unless the lowest it can come down to reaches one of them; on a usable quote it is then mark. */
  lemma {:induction false} NewLimitIsUnderEveryMiss(steps: seq<Step>, a: nat, n: nat)
    requires a < n < |steps| && AllOnVenue(steps) && steps[n].Posted?
    requires OneWalk(Log(steps), a, n, steps[n].o.structure) && MissedOn(Log(steps), a, steps[n].o.structure)
    ensures || Log(steps)[n].limit < Log(steps)[a].limit
            || (&& Reaches(Lowest(steps[n].o), Against(Log(steps), n))
                && (Usable(steps[n].o.q) ==> Log(steps)[n].limit == SnapUp(Mark(steps[n].o.q), steps[n].o.q.inc)))
  {
    MissStandsAgainst(Log(steps), a, n);
    LimitsFallOnAStructure(steps, n);
  }

  // --- How a missed limit comes back ------------------------------------------------------------

  /** A venue that takes every order and fills none. */
  const NO_FILL := Venue(true, limit => true, (limit, n) => true, (limit, n) => Answered(Fill(false, 0, None), 0))

  /** Once the walk is dropped: in a book that does not move the opening rung, missed before, is posted again,
      with mark under it. */
  lemma {:induction false} DropBringsAMissBack()
    ensures var o := Order(Quote(1.0, 1.2, 0.05), "S", 0.0, 1, 5.0);
            var steps := [Posted(o, NO_FILL), Dropped, Posted(o, NO_FILL)];
      && Log(steps)[0] == Posting(true, "S", 1.15, Missed)
      && Log(steps)[2].limit == 1.15 && Terminal(o.q) == 1.1
  {
    var o := Order(Quote(1.0, 1.2, 0.05), "S", 0.0, 1, 5.0);
    var steps := [Posted(o, NO_FILL), Dropped, Posted(o, NO_FILL)];
    UpIsLeast(o.q.ask - (o.q.ask - o.q.bid) * START_FRACTION, o.q.inc, 23);
    UpIsLeast(o.q.ask - (o.q.ask - o.q.bid) * START_FRACTION, o.q.inc, 22);
    UpIsLeast(Mark(o.q), o.q.inc, 22);
    UpIsLeast(Mark(o.q), o.q.inc, 21);
    assert Opening(o.q) == 23 && MarkTicks(o.q) == 22;
    assert WalkAt(steps, 0) == None && WalkAt(steps, 2) == None;
  }

  /** And without a usable quote: the fallback is posted over a miss the walk remembers. */
  lemma {:induction false} FallbackGoesOverAMiss()
    ensures var o, blind := Order(Quote(1.0, 1.0, 0.05), "S", 0.0, 1, 5.0), Order(Quote(0.0, 0.0, 0.05), "S", 2.0, 1, 5.0);
            var steps := [Posted(o, NO_FILL), Posted(blind, NO_FILL)];
      && MissedOn(Log(steps), 0, "S") && Log(steps)[0].limit == 1.0
      && WalkAt(steps, 1).Some? && Log(steps)[1].limit == 2.0
  {
    var o, blind := Order(Quote(1.0, 1.0, 0.05), "S", 0.0, 1, 5.0), Order(Quote(0.0, 0.0, 0.05), "S", 2.0, 1, 5.0);
    var steps := [Posted(o, NO_FILL), Posted(blind, NO_FILL)];
    assert WalkAt(steps, 0) == None;
    assert Rungs(o.q) == [1.0];
  }
}
