/**
 The accounting of one credit entry: the row its first fill books, and the unfilled remainder that keeps
 posting rungs for what is left until it is filled or abandoned, folding each fill into that row.
 */
module CreditRemainder {
  import opened Common
  import opened Ladder
  import opened CreditRung

  const MULTIPLIER := 100.0
  const LONE_STOP_PCT_OF_RISK := 0.15

  // --- The row's arithmetic ---------------------------------------------------------------------

  /** The premium stop a row is booked with: none for a trend spread, on the risk for a sweep. */
  datatype StopRule = NoStop | OnRisk(pct: real) | OnCredit(pct: real)

  function StopDistance(width: real, credit: real): Option<real> {
    if width <= 0.0 || credit <= 0.0 || width - credit <= 0.0 then None
    else Some((width - credit) * LONE_STOP_PCT_OF_RISK)
  }

  function EntryStop(rule: StopRule, width: real, credit: real): real {
    match rule
    case NoStop => 0.0
    case OnRisk(pct) =>
      var d := StopDistance(width, credit);
      if d.None? then credit * (1.0 + pct) else credit + d.value
    case OnCredit(pct) => credit * (1.0 + pct)
  }

  /** The percentage the remainder is registered with. */
  function StopPct(rule: StopRule): real {
    if rule.NoStop? then 0.0 else rule.pct
  }

  function AccretedStop(rule: StopRule, credit: real): real {
    if StopPct(rule) == 0.0 then 0.0 else credit * (1.0 + StopPct(rule))
  }

  /** A price a share over a number of contracts. */
  function Times(price: real, contracts: nat): real {
    price * contracts as real
  }

  function MaxLoss(width: real, credit: real, contracts: nat): real {
    Times(width - credit, contracts) * MULTIPLIER
  }

  function Blend(n1: nat, c1: real, n2: nat, c2: real): real {
    if n1 + n2 > 0 then (Times(c1, n1) + Times(c2, n2)) / (n1 + n2) as real else c2
  }

  // --- The entry --------------------------------------------------------------------------------

  datatype Terms = Terms(structure: string, width: real, rule: StopRule)

  datatype Booked = Booked(quantity: nat, credit: real)

  /**
   One intent: its walk; the row's contracts, basis, credit column and the figures computed from them; how
   many contracts were asked for and are left, and whether the remainder is still worked; the fills folded
   in; and what the broker really holds.
   */
  datatype Intent = Intent(
    walk: Option<Walk>, contracts: nat, premium: real, received: real, maxLoss: real, totalCost: real, stop: real,
    requested: nat, remaining: nat, active: bool, fills: seq<Booked>, held: nat)

  /** The fill a posting books: a quantity at a price. */
  function Bookable(p: Posting): Option<Booked> {
    if p.Confirmed? && p.fill.filled && p.fill.quantity > 0 && p.fill.netPrice.Some?
    then Some(Booked(p.fill.quantity, p.fill.netPrice.value))
    else None
  }

  function Actual(p: Posting): nat {
    if p.Confirmed? || p.Unconfirmed? then p.actual else 0
  }

  function Left(requested: nat, filled: nat): nat {
    if filled < requested then requested - filled else 0
  }

  /** The entry's own rung: nothing is recorded unless something filled. */
  function Enter(walk: Option<Walk>, q: Quote, credit: real, n: nat, t: Terms, v: Venue): (i: Intent)
    requires OnVenue(q)
  {
    var r := Post(walk, Order(q, t.structure, credit, n, t.width), v);
    match Bookable(r.posting)
    case None => Intent(r.walk, 0, 0.0, 0.0, 0.0, 0.0, 0.0, n, n, false, [], Actual(r.posting))
    case Some(b) =>
      var loss := MaxLoss(t.width, b.credit, b.quantity);
      Intent(r.walk, b.quantity, b.credit, b.credit, loss, loss, EntryStop(t.rule, t.width, b.credit), n,
             Left(n, b.quantity), b.quantity < n, [b], Actual(r.posting))
  }

  function Accrete(i: Intent, b: Booked, t: Terms): Intent {
    var n, c := i.contracts + b.quantity, Blend(i.contracts, i.premium, b.quantity, b.credit);
    var loss := MaxLoss(t.width, c, n);
    i.(contracts := n, premium := c, maxLoss := loss, totalCost := loss, stop := AccretedStop(t.rule, c),
       remaining := Left(i.remaining, b.quantity), fills := i.fills + [b])
  }

  /** What one supervision pass meets. */
  datatype Pass = Pass(
    parentOpen: bool, windowOpen: bool, hardClose: bool, listed: bool, walkDropped: bool, q: Quote, v: Venue)

  predicate Ends(i: Intent, p: Pass) {
    !p.parentOpen || !p.windowOpen || p.hardClose || i.remaining == 0
  }

  /** The intent after its rung: the walk as the rung left it, and any priced fill in the row. */
  function Fold(i: Intent, r: Rung, t: Terms): Intent {
    var j := i.(walk := r.walk, held := i.held + Actual(r.posting));
    match Bookable(r.posting)
    case None => j
    case Some(b) =>
      var k := Accrete(j, b, t);
      k.(active := k.remaining > 0)
  }

  /** The pass, given the rung it would post. */
  function Settle(i: Intent, p: Pass, r: Rung, t: Terms): Intent {
    if !i.active then i
    else if Ends(i, p) then i.(active := false)
    else if !p.listed then i
    else Fold(i, r, t)
  }

  /** The rung a pass would post for what is left. */
  function RungOf(i: Intent, p: Pass, t: Terms): Rung
    requires OnVenue(p.q)
  {
    var walk := if p.walkDropped then None else i.walk;
    Post(walk, Order(p.q, t.structure, 0.0, i.remaining, t.width), p.v)
  }

  function Supervise(i: Intent, p: Pass, t: Terms): Intent
    requires OnVenue(p.q)
  {
    Settle(i, p, RungOf(i, p, t), t)
  }

  predicate AllOnVenue(ps: seq<Pass>) {
    forall k :: 0 <= k < |ps| ==> OnVenue(ps[k].q)
  }

  /** The intent after a run of supervision passes. */
  function Worked(i: Intent, ps: seq<Pass>, t: Terms): Intent
    requires AllOnVenue(ps)
  {
    if ps == [] then i else Supervise(Worked(i, ps[..|ps| - 1], t), ps[|ps| - 1], t)
  }

  /** A credit position's row and its remainder. */
  class Position {
    const terms: Terms
    const key: string
    var contracts: nat
    var premium: real
    var received: real
    var maxLoss: real
    var totalCost: real
    var stop: real
    var requested: nat
    var remaining: nat
    var active: bool
    var fills: seq<Booked>
    var held: nat

    function Now(walk: Option<Walk>): Intent
      reads this
    {
      Intent(walk, contracts, premium, received, maxLoss, totalCost, stop, requested, remaining, active, fills, held)
    }

    /** The row a first fill of n requested contracts books. */
    constructor (b: Booked, n: nat, actual: nat, t: Terms, k: string)
      ensures terms == t && key == k
      ensures forall walk :: Now(walk) ==
                Intent(walk, b.quantity, b.credit, b.credit, MaxLoss(t.width, b.credit, b.quantity),
                       MaxLoss(t.width, b.credit, b.quantity), EntryStop(t.rule, t.width, b.credit), n,
                       Left(n, b.quantity), b.quantity < n, [b], actual)
    {
      terms, key := t, k;
      contracts, premium, received := b.quantity, b.credit, b.credit;
      maxLoss := MaxLoss(t.width, b.credit, b.quantity);
      totalCost := MaxLoss(t.width, b.credit, b.quantity);
      stop := EntryStop(t.rule, t.width, b.credit);
      requested, remaining, active := n, Left(n, b.quantity), b.quantity < n;
      fills, held := [b], actual;
    }

    method AccreteFill(b: Booked)
      modifies this
      ensures Now(None) == Accrete(old(Now(None)), b, terms)
    {
      var n1, c1 := contracts, premium;
      contracts := n1 + b.quantity;
      premium := Blend(n1, c1, b.quantity, b.credit);
      maxLoss := MaxLoss(terms.width, premium, contracts);
      totalCost := maxLoss;
      stop := AccretedStop(terms.rule, premium);
      remaining := Left(remaining, b.quantity);
      fills := fills + [b];
    }

    /** One pass: ends the remainder, or posts one rung for what is left and folds in what filled. */
    method SupervisePass(p: Pass, ladder: Registry)
      requires OnVenue(p.q) && (p.walkDropped ==> ladder.At(key).None?)
      modifies this, ladder
      ensures Now(ladder.At(key)) == Supervise(old(Now(ladder.At(key))), p, terms)
      ensures ladder.walks - {key} == old(ladder.walks) - {key}
    {
      if !active {
        return;
      }
      if !p.parentOpen || !p.windowOpen || p.hardClose || remaining == 0 {
        active := false;
        return;
      }
      if !p.listed {
        return;
      }
      var posting := ladder.PostCreditVertical(key, Order(p.q, terms.structure, 0.0, remaining, terms.width), p.v);
      held := held + Actual(posting);
      var booked := Bookable(posting);
      if booked.None? {
        return;
      }
      AccreteFill(booked.value);
      active := remaining > 0;
    }
  }

  /** The entry: posts its own rung, and opens a position only for what is confirmed filled at a price. */
  method ExecuteCondorLeg(ladder: Registry, key: string, q: Quote, credit: real, n: nat, t: Terms, v: Venue)
    returns (position: Option<Position>)
    requires OnVenue(q)
    modifies ladder
    ensures ladder.walks - {key} == old(ladder.walks) - {key}
    ensures var i := Enter(old(ladder.At(key)), q, credit, n, t, v);
            && ladder.At(key) == i.walk
            && (position.None? <==> i.contracts == 0)
            && (position.Some? ==>
                  && fresh(position.value) && position.value.key == key && position.value.terms == t
                  && position.value.Now(ladder.At(key)) == i)
  {
    var posting := ladder.PostCreditVertical(key, Order(q, t.structure, credit, n, t.width), v);
    var booked := Bookable(posting);
    if booked.None? {
      return None;
    }
    var p := new Position(booked.value, n, Actual(posting), t, key);
    position := Some(p);
  }

  // --- What a rung and a pass come to -----------------------------------------------------------

  /** The most n contracts can lose is their whole width less the credit collected, a hundred times over. */
  lemma {:induction false} MaxLossIs(width: real, credit: real, n: nat)
    ensures MaxLoss(width, credit, n) == 100.0 * (Times(width, n) - Times(credit, n))
    ensures Times(credit, n) == credit * n as real
  {
    var k := n as real;
    assert (width - credit) * k == width * k - credit * k;
  }

  /** What becomes of a rung: nothing is sent at a limit that is not positive; a positive one is held back exactly
      when the guards are not clear or the account cannot afford the most its contracts can lose, which is nothing
      for a credit past the width; what is sent is refused or answered as the venue does at that limit and size. */
  lemma {:induction false} WhatBecomesOfARung(walk: Option<Walk>, o: Order, v: Venue)
    requires OnVenue(o.q)
    ensures var p, limit := Post(walk, o, v).posting, Limit(walk, o.q, o.structure, o.fallback);
            var needed := if limit <= o.width then MaxLoss(o.width, limit, o.contracts) else 0.0;
      && (limit <= 0.0 ==> p == Withheld(0.0))
      && (limit > 0.0 ==>
            && (p == Withheld(limit) <==> !v.clearToPost || !v.affordable(needed))
            && (p.Withheld? ==> p == Withheld(limit))
            && (p.Rejected? <==> v.clearToPost && v.affordable(needed) && !v.accepts(limit, o.contracts))
            && (p.Rejected? ==> p == Rejected(limit))
            && (p.Unconfirmed? || p.Confirmed? ==>
                  p == match v.confirms(limit, o.contracts)
                       case Raised(actual) => Unconfirmed(limit, actual)
                       case Answered(fill, actual) => Confirmed(limit, fill, actual)))
  {
    var limit := Limit(walk, o.q, o.structure, o.fallback);
    LossAfforded(o.width - limit, o.contracts);
    assert BuyingPower(o, limit) == if limit <= o.width then MaxLoss(o.width, limit, o.contracts) else 0.0;
  }

  lemma {:induction false} LossAfforded(risk: real, n: nat)
    ensures RealMax(0.0, risk) * n as real * 100.0 == if risk >= 0.0 then Times(risk, n) * 100.0 else 0.0
  {
  }

  /** A fill is booked when it is confirmed, of some contracts, at a price; what the broker did counts even where the
      confirmation could not be read. */
  lemma {:induction false} BookedIff(p: Posting)
    ensures Bookable(p).Some?
       <==> p.Confirmed? && p.fill.filled && p.fill.quantity >= 1 && p.fill.netPrice.Some?
    ensures Bookable(p).Some? ==>
              && Bookable(p).value.quantity == p.fill.quantity
              && p.fill.netPrice == Some(Bookable(p).value.credit)
    ensures Actual(p) == match p
                         case Withheld(_) => 0
                         case Rejected(_) => 0
                         case Unconfirmed(_, actual) => actual
                         case Confirmed(_, _, actual) => actual
  {
  }

  /** The remainder is worked on after the entry exactly when a part of what was asked for was booked, and after a
      pass exactly when it was before, nothing called it off, and something is still left. */
  lemma {:induction false} RemainderStaysIff(walk: Option<Walk>, q: Quote, credit: real, n: nat, t: Terms, v: Venue,
                                             i: Intent, p: Pass)
    requires OnVenue(q) && OnVenue(p.q)
    ensures var e := Enter(walk, q, credit, n, t, v); e.active <==> 0 < e.contracts < n
    ensures Supervise(i, p, t).active
       <==> && i.active && i.remaining > 0
            && p.parentOpen && p.windowOpen && !p.hardClose
            && (p.listed ==> BookedBy(i, p, t) < i.remaining)
    ensures Supervise(i, p, t).remaining
            == if BookedBy(i, p, t) < i.remaining then i.remaining - BookedBy(i, p, t)
               else if BookedBy(i, p, t) == 0 then i.remaining else 0
  {
    var r := Post(walk, Order(q, t.structure, credit, n, t.width), v);
    BookedIff(r.posting);
    BookedIff(RungOf(i, p, t).posting);
  }

  /** Nothing is posted for the remainder but what is left, at the walk's price and never at a fallback, on the row's
      own structure; and only while it is worked, called off by nothing and listed. */
  lemma {:induction false} RemainderPostsIff(i: Intent, p: Pass, t: Terms)
    requires OnVenue(p.q)
    ensures BookedBy(i, p, t) > 0 ==>
              && i.active && i.remaining > 0 && p.parentOpen && p.windowOpen && !p.hardClose && p.listed && Usable(p.q)
    ensures Supervise(i, p, t).held > i.held ==>
              && i.active && i.remaining > 0 && p.parentOpen && p.windowOpen && !p.hardClose && p.listed && Usable(p.q)
  {
    WhatBecomesOfARung(if p.walkDropped then None else i.walk, Order(p.q, t.structure, 0.0, i.remaining, t.width), p.v);
    BookedIff(RungOf(i, p, t).posting);
  }

  /** A pass whose walk was dropped starts at the opening rung of its quote; any other goes on where the walk was. */
  lemma {:induction false} DroppedWalkStartsOver(i: Intent, p: Pass, t: Terms)
    requires OnVenue(p.q) && Usable(p.q)
    ensures p.walkDropped ==> RungOf(i, p, t).posting.limit == Rungs(p.q)[0]
    ensures !p.walkDropped && i.walk.Some? ==>
              RungOf(i, p, t).posting.limit == Offer(Retag(i.walk.value, t.structure), p.q)
  {
    var walk := if p.walkDropped then None else i.walk;
    WhatBecomesOfARung(walk, Order(p.q, t.structure, 0.0, i.remaining, t.width), p.v);
    OfferIsNotWorseThanMark(Priced(walk, p.q, t.structure).value, p.q);
  }

  // --- Conservation -----------------------------------------------------------------------------

  function Count(fills: seq<Booked>): nat {
    if fills == [] then 0 else Count(fills[..|fills| - 1]) + fills[|fills| - 1].quantity
  }

  /** The credit collected, a share a contract. */
  function Cash(fills: seq<Booked>): real {
    if fills == [] then 0.0
    else Cash(fills[..|fills| - 1]) + Times(fills[|fills| - 1].credit, fills[|fills| - 1].quantity)
  }

  /** The row says exactly what its fills add up to, and what is left is what was asked for less that. */
  predicate Balanced(i: Intent, t: Terms) {
    && i.contracts == Count(i.fills)
    && Times(i.premium, i.contracts) == Cash(i.fills)
    && i.maxLoss == i.totalCost == MaxLoss(t.width, i.premium, i.contracts)
    && i.remaining == Left(i.requested, i.contracts)
  }

  lemma {:induction false} BlendKeepsTheCash(n1: nat, c1: real, n2: nat, c2: real)
    requires n2 > 0
    ensures Times(Blend(n1, c1, n2, c2), n1 + n2) == Times(c1, n1) + Times(c2, n2)
  {
  }

  lemma {:induction false} AccreteKeepsBalance(i: Intent, b: Booked, t: Terms)
    requires Balanced(i, t) && b.quantity > 0
    ensures Balanced(Accrete(i, b, t), t)
  {
    var j := Accrete(i, b, t);
    BlendKeepsTheCash(i.contracts, i.premium, b.quantity, b.credit);
    assert j.fills[..|j.fills| - 1] == i.fills;
  }

  /** The balance is of the row, not of the walk, the broker or whether the remainder is still worked. */
  lemma {:induction false} BalanceIsOfTheRow(i: Intent, j: Intent, t: Terms)
    requires Balanced(i, t) && j == i.(walk := j.walk, held := j.held, active := j.active)
    ensures Balanced(j, t) && j.requested == i.requested
  {
  }

  lemma {:induction false} EnterBalances(walk: Option<Walk>, q: Quote, credit: real, n: nat, t: Terms, v: Venue)
    requires OnVenue(q) && Enter(walk, q, credit, n, t, v).contracts > 0
    ensures Balanced(Enter(walk, q, credit, n, t, v), t)
  {
    var i := Enter(walk, q, credit, n, t, v);
    assert i.fills[..0] == [];
    assert Count([]) == 0 && Cash([]) == 0.0;
  }

  lemma {:induction false} FoldBalances(i: Intent, r: Rung, t: Terms)
    requires Balanced(i, t)
    ensures Balanced(Fold(i, r, t), t) && Fold(i, r, t).requested == i.requested
  {
    if Bookable(r.posting).Some? {
      AccreteKeepsBalance(i, Bookable(r.posting).value, t);
      BalanceIsOfTheRow(Accrete(i, Bookable(r.posting).value, t), Fold(i, r, t), t);
    } else {
      BalanceIsOfTheRow(i, Fold(i, r, t), t);
    }
  }

  lemma {:induction false} SettleBalances(i: Intent, p: Pass, r: Rung, t: Terms)
    requires Balanced(i, t)
    ensures Balanced(Settle(i, p, r, t), t) && Settle(i, p, r, t).requested == i.requested
  {
    FoldBalances(i, r, t);
    BalanceIsOfTheRow(i, i.(active := false), t);
  }

  lemma {:induction false} PassBalances(i: Intent, p: Pass, t: Terms)
    requires OnVenue(p.q) && Balanced(i, t)
    ensures Balanced(Supervise(i, p, t), t) && Supervise(i, p, t).requested == i.requested
  {
    SettleBalances(i, p, RungOf(i, p, t), t);
  }

  /** Over every run of passes the row keeps its sum, its blended credit and its risk figures. */
  lemma {:induction false} EveryPassBalances(i: Intent, ps: seq<Pass>, t: Terms)
    requires AllOnVenue(ps) && Balanced(i, t)
    ensures Balanced(Worked(i, ps, t), t) && Worked(i, ps, t).requested == i.requested
  {
    if ps != [] {
      EveryPassBalances(i, ps[..|ps| - 1], t);
      PassBalances(Worked(i, ps[..|ps| - 1], t), ps[|ps| - 1], t);
    }
  }

  predicate Posts(i: Intent, p: Pass) {
    i.active && !Ends(i, p) && p.listed
  }

  /** The fill a pass books, if it posts and something fills at a price. */
  function BookedBy(i: Intent, p: Pass, t: Terms): nat
    requires OnVenue(p.q)
  {
    if Posts(i, p) && Bookable(RungOf(i, p, t).posting).Some? then Bookable(RungOf(i, p, t).posting).value.quantity
    else 0
  }

  lemma {:induction false} PassBooks(i: Intent, p: Pass, t: Terms)
    requires OnVenue(p.q)
    ensures Supervise(i, p, t).contracts == i.contracts + BookedBy(i, p, t)
    ensures Supervise(i, p, t).requested == i.requested
  {
    SettleBooks(i, p, RungOf(i, p, t), t);
  }

  lemma {:induction false} SettleBooks(i: Intent, p: Pass, r: Rung, t: Terms)
    ensures Settle(i, p, r, t).requested == i.requested
    ensures Settle(i, p, r, t).contracts
            == i.contracts + if Posts(i, p) && Bookable(r.posting).Some? then Bookable(r.posting).value.quantity else 0
  {
  }

  /** No pass of the run books more than was left when it posted. */
  ghost predicate NoOverrun(i: Intent, ps: seq<Pass>, t: Terms)
    requires AllOnVenue(ps)
  {
    forall k :: 0 <= k < |ps| ==> FitsAt(i, ps, k, t)
  }

  predicate FitsAt(i: Intent, ps: seq<Pass>, k: nat, t: Terms)
    requires AllOnVenue(ps) && k < |ps|
  {
    BookedBy(Worked(i, ps[..k], t), ps[k], t) <= Worked(i, ps[..k], t).remaining
  }

  lemma {:induction false} FitsSoFar(i: Intent, ps: seq<Pass>, t: Terms)
    requires AllOnVenue(ps) && ps != []
    ensures NoOverrun(i, ps, t) <==> NoOverrun(i, ps[..|ps| - 1], t) && FitsAt(i, ps, |ps| - 1, t)
  {
    var init := ps[..|ps| - 1];
    forall k | 0 <= k < |init| ensures FitsAt(i, init, k, t) == FitsAt(i, ps, k, t) {
      assert init[..k] == ps[..k] && init[k] == ps[k];
    }
  }

  lemma {:induction false} WithinRequestedIff(i: Intent, ps: seq<Pass>, t: Terms)
    requires AllOnVenue(ps) && Balanced(i, t) && i.contracts <= i.requested
    ensures Worked(i, ps, t).contracts <= i.requested <==> NoOverrun(i, ps, t)
  {
    if ps != [] {
      var init, p := ps[..|ps| - 1], ps[|ps| - 1];
      var j := Worked(i, init, t);
      WithinRequestedIff(i, init, t);
      EveryPassBalances(i, init, t);
      FitsSoFar(i, ps, t);
      PassBooks(j, p, t);
      assert j.remaining == Left(i.requested, j.contracts);
    }
  }

  /** Booked plus remaining is what was asked for exactly when no pass books more than was left when it
      posted. */
  lemma {:induction false} BookedPlusRemainingIff(i: Intent, ps: seq<Pass>, t: Terms)
    requires AllOnVenue(ps) && Balanced(i, t) && i.contracts <= i.requested
    ensures Worked(i, ps, t).contracts + Worked(i, ps, t).remaining == i.requested <==> NoOverrun(i, ps, t)
  {
    WithinRequestedIff(i, ps, t);
    EveryPassBalances(i, ps, t);
  }

  /** The venue never reports more filled than was posted; it may still hide, misprice or lose fills. */
  ghost predicate NeverOverreports(v: Venue) {
    forall limit, n :: v.confirms(limit, n).Answered? ==> Filled(v.confirms(limit, n).fill) <= n
  }

  lemma {:induction false} RungFits(walk: Option<Walk>, o: Order, v: Venue)
    requires OnVenue(o.q) && NeverOverreports(v)
    ensures Bookable(Post(walk, o, v).posting).Some? ==>
              Bookable(Post(walk, o, v).posting).value.quantity <= o.contracts
  {
    var limit := Limit(walk, o.q, o.structure, o.fallback);
    assert v.confirms(limit, o.contracts).Answered? ==> Filled(v.confirms(limit, o.contracts).fill) <= o.contracts;
  }

  /** From the entry on, against any venues that never report more than was posted, booked plus remaining is
      what was asked for. */
  lemma {:induction false} BookedPlusRemaining(walk: Option<Walk>, q: Quote, credit: real, n: nat, t: Terms, v: Venue,
                                               ps: seq<Pass>)
    requires OnVenue(q) && AllOnVenue(ps) && NeverOverreports(v)
    requires forall k :: 0 <= k < |ps| ==> NeverOverreports(ps[k].v)
    requires Enter(walk, q, credit, n, t, v).contracts > 0
    ensures var j := Worked(Enter(walk, q, credit, n, t, v), ps, t); j.contracts + j.remaining == n
  {
    var i := Enter(walk, q, credit, n, t, v);
    EnterBalances(walk, q, credit, n, t, v);
    RungFits(walk, Order(q, t.structure, credit, n, t.width), v);
    forall k | 0 <= k < |ps| ensures FitsAt(i, ps, k, t) {
      var j := Worked(i, ps[..k], t);
      RungFits(if ps[k].walkDropped then None else j.walk,
               Order(ps[k].q, t.structure, 0.0, j.remaining, t.width), ps[k].v);
    }
    BookedPlusRemainingIff(i, ps, t);
  }

  /** A venue that reports five where one was posted breaks it. */
  lemma {:induction false} OverReportBreaksTheCount(t: Terms, v: Venue)
    requires v.clearToPost && (forall x :: v.affordable(x)) && (forall x, n :: v.accepts(x, n))
    requires forall x, n :: v.confirms(x, n) == Answered(Fill(true, 5, Some(x)), n)
    ensures var q := Quote(1.0, 1.0, 0.05);
            var i := Intent(None, 1, 1.0, 1.0, 0.0, 0.0, 0.0, 2, 1, true, [Booked(1, 1.0)], 1);
            var j := Supervise(i, Pass(true, true, false, true, false, q, v), t);
            j.contracts == 6 && j.remaining == 0
  {
    PostsAnyway(None, Order(Quote(1.0, 1.0, 0.05), t.structure, 0.0, 1, t.width), v);
  }

  /** The venue never reports more than it was asked for, and reports what it did. */
  ghost predicate Truthful(v: Venue) {
    forall limit, n ::
      match v.confirms(limit, n)
      case Raised(actual) => actual == 0
      case Answered(fill, actual) =>
        && actual == Filled(fill) <= n
        && (actual > 0 ==> fill.netPrice.Some?)
  }

  lemma {:induction false} TruthfulRung(walk: Option<Walk>, o: Order, v: Venue)
    requires OnVenue(o.q) && Truthful(v)
    ensures var p := Post(walk, o, v).posting;
            Actual(p) == (if Bookable(p).Some? then Bookable(p).value.quantity else 0) <= o.contracts
  {
    var limit := Limit(walk, o.q, o.structure, o.fallback);
    assert match v.confirms(limit, o.contracts)
           case Raised(actual) => actual == 0
           case Answered(fill, actual) => actual == Filled(fill) <= o.contracts && (actual > 0 ==> fill.netPrice.Some?);
  }

  /** With confirmations that tell the truth the broker holds what the row says, never more than was asked. */
  lemma {:induction false} HeldIsBooked(i: Intent, ps: seq<Pass>, t: Terms)
    requires AllOnVenue(ps) && Balanced(i, t)
    requires i.held == i.contracts <= i.requested
    requires forall k :: 0 <= k < |ps| ==> Truthful(ps[k].v)
    ensures Worked(i, ps, t).held == Worked(i, ps, t).contracts <= i.requested
    ensures Worked(i, ps, t).contracts + Worked(i, ps, t).remaining == i.requested
  {
    EveryPassBalances(i, ps, t);
    if ps != [] {
      var init, p := ps[..|ps| - 1], ps[|ps| - 1];
      assert forall k :: 0 <= k < |init| ==> init[k] == ps[k];
      HeldIsBooked(i, init, t);
      var j := Worked(i, init, t);
      TruthfulRung(if p.walkDropped then None else j.walk,
                   Order(p.q, t.structure, 0.0, j.remaining, t.width), p.v);
    }
  }

  /** What the passes made the broker hold beyond what they booked. */
  function Unbooked(i: Intent, ps: seq<Pass>, t: Terms): int
    requires AllOnVenue(ps)
  {
    if ps == [] then 0
    else
      var init, p := ps[..|ps| - 1], ps[|ps| - 1];
      var j := Worked(i, init, t);
      Unbooked(i, init, t) + if Posts(j, p) then Actual(RungOf(j, p, t).posting) - BookedBy(j, p, t) else 0
  }

  /** Against any venues, what the broker holds beyond the row is exactly what the postings did beyond what
      they booked. */
  lemma {:induction false} HeldBeyondBooked(i: Intent, ps: seq<Pass>, t: Terms)
    requires AllOnVenue(ps)
    ensures Worked(i, ps, t).held - Worked(i, ps, t).contracts == i.held - i.contracts + Unbooked(i, ps, t)
  {
    if ps != [] {
      var init, p := ps[..|ps| - 1], ps[|ps| - 1];
      var j := Worked(i, init, t);
      HeldBeyondBooked(i, init, t);
      PassBooks(j, p, t);
      SettleHolds(j, p, RungOf(j, p, t), t);
    }
  }

  lemma {:induction false} SettleHolds(i: Intent, p: Pass, r: Rung, t: Terms)
    ensures Settle(i, p, r, t).held == i.held + if Posts(i, p) then Actual(r.posting) else 0
  {
  }

  /** A fill the confirmation could not read is bought again: the row says one, the broker holds two. */
  lemma {:induction false} UnreadFillIsPostedAgain(t: Terms, hidden: Venue, honest: Venue)
    requires hidden.clearToPost && (forall x :: hidden.affordable(x)) && (forall x, n :: hidden.accepts(x, n))
    requires honest.clearToPost && (forall x :: honest.affordable(x)) && (forall x, n :: honest.accepts(x, n))
    requires forall x, n :: hidden.confirms(x, n) == Answered(Fill(false, 0, None), n)
    requires forall x, n :: honest.confirms(x, n) == Answered(Fill(true, n, Some(x)), n)
    ensures var q := Quote(1.0, 1.0, 0.05);
            var i := Intent(None, 1, 1.0, 1.0, 0.0, 0.0, 0.0, 2, 1, true, [Booked(1, 1.0)], 1);
            var ps := [Pass(true, true, false, true, false, q, hidden),
                       Pass(true, true, false, true, false, q, honest)];
            AllOnVenue(ps) && Worked(i, ps, t).contracts == 2 && Worked(i, ps, t).held == 3
  {
    var q := Quote(1.0, 1.0, 0.05);
    var i := Intent(None, 1, 1.0, 1.0, 0.0, 0.0, 0.0, 2, 1, true, [Booked(1, 1.0)], 1);
    var p0 := Pass(true, true, false, true, false, q, hidden);
    var p1 := Pass(true, true, false, true, false, q, honest);
    var ps := [p0, p1];
    assert ps[..1] == [p0] && [p0][..0] == [];
    var j := Worked(i, [p0], t);
    assert Worked(i, [], t) == i;
    assert j == Supervise(i, p0, t);
    PostsAnyway(None, Order(q, t.structure, 0.0, 1, t.width), hidden);
    assert j.contracts == 1 && j.remaining == 1 && j.active && j.held == 2;
    PostsAnyway(j.walk, Order(q, t.structure, 0.0, 1, t.width), honest);
    assert Worked(i, ps, t) == Supervise(j, p1, t);
  }

  lemma {:induction false} PostsAnyway(walk: Option<Walk>, o: Order, v: Venue)
    requires OnVenue(o.q) && Usable(o.q)
    requires v.clearToPost && (forall x :: v.affordable(x)) && (forall x, n :: v.accepts(x, n))
    requires forall x, n :: v.confirms(x, n).Answered?
    ensures var limit := Limit(walk, o.q, o.structure, o.fallback);
            var answer := v.confirms(limit, o.contracts);
            Post(walk, o, v).posting == Confirmed(limit, answer.fill, answer.actual)
  {
    OfferIsNotWorseThanMark(Priced(walk, o.q, o.structure).value, o.q);
  }

  /** No pass moves the credit column, and none takes contracts off the row. */
  lemma {:induction false} CreditColumnNeverMoves(i: Intent, ps: seq<Pass>, t: Terms)
    requires AllOnVenue(ps)
    ensures Worked(i, ps, t).received == i.received && Worked(i, ps, t).contracts >= i.contracts
  {
    if ps != [] {
      CreditColumnNeverMoves(i, ps[..|ps| - 1], t);
    }
  }

  lemma {:induction false} FirstFillStays(i: Intent, ps: seq<Pass>, t: Terms)
    requires AllOnVenue(ps) && i.fills != []
    ensures i.fills <= Worked(i, ps, t).fills
  {
    if ps != [] {
      FirstFillStays(i, ps[..|ps| - 1], t);
      var j, p := Worked(i, ps[..|ps| - 1], t), ps[|ps| - 1];
      SettleExtends(j, p, RungOf(j, p, t), t);
    }
  }

  lemma {:induction false} SettleExtends(i: Intent, p: Pass, r: Rung, t: Terms)
    ensures i.fills <= Settle(i, p, r, t).fills
  {
  }

  lemma {:induction false} SumsFromTheFirst(fills: seq<Booked>)
    requires fills != []
    ensures Cash(fills) == Times(fills[0].credit, fills[0].quantity) + Cash(fills[1..])
    ensures Count(fills) == fills[0].quantity + Count(fills[1..])
  {
    var last := |fills| - 1;
    if last == 0 {
      assert fills[..0] == [] && fills[1..] == [];
    } else {
      SumsFromTheFirst(fills[..last]);
      assert fills[..last][1..] == fills[1..][..last - 1];
    }
  }

  lemma {:induction false} TimesAdds(c: real, m: nat, n: nat)
    ensures Times(c, m + n) == Times(c, m) + Times(c, n)
  {
  }

  /** From the entry on the credit column is the first fill's credit, and it states the row's basis exactly
      when the later fills collected that same credit on average. */
  lemma {:induction false} CreditColumnIsTheBasisIff(walk: Option<Walk>, q: Quote, credit: real, n: nat, t: Terms,
                                                     v: Venue, ps: seq<Pass>)
    requires OnVenue(q) && AllOnVenue(ps) && Enter(walk, q, credit, n, t, v).contracts > 0
    ensures var j := Worked(Enter(walk, q, credit, n, t, v), ps, t);
      && j.fills != [] && j.received == j.fills[0].credit
      && (j.received == j.premium <==> Cash(j.fills[1..]) == Times(j.fills[0].credit, Count(j.fills[1..])))
  {
    var i := Enter(walk, q, credit, n, t, v);
    EnterBalances(walk, q, credit, n, t, v);
    EveryPassBalances(i, ps, t);
    CreditColumnNeverMoves(i, ps, t);
    FirstFillStays(i, ps, t);
    BasisOfTheFills(Worked(i, ps, t), t);
  }

  lemma {:induction false} BasisOfTheFills(j: Intent, t: Terms)
    requires Balanced(j, t) && j.contracts > 0 && j.fills != []
    ensures j.fills[0].credit == j.premium
       <==> Cash(j.fills[1..]) == Times(j.fills[0].credit, Count(j.fills[1..]))
  {
    SumsFromTheFirst(j.fills);
    TimesAdds(j.fills[0].credit, j.fills[0].quantity, Count(j.fills[1..]));
    TimesInjective(j.premium, j.fills[0].credit, j.contracts);
  }

  lemma {:induction false} TimesInjective(a: real, b: real, n: nat)
    requires n > 0
    ensures Times(a, n) == Times(b, n) <==> a == b
  {
    var d := a - b;
    assert d * n as real == Times(a, n) - Times(b, n);
    if d > 0.0 {
      assert d * n as real > 0.0;
    } else if d < 0.0 {
      assert (-d) * n as real > 0.0;
    }
  }

  // --- The premium stop -------------------------------------------------------------------------

  /** What a run leaves in the stop: the entry's own until a fill is folded in, the restated one from then. */
  lemma {:induction false} StopAfter(i: Intent, ps: seq<Pass>, t: Terms)
    requires AllOnVenue(ps)
    ensures var j := Worked(i, ps, t);
      && |j.fills| >= |i.fills|
      && (|j.fills| == |i.fills| ==> j.stop == i.stop && j.premium == i.premium)
      && (|j.fills| > |i.fills| ==> j.stop == AccretedStop(t.rule, j.premium))
  {
    if ps != [] {
      StopAfter(i, ps[..|ps| - 1], t);
      var j, p := Worked(i, ps[..|ps| - 1], t), ps[|ps| - 1];
      SettleStop(j, p, RungOf(j, p, t), t);
    }
  }

  lemma {:induction false} SettleStop(i: Intent, p: Pass, r: Rung, t: Terms)
    ensures var j := Settle(i, p, r, t);
      || (j.fills == i.fills && j.stop == i.stop && j.premium == i.premium)
      || (|j.fills| == |i.fills| + 1 && j.stop == AccretedStop(t.rule, j.premium))
  {
  }

  /** Whether a row of these fills can keep its entry's rule once restated: a sweep's, whose stop is on the
      risk, needs the credit collected to balance the risk left, at the two percentages. */
  predicate StopSurvives(rule: StopRule, width: real, fills: seq<Booked>) {
    var collected, whole := Cash(fills), Times(width, Count(fills));
    match rule
    case NoStop => true
    case OnCredit(pct) => pct != 0.0 || collected == 0.0
    case OnRisk(pct) =>
      if 0.0 < collected < whole then pct != 0.0 && LONE_STOP_PCT_OF_RISK * (whole - collected) == pct * collected
      else pct != 0.0 || collected == 0.0
  }

  lemma {:induction false} TimesSign(a: real, n: nat)
    requires n > 0
    ensures Times(a, n) > 0.0 <==> a > 0.0
    ensures Times(a, n) == 0.0 <==> a == 0.0
  {
    if a > 0.0 {
      assert a * n as real > 0.0;
    } else if a < 0.0 {
      assert (-a) * n as real > 0.0;
    }
  }

  lemma {:induction false} TimesLinear(c: real, w: real, pct: real, n: nat)
    ensures Times(w - c, n) == Times(w, n) - Times(c, n)
    ensures Times((w - c) * LONE_STOP_PCT_OF_RISK, n) == LONE_STOP_PCT_OF_RISK * (Times(w, n) - Times(c, n))
    ensures Times(c * pct, n) == pct * Times(c, n)
  {
    var k := n as real;
    assert (w - c) * k == w * k - c * k;
    assert c * pct * k == pct * (c * k);
  }

  lemma {:induction false} StopsAgreeIff(i: Intent, t: Terms)
    requires Balanced(i, t) && i.contracts > 0
    ensures AccretedStop(t.rule, i.premium) == EntryStop(t.rule, t.width, i.premium)
       <==> StopSurvives(t.rule, t.width, i.fills)
  {
    var c, w, n, pct := i.premium, t.width, i.contracts, StopPct(t.rule);
    assert c * (1.0 + pct) == c + c * pct;
    TimesSign(c, n);
    TimesSign(w, n);
    TimesSign(w - c, n);
    TimesLinear(c, w, pct, n);
    TimesInjective((w - c) * LONE_STOP_PCT_OF_RISK, c * pct, n);
    if pct != 0.0 && c * pct == 0.0 {
      assert c == 0.0;
    }
  }

  /** Over every run, the row carries its entry's rule at the blended credit exactly when nothing was folded
      in, or the fills are ones that rule survives. */
  lemma {:induction false} AccretionKeepsTheStopIff(i: Intent, ps: seq<Pass>, t: Terms)
    requires AllOnVenue(ps) && Balanced(i, t) && i.contracts > 0
    requires i.stop == EntryStop(t.rule, t.width, i.premium)
    ensures var j := Worked(i, ps, t);
      j.stop == EntryStop(t.rule, t.width, j.premium)
      <==> |j.fills| == |i.fills| || StopSurvives(t.rule, t.width, j.fills)
  {
    StopAfter(i, ps, t);
    EveryPassBalances(i, ps, t);
    CreditColumnNeverMoves(i, ps, t);
    StopsAgreeIff(Worked(i, ps, t), t);
  }

  /** As shipped, a sweep's stop survives a later fill only when the credit collected is half the width of
      what was filled. */
  lemma {:induction false} ShippedSweepStopIff(fills: seq<Booked>, width: real)
    requires 0.0 < Cash(fills) < Times(width, Count(fills))
    ensures StopSurvives(OnRisk(0.15), width, fills) <==> 2.0 * Cash(fills) == Times(width, Count(fills))
  {
  }

  /** The stops in numbers: a trend spread has none; a sweep's entry puts it fifteen percent of the risk past a credit
      inside the width; and what is put on the credit is a percentage past it, which is none for none. */
  lemma {:induction false} StopsAre(rule: StopRule, width: real, credit: real)
    ensures rule.NoStop? ==> EntryStop(rule, width, credit) == 0.0 && AccretedStop(rule, credit) == 0.0
    ensures rule.OnRisk? && 0.0 < credit < width ==>
              100.0 * (EntryStop(rule, width, credit) - credit) == 15.0 * (width - credit)
    ensures rule.OnRisk? && !(0.0 < credit < width) ==> EntryStop(rule, width, credit) == credit + credit * rule.pct
    ensures rule.OnCredit? ==> EntryStop(rule, width, credit) == credit + credit * rule.pct
    ensures !rule.NoStop? && rule.pct != 0.0 ==> AccretedStop(rule, credit) == credit + credit * rule.pct
    ensures !rule.NoStop? && rule.pct == 0.0 ==> AccretedStop(rule, credit) == 0.0
  {
  }

  /** A one-wide credit on a five-wide sweep: booked with a stop of 1.60, restated at 1.15. */
  lemma {:induction false} SweepStopTightens(i: Intent, b: Booked, t: Terms)
    requires t.rule == OnRisk(0.15) && t.width == 5.0
    requires i.contracts == 1 && i.premium == 1.0 && b == Booked(1, 1.0)
    ensures EntryStop(t.rule, t.width, i.premium) == 1.6 && Accrete(i, b, t).stop == 1.15
  {
    assert Accrete(i, b, t).premium == 1.0;
  }
}
