/**
 The selling ladder of prices: open a quarter of the spread in from the ask, step one venue increment at
 a time toward mark, never below mark, and never re-offer a refused price unless mark has come up to it.
 */
module Ladder {
  import opened Common

  /** A two-sided quote and the venue's increment for it. */
  datatype Quote = Quote(bid: real, ask: real, inc: real)

  predicate OnVenue(q: Quote) {
    q.inc > 0.0
  }

  predicate Usable(q: Quote) {
    q.bid >= 0.0 && q.ask > 0.0 && q.ask >= q.bid
  }

  function Mark(q: Quote): real {
    (q.ask + q.bid) / 2.0
  }

  const START_FRACTION := 0.25
  const MAX_RUNGS := 24

  // --- The venue's grid -------------------------------------------------------------------------

  /** The price of a number of increments. */
  function Price(ticks: int, inc: real): real {
    ticks as real * inc
  }

  /** The least number of increments whose price is not below px: a sell snaps in our favour. */
  function TicksUp(px: real, inc: real): int
    requires inc > 0.0
  {
    -(-px / inc).Floor
  }

  function SnapUp(px: real, inc: real): real
    requires inc > 0.0
  {
    Price(TicksUp(px, inc), inc)
  }

  lemma {:induction false} PriceStep(k: int, inc: real)
    ensures Price(k + 1, inc) == Price(k, inc) + inc
  {
  }

  lemma {:induction false} PriceMonotone(j: int, k: int, inc: real)
    requires inc > 0.0
    ensures j < k <==> Price(j, inc) < Price(k, inc)
  {
    assert Price(k, inc) - Price(j, inc) == (k - j) as real * inc;
  }

  lemma {:induction false} UpIsNear(px: real, inc: real)
    requires inc > 0.0
    ensures px <= SnapUp(px, inc) < px + inc
  {
    var m, r := TicksUp(px, inc), -px / inc;
    assert r * inc == -px;
    var above, below := r + m as real, 1.0 - m as real - r;
    assert above >= 0.0 && below > 0.0;
    assert above * inc >= 0.0 && below * inc > 0.0;
    assert above * inc == r * inc + Price(m, inc);
    assert below * inc == inc - Price(m, inc) - r * inc;
  }

  lemma {:induction false} UpIsLeast(px: real, inc: real, k: int)
    requires inc > 0.0
    ensures px <= SnapUp(px, inc) < px + inc
    ensures Price(k, inc) >= px <==> k >= TicksUp(px, inc)
  {
    var m := TicksUp(px, inc);
    UpIsNear(px, inc);
    PriceStep(m - 1, inc);
    PriceMonotone(m - 1, k, inc);
    PriceMonotone(k, m - 1, inc);
    PriceMonotone(k, m, inc);
  }

  // --- The table of rungs -----------------------------------------------------------------------

  /** The opening rung: a quarter of the spread in from the ask. */
  function Opening(q: Quote): int
    requires OnVenue(q)
  {
    TicksUp(q.ask - (q.ask - q.bid) * START_FRACTION, q.inc)
  }

  function MarkTicks(q: Quote): int
    requires OnVenue(q)
  {
    TicksUp(Mark(q), q.inc)
  }

  /** How many rungs stand above the terminal one. */
  function Depth(q: Quote): (d: nat)
    requires OnVenue(q) && Usable(q)
    ensures d <= MAX_RUNGS
  {
    OpeningIsAboveMark(q);
    if Opening(q) - MarkTicks(q) < MAX_RUNGS then Opening(q) - MarkTicks(q) else MAX_RUNGS
  }

  lemma {:induction false} OpeningIsAboveMark(q: Quote)
    requires OnVenue(q) && Usable(q)
    ensures Opening(q) >= MarkTicks(q) >= 1
  {
    UpIsLeast(q.ask - (q.ask - q.bid) * START_FRACTION, q.inc, Opening(q));
    UpIsLeast(Mark(q), q.inc, Opening(q));
    UpIsLeast(Mark(q), q.inc, 0);
  }

  function TicksAt(q: Quote, i: nat): int
    requires OnVenue(q) && Usable(q) && i <= Depth(q)
  {
    if i < Depth(q) then Opening(q) - i else MarkTicks(q)
  }

  /** Every price the ladder will post: down from the opening rung by increments, ending at mark. */
  function Rungs(q: Quote): (t: seq<real>)
    requires OnVenue(q)
    ensures Usable(q) ==> 1 <= |t| <= MAX_RUNGS + 1
  {
    if !Usable(q) then []
    else if q.ask == q.bid then [Mark(q)]
    else seq(Depth(q) + 1, i requires 0 <= i <= Depth(q) => Price(TicksAt(q, i), q.inc))
  }

  /** The last rung. */
  function Terminal(q: Quote): real
    requires OnVenue(q) && Usable(q)
  {
    if q.ask == q.bid then Mark(q) else SnapUp(Mark(q), q.inc)
  }

  /** The rungs fall strictly from the first to the terminal one, all of them positive and not below mark. */
  lemma {:induction false} RungsDescend(q: Quote, i: nat, j: nat)
    requires OnVenue(q) && Usable(q) && i <= j
    ensures j < |Rungs(q)| ==> Rungs(q)[i] >= Rungs(q)[j] >= Terminal(q) >= Mark(q) > 0.0
    ensures i < j < |Rungs(q)| ==> Rungs(q)[i] > Rungs(q)[j]
    ensures j == |Rungs(q)| - 1 ==> Rungs(q)[j] == Terminal(q)
  {
    UpIsLeast(Mark(q), q.inc, 0);
    if q.ask > q.bid && j < |Rungs(q)| {
      OpeningIsAboveMark(q);
      PriceMonotone(TicksAt(q, j), TicksAt(q, i), q.inc);
      PriceMonotone(TicksAt(q, j), MarkTicks(q), q.inc);
    }
  }

  /** The first rung stays within one increment of a quarter of the spread in from the ask. */
  lemma {:induction false} OpensAQuarterIn(q: Quote)
    requires OnVenue(q) && Usable(q) && q.bid < q.ask && Opening(q) > MarkTicks(q)
    ensures 0.0 <= Rungs(q)[0] - (q.ask - (q.ask - q.bid) * 0.25) < q.inc
  {
    OpeningIsAboveMark(q);
    UpIsLeast(q.ask - (q.ask - q.bid) * START_FRACTION, q.inc, 0);
  }

  /** The table goes down an increment at a time for at most twenty-four rungs, and then to its last one. */
  lemma {:induction false} RungsStep(q: Quote, i: nat)
    requires OnVenue(q) && Usable(q)
    ensures |Rungs(q)| <= 25
    ensures i + 2 < |Rungs(q)| ==> Rungs(q)[i + 1] == Rungs(q)[i] - q.inc
    ensures |Rungs(q)| == 25 || (|Rungs(q)| >= 2 ==> Rungs(q)[|Rungs(q)| - 2] == Rungs(q)[|Rungs(q)| - 1] + q.inc)
  {
    if i + 2 < |Rungs(q)| {
      PriceStep(TicksAt(q, i + 1), q.inc);
    }
    PriceStep(MarkTicks(q), q.inc);
  }

  /** The walked rungs hold the terminal one exactly when they have gone down to it. */
  lemma {:induction false} MarkIsInIff(q: Quote, out: seq<real>)
    requires OnVenue(q) && Usable(q) && |out| <= Opening(q) - MarkTicks(q) + 1
    requires forall i :: 0 <= i < |out| ==> out[i] == Price(Opening(q) - i, q.inc)
    ensures SnapUp(Mark(q), q.inc) in out <==> |out| == Opening(q) - MarkTicks(q) + 1
  {
    if |out| == Opening(q) - MarkTicks(q) + 1 {
      OpeningIsAboveMark(q);
      assert out[|out| - 1] == SnapUp(Mark(q), q.inc);
    } else {
      forall i | 0 <= i < |out| ensures out[i] != SnapUp(Mark(q), q.inc) {
        PriceMonotone(MarkTicks(q), Opening(q) - i, q.inc);
      }
    }
  }

  /** The table, built rung by rung. */
  method BuildRungs(q: Quote) returns (out: seq<real>)
    requires OnVenue(q)
    ensures out == Rungs(q)
  {
    if !Usable(q) {
      return [];
    }
    var mark := Mark(q);
    if q.ask == q.bid {
      return [mark];
    }
    OpeningIsAboveMark(q);
    var px := SnapUp(q.ask - (q.ask - q.bid) * START_FRACTION, q.inc);
    out := [];
    var n := 0;
    while n < MAX_RUNGS && px > mark
      invariant 0 <= n <= MAX_RUNGS && n <= Opening(q) - MarkTicks(q) + 1
      invariant px == Price(Opening(q) - n, q.inc)
      invariant |out| == n && forall i :: 0 <= i < n ==> out[i] == Price(Opening(q) - i, q.inc)
      decreases MAX_RUNGS - n
    {
      UpIsLeast(mark, q.inc, Opening(q) - n);
      PriceStep(Opening(q) - n - 1, q.inc);
      out := out + [px];
      px := px - q.inc;
      n := n + 1;
    }
    UpIsLeast(mark, q.inc, Opening(q) - n);
    PriceMonotone(MarkTicks(q), Opening(q) - n, q.inc);
    var last := SnapUp(mark, q.inc);
    MarkIsInIff(q, out);
    if last !in out {
      out := out + [last];
    }
    assert |out| == Depth(q) + 1;
  }

  // --- The walk ---------------------------------------------------------------------------------

  /** One intent's walk: the rung reached, the best price refused on the structure it was earned on. */
  datatype Walk = Walk(rung: nat, bestRefused: Option<real>, structure: Option<string>)

  const FRESH := Walk(0, None, None)

  /** A change of structure keeps the rung and drops the refusal. */
  function Retag(w: Walk, structure: string): Walk {
    if w.structure.Some? && w.structure.value != structure then Walk(w.rung, None, Some(structure))
    else w.(structure := Some(structure))
  }

  /** The rung a walk stands on; past the last it stays there. */
  function RungAt(q: Quote, n: nat): real
    requires OnVenue(q) && Usable(q)
  {
    var table := Rungs(q);
    table[if n < |table| then n else |table| - 1]
  }

  lemma {:induction false} RungAtDescends(q: Quote, n: nat)
    requires OnVenue(q) && Usable(q)
    ensures RungAt(q, n) >= RungAt(q, n + 1) >= Terminal(q) >= Mark(q) > 0.0
    ensures n + 1 < |Rungs(q)| ==> RungAt(q, n) > RungAt(q, n + 1)
    ensures n + 1 >= |Rungs(q)| ==> RungAt(q, n) == Terminal(q)
  {
    var last := |Rungs(q)| - 1;
    if n < last {
      RungsDescend(q, n, n + 1);
    } else {
      RungsDescend(q, last, last);
    }
  }

  /** The price of the next attempt. */
  function Offer(w: Walk, q: Quote): real
    requires OnVenue(q) && Usable(q)
  {
    var rung := RungAt(q, w.rung);
    var px := if w.bestRefused.Some? && rung >= w.bestRefused.value then w.bestRefused.value - q.inc else rung;
    if px < Mark(q) then SnapUp(Mark(q), q.inc) else px
  }

  function Refuse(w: Walk, price: real): Walk {
    Walk(w.rung + 1,
         Some(if w.bestRefused.None? then price else RealMin(w.bestRefused.value, price)),
         w.structure)
  }

  /** Whatever the walk has been through, an offer is positive and not worse than mark. */
  lemma {:induction false} OfferIsNotWorseThanMark(w: Walk, q: Quote)
    requires OnVenue(q) && Usable(q)
    ensures Offer(w, q) >= Mark(q) > 0.0
  {
    RungAtDescends(q, w.rung);
    UpIsLeast(Mark(q), q.inc, 0);
  }

  /** An offer comes back up to the best refusal exactly when mark has, and is then mark itself. */
  lemma {:induction false} ReofferedIff(w: Walk, q: Quote)
    requires OnVenue(q) && Usable(q) && w.bestRefused.Some?
    ensures Offer(w, q) >= w.bestRefused.value <==> Terminal(q) >= w.bestRefused.value
    ensures Offer(w, q) >= w.bestRefused.value ==> Offer(w, q) == SnapUp(Mark(q), q.inc)
  {
    RungAtDescends(q, w.rung);
    UpIsLeast(Mark(q), q.inc, 0);
  }

  /** The offer is the walk's rung while that is under the best refusal; otherwise one increment under the refusal,
      unless that is worse than mark, which is offered then. */
  lemma {:induction false} OfferIs(w: Walk, q: Quote)
    requires OnVenue(q) && Usable(q)
    ensures var rung, offer := RungAt(q, w.rung), Offer(w, q);
      match w.bestRefused
      case None => offer == rung
      case Some(best) =>
        if rung < best then offer == rung
        else if best - q.inc >= (q.bid + q.ask) / 2.0 then offer == best - q.inc
        else offer == SnapUp(Mark(q), q.inc)
  {
    RungAtDescends(q, w.rung);
  }

  /** A refusal moves the walk one rung and keeps the best price refused; a change of structure keeps the rung and
      forgets the price. */
  lemma {:induction false} RefuseAndRetag(w: Walk, price: real, structure: string)
    ensures Refuse(w, price).rung == w.rung + 1 && Refuse(w, price).structure == w.structure
    ensures match Refuse(w, price).bestRefused
            case None => false
            case Some(best) => best <= price && (best == price || w.bestRefused == Some(best))
                               && (w.bestRefused.Some? ==> best <= w.bestRefused.value)
    ensures Retag(w, structure).rung == w.rung && Retag(w, structure).structure == Some(structure)
    ensures Retag(w, structure).bestRefused
            == if w.structure.None? || w.structure == Some(structure) then w.bestRefused else None
  {
  }

  function RefuseAll(w: Walk, prices: seq<real>): Walk {
    if prices == [] then w else Refuse(RefuseAll(w, prices[..|prices| - 1]), prices[|prices| - 1])
  }

  lemma {:induction false} BestIsTheLeast(w: Walk, prices: seq<real>)
    requires w.bestRefused.None? && prices != []
    ensures RefuseAll(w, prices).bestRefused.Some?
    ensures RefuseAll(w, prices).bestRefused.value in prices
    ensures forall p :: p in prices ==> RefuseAll(w, prices).bestRefused.value <= p
  {
    var init, last := prices[..|prices| - 1], prices[|prices| - 1];
    assert prices == init + [last];
    if init != [] {
      BestIsTheLeast(w, init);
    }
  }

  /** The ratchet over a whole walk: a refused price comes back only when mark has risen to some refusal. */
  lemma {:induction false} RefusedStaysOffTheTable(w: Walk, prices: seq<real>, q: Quote)
    requires OnVenue(q) && Usable(q) && w.bestRefused.None?
    ensures (exists p :: p in prices && Offer(RefuseAll(w, prices), q) >= p)
       <==> (exists p :: p in prices && Terminal(q) >= p)
    ensures forall p :: p in prices && Offer(RefuseAll(w, prices), q) >= p ==>
              Offer(RefuseAll(w, prices), q) == SnapUp(Mark(q), q.inc)
  {
    if prices != [] {
      BestIsTheLeast(w, prices);
      ReofferedIff(RefuseAll(w, prices), q);
    }
  }

  /** The walk after n refusals of its own offers in a book that does not move. */
  function Steady(q: Quote, n: nat): Walk
    requires OnVenue(q) && Usable(q)
  {
    if n == 0 then FRESH else Refuse(Steady(q, n - 1), Offer(Steady(q, n - 1), q))
  }

  /** In a book that does not move every rung is offered once, in order, and then mark, for good. */
  lemma {:induction false} SteadyBookWalksTheTable(q: Quote, n: nat)
    requires OnVenue(q) && Usable(q) && q.bid < q.ask
    ensures Offer(Steady(q, n), q) == RungAt(q, n) && Steady(q, n).rung == n
    ensures Steady(q, n).bestRefused == if n == 0 then None else Some(RungAt(q, n - 1))
  {
    UpIsLeast(Mark(q), q.inc, 0);
    RungAtDescends(q, n);
    if n > 0 {
      SteadyBookWalksTheTable(q, n - 1);
      RungAtDescends(q, n - 1);
      if n >= 2 {
        RungAtDescends(q, n - 2);
      }
    }
  }

  /** A refused price does come back: mark rises over it. */
  lemma {:induction false} MarkBringsARefusalBack()
    ensures var before, after := Quote(1.0, 1.2, 0.05), Quote(1.2, 1.4, 0.05);
            var w := Refuse(FRESH, Offer(FRESH, before));
            w.bestRefused == Some(1.15) && Offer(w, after) >= 1.3
  {
    var before, after := Quote(1.0, 1.2, 0.05), Quote(1.2, 1.4, 0.05);
    UpIsLeast(before.ask - (before.ask - before.bid) * START_FRACTION, before.inc, 23);
    UpIsLeast(before.ask - (before.ask - before.bid) * START_FRACTION, before.inc, 22);
    UpIsLeast(Mark(before), before.inc, 22);
    UpIsLeast(Mark(before), before.inc, 21);
    assert Opening(before) == 23 && MarkTicks(before) == 22;
    OfferIsNotWorseThanMark(Refuse(FRESH, Offer(FRESH, before)), after);
  }
}
