/**
 One rung of a credit vertical and the accounting around it: the structure's quote, the one placer that
 posts, confirms and then clears or refuses the walk, the row a fill books, and the remainder of a partial
 fill walking on until it is filled or abandoned.
 */
module CreditRung {
  import opened Common
  import opened Ladder

  // --- The structure quote ----------------------------------------------------------------------

  datatype Contract = Contract(bid: real, ask: real)

  function Mid(c: Contract): real {
    (c.bid + c.ask) / 2.0
  }

  /** We sell the spread: the worst credit hits both quotes, the best rests on both. */
  function StructureQuote(short: Contract, long: Contract, inc: real): Quote {
    Quote(RealMax(0.0, short.bid - long.ask), RealMax(0.0, short.ask - long.bid), inc)
  }

  /** The structure's mark is never under the difference of the mids, and equals it iff no clamp binds. */
  lemma {:induction false} StructureMark(short: Contract, long: Contract, inc: real)
    ensures Mark(StructureQuote(short, long, inc)) >= Mid(short) - Mid(long)
    ensures Mark(StructureQuote(short, long, inc)) == Mid(short) - Mid(long)
       <==> short.bid >= long.ask && short.ask >= long.bid
  {
    var best, worst := short.ask - long.bid, short.bid - long.ask;
    assert Mid(short) - Mid(long) == (best + worst) / 2.0;
  }

  /** The quote is the range of what selling one and buying the other can bring at prices inside their own quotes,
      cut off at zero: its ask and its bid are the best and the worst of them. */
  lemma {:induction false} StructureQuoteIsTheRange(short: Contract, long: Contract, inc: real, sold: real, bought: real)
    requires short.bid <= sold <= short.ask && long.bid <= bought <= long.ask
    ensures var q := StructureQuote(short, long, inc);
      && q.bid <= RealMax(0.0, sold - bought) <= q.ask && q.inc == inc
      && (sold == short.bid && bought == long.ask ==> q.bid == RealMax(0.0, sold - bought))
      && (sold == short.ask && bought == long.bid ==> q.ask == RealMax(0.0, sold - bought))
  {
  }

  // --- The placer -------------------------------------------------------------------------------

  datatype Fill = Fill(filled: bool, quantity: nat, netPrice: Option<real>)

  /** What a confirmation reports, beside what the broker really did with the order. */
  datatype Confirmation = Raised(actual: nat) | Answered(fill: Fill, actual: nat)

  /** The broker and the guards before it, as functions of the order's limit and size. */
  datatype Venue = Venue(
    clearToPost: bool,
    affordable: real -> bool,
    accepts: (real, nat) -> bool,
    confirms: (real, nat) -> Confirmation)

  /** What became of one rung. */
  datatype Posting =
    | Withheld(limit: real)
    | Rejected(limit: real)
    | Unconfirmed(limit: real, actual: nat)
    | Confirmed(limit: real, fill: Fill, actual: nat)

  datatype Rung = Rung(walk: Option<Walk>, posting: Posting)

  /** The intent's walk as pricing leaves it; an unusable quote does not touch it. */
  function Priced(walk: Option<Walk>, q: Quote, structure: string): Option<Walk> {
    if Usable(q) then Some(Retag(if walk.Some? then walk.value else FRESH, structure)) else walk
  }

  function Limit(walk: Option<Walk>, q: Quote, structure: string, fallback: real): real
    requires OnVenue(q)
  {
    if Usable(q) then Offer(Priced(walk, q, structure).value, q) else fallback
  }

  function Refused(walk: Option<Walk>, price: real): Option<Walk> {
    if walk.None? then None else Some(Refuse(walk.value, price))
  }

  function Filled(fill: Fill): nat {
    if fill.filled then fill.quantity else 0
  }

  /** What is posted: the structure at a quote, its size and width, and the credit to fall back on. */
  datatype Order = Order(q: Quote, structure: string, fallback: real, contracts: nat, width: real)

  function BuyingPower(o: Order, limit: real): real {
    RealMax(0.0, o.width - limit) * o.contracts as real * 100.0
  }

  function Post(walk: Option<Walk>, o: Order, v: Venue): Rung
    requires OnVenue(o.q)
  {
    var priced, limit := Priced(walk, o.q, o.structure), Limit(walk, o.q, o.structure, o.fallback);
    if limit <= 0.0 then Rung(priced, Withheld(0.0))
    else if !v.clearToPost || !v.affordable(BuyingPower(o, limit)) then Rung(priced, Withheld(limit))
    else if !v.accepts(limit, o.contracts) then Rung(priced, Rejected(limit))
    else
      match v.confirms(limit, o.contracts)
      case Raised(actual) => Rung(Refused(priced, limit), Unconfirmed(limit, actual))
      case Answered(fill, actual) =>
        Rung(if Filled(fill) >= o.contracts then None else Refused(priced, limit), Confirmed(limit, fill, actual))
  }

  class Registry {
    var walks: map<string, Walk>

    constructor ()
      ensures walks == map[]
    {
      walks := map[];
    }

    function At(key: string): Option<Walk>
      reads this
    {
      if key in walks then Some(walks[key]) else None
    }

    /** The next price of the key's walk, begun if there is none, or nothing on an unusable quote. */
    method PriceFor(key: string, q: Quote, structure: string) returns (price: Option<real>)
      requires OnVenue(q)
      modifies this
      ensures At(key) == Priced(old(At(key)), q, structure) && walks - {key} == old(walks) - {key}
      ensures price == if Usable(q) then Some(Offer(At(key).value, q)) else None
      ensures price.Some? <==> q.bid >= 0.0 && q.ask > 0.0 && q.ask >= q.bid
    {
      if !Usable(q) {
        return None;
      }
      var walk := Retag(if key in walks then walks[key] else FRESH, structure);
      walks := walks[key := walk];
      price := Some(Offer(walk, q));
    }

    method Clear(key: string)
      modifies this
      ensures At(key) == None && walks - {key} == old(walks) - {key}
    {
      walks := walks - {key};
    }

    method RefuseAt(key: string, price: real)
      modifies this
      ensures At(key) == Refused(old(At(key)), price) && walks - {key} == old(walks) - {key}
    {
      if key !in walks {
        return;
      }
      walks := walks[key := Refuse(walks[key], price)];
    }

    /** The single placer of a credit vertical: posts one rung and clears or refuses its walk. */
    method PostCreditVertical(key: string, o: Order, v: Venue) returns (posting: Posting)
      requires OnVenue(o.q)
      modifies this
      ensures Rung(At(key), posting) == Post(old(At(key)), o, v) && walks - {key} == old(walks) - {key}
    {
      var got := PriceFor(key, o.q, o.structure);
      var limit := if got.Some? then got.value else o.fallback;
      if limit <= 0.0 {
        return Withheld(0.0);
      }
      if !v.clearToPost || !v.affordable(BuyingPower(o, limit)) {
        return Withheld(limit);
      }
      if !v.accepts(limit, o.contracts) {
        return Rejected(limit);
      }
      match v.confirms(limit, o.contracts) {
        case Raised(actual) =>
          RefuseAt(key, limit);
          posting := Unconfirmed(limit, actual);
        case Answered(fill, actual) =>
          if Filled(fill) >= o.contracts {
            Clear(key);
          } else {
            RefuseAt(key, limit);
          }
          posting := Confirmed(limit, fill, actual);
      }
    }
  }

  /** Nothing is posted at or below zero, nor below the structure's mark when it has a usable quote. */
  lemma {:induction false} PostsAtMarkOrBetter(walk: Option<Walk>, o: Order, v: Venue)
    requires OnVenue(o.q) && !Post(walk, o, v).posting.Withheld?
    ensures Post(walk, o, v).posting.limit > 0.0
    ensures Usable(o.q) ==> Post(walk, o, v).posting.limit >= Mark(o.q)
    ensures !Usable(o.q) ==> Post(walk, o, v).posting.limit == o.fallback
  {
    if Usable(o.q) {
      OfferIsNotWorseThanMark(Priced(walk, o.q, o.structure).value, o.q);
    }
  }

  /** A live vertical is never offered for less than the credit the same quotes would book on paper. */
  lemma {:induction false} NeverOfferedUnderTheMids(walk: Option<Walk>, o: Order, v: Venue, short: Contract,
                                                  long: Contract)
    requires OnVenue(o.q) && !Post(walk, o, v).posting.Withheld?
    requires o.q == StructureQuote(short, long, o.q.inc) && Usable(o.q)
    ensures Post(walk, o, v).posting.limit >= Mid(short) - Mid(long)
  {
    PostsAtMarkOrBetter(walk, o, v);
    StructureMark(short, long, o.q.inc);
  }

  /** With no usable quote the fallback is posted again whatever has been refused, walk or none; and with no
      walk a refusal has nothing to move. */
  lemma {:induction false} FallbackIsPostedAgain(walk: Option<Walk>, walk': Option<Walk>, o: Order, v: Venue)
    requires OnVenue(o.q) && !Usable(o.q)
    ensures Post(walk', o, v).posting == Post(walk, o, v).posting
    ensures Post(None, o, v).walk == None
  {
  }

  /** A rung refused on a structure comes back on it only at mark, and only once mark has reached a refusal. */
  lemma {:induction false} NextRungIsLower(walk: Walk, limit: real, q: Quote, structure: string)
    requires OnVenue(q) && Usable(q) && walk.structure == Some(structure)
    ensures Limit(Refused(Some(walk), limit), q, structure, 0.0) >= limit ==>
              && Limit(Refused(Some(walk), limit), q, structure, 0.0) == SnapUp(Mark(q), q.inc)
              && Terminal(q) >= Refuse(walk, limit).bestRefused.value
  {
    ReofferedIff(Refuse(walk, limit), q);
  }
}
