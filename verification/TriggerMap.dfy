/**
 The per-tick map of fork triggers: for each timeframe whose channel can be read, a call trigger an
 approach fraction of the way from the midline to the upper rail and a put trigger likewise below.
 */
module TriggerMap {
  import opened Common

  datatype Side = CallSide | PutSide

  datatype Rails = Rails(upper: real, lower: real, median: real, slope: real)

  /** A timeframe and its channel this tick; None when there is no fork or it could not be read. */
  datatype Frame = Frame(tf: string, rails: Option<Rails>)

  datatype ForkTrigger = ForkTrigger(
    tf: string, side: Side, rail: real, trigger: real, median: real, slope: real, active: bool)

  function TriggerCall(r: Rails, approach: real): real {
    r.median + approach * (r.upper - r.median)
  }

  function TriggerPut(r: Rails, approach: real): real {
    r.median - approach * (r.median - r.lower)
  }

  predicate Usable(f: Frame) {
    f.rails.Some? && f.rails.value.upper > f.rails.value.lower && f.rails.value.median > 0.0
  }

  /** The two triggers of one frame. */
  function TriggersOf(f: Frame, price: real, approach: real): seq<ForkTrigger> {
    if !Usable(f) then []
    else
      var r := f.rails.value;
      [ForkTrigger(f.tf, CallSide, r.upper, TriggerCall(r, approach), r.median, r.slope,
                   price >= TriggerCall(r, approach)),
       ForkTrigger(f.tf, PutSide, r.lower, TriggerPut(r, approach), r.median, r.slope,
                   price <= TriggerPut(r, approach))]
  }

  function AllTriggers(frames: seq<Frame>, price: real, approach: real): seq<ForkTrigger> {
    if frames == [] then []
    else AllTriggers(frames[..|frames| - 1], price, approach)
         + TriggersOf(frames[|frames| - 1], price, approach)
  }

  datatype CondorTriggerMap = CondorTriggerMap(triggers: seq<ForkTrigger>, price: real) {

    function Distance(t: ForkTrigger): real {
      Abs(t.rail - price)
    }

    /** The active triggers of a side, nearest rail first; equal distances keep their order. */
    function ActiveFor(side: Side): seq<ForkTrigger> {
      SortByDistance(Hits(triggers, side))
    }

    predicate AnyActive(side: Side) {
      exists t :: t in triggers && t.side == side && t.active
    }

    function Best(side: Side): Option<ForkTrigger> {
      var hits := ActiveFor(side);
      if hits != [] then Some(hits[0]) else None
    }

    static function Hits(ts: seq<ForkTrigger>, side: Side): seq<ForkTrigger> {
      if ts == [] then []
      else (if ts[0].side == side && ts[0].active then [ts[0]] else []) + Hits(ts[1..], side)
    }

    function SortByDistance(ts: seq<ForkTrigger>): seq<ForkTrigger> {
      if ts == [] then [] else Insert(ts[0], SortByDistance(ts[1..]))
    }

    function Insert(t: ForkTrigger, sorted: seq<ForkTrigger>): seq<ForkTrigger> {
      if sorted == [] || Distance(t) <= Distance(sorted[0]) then [t] + sorted
      else [sorted[0]] + Insert(t, sorted[1..])
    }
  }

  /** The map of one tick; without a positive price it is empty. */
  function MapOf(price: real, frames: seq<Frame>, approach: real): CondorTriggerMap {
    CondorTriggerMap(if price <= 0.0 then [] else AllTriggers(frames, price, approach), price)
  }

  method Build(price: real, frames: seq<Frame>, approach: real) returns (m: CondorTriggerMap)
    ensures m == MapOf(price, frames, approach)
  {
    var triggers: seq<ForkTrigger> := [];
    if price <= 0.0 {
      return CondorTriggerMap(triggers, price);
    }
    for i := 0 to |frames|
      invariant triggers == AllTriggers(frames[..i], price, approach)
    {
      assert frames[..i + 1][..i] == frames[..i];
      ghost var before, pair := triggers, TriggersOf(frames[i], price, approach);
      assert AllTriggers(frames[..i + 1], price, approach) == before + pair;
      var rails := frames[i].rails;
      if rails.None? || rails.value.upper <= rails.value.lower || rails.value.median <= 0.0 {
        assert before + pair == before;
        continue;
      }
      var r := rails.value;
      var trigCall := r.median + approach * (r.upper - r.median);
      var trigPut := r.median - approach * (r.median - r.lower);
      var call := ForkTrigger(frames[i].tf, CallSide, r.upper, trigCall, r.median, r.slope, price >= trigCall);
      triggers := triggers + [call];
      var put := ForkTrigger(frames[i].tf, PutSide, r.lower, trigPut, r.median, r.slope, price <= trigPut);
      triggers := triggers + [put];
      assert trigCall == TriggerCall(r, approach);
      assert trigPut == TriggerPut(r, approach);
      assert pair[0] == call;
      assert pair[1] == put;
      assert pair == [call] + [put];
      assert triggers == before + pair;
    }
    assert frames[..|frames|] == frames;
    m := CondorTriggerMap(triggers, price);
  }

  /** The frame is read: rails in order and a midline above zero. */
  predicate IsRead(f: Frame) {
    f.rails.Some? && f.rails.value.upper > f.rails.value.lower && f.rails.value.median > 0.0
  }

  /** The trigger is the frame's: a call's rail is the upper one and a put's the lower, the trigger stands the approach
      fraction of the way from the midline to the rail, and it is active once price has reached it from the midline's
      side. */
  predicate IsOf(t: ForkTrigger, f: Frame, price: real, approach: real) {
    && IsRead(f)
    && var r := f.rails.value;
       && t.tf == f.tf && t.median == r.median && t.slope == r.slope
       && t.rail == (if t.side.CallSide? then r.upper else r.lower)
       && t.trigger - t.median == approach * (t.rail - t.median)
       && (t.active <==> if t.side.CallSide? then t.trigger <= price else price <= t.trigger)
  }

  /** The map of a positive price: for every frame read, in order, its call and its put, and nothing else. */
  lemma {:induction false} MapIs(frames: seq<Frame>, f: Frame, price: real, approach: real)
    requires price > 0.0
    ensures MapOf(price, [], approach).triggers == []
    ensures var before, after := MapOf(price, frames, approach).triggers, MapOf(price, frames + [f], approach).triggers;
      if IsRead(f) then
        && |after| == |before| + 2 && before <= after
        && after[|before|].side == CallSide && IsOf(after[|before|], f, price, approach)
        && after[|before| + 1].side == PutSide && IsOf(after[|before| + 1], f, price, approach)
      else after == before
  {
    assert (frames + [f])[..|frames|] == frames;
    if IsRead(f) {
      var r := f.rails.value;
      assert r.median - approach * (r.median - r.lower) - r.median == approach * (r.lower - r.median);
    }
  }

  // --- The geometry -----------------------------------------------------------------------------

  predicate BothActive(f: Frame, price: real, approach: real)
    requires Usable(f)
  {
    TriggersOf(f, price, approach)[0].active && TriggersOf(f, price, approach)[1].active
  }

  /** The two triggers of a frame cross exactly when the approach fraction is not positive: the place of
      the midline between, or outside, the rails does not matter. */
  lemma {:induction false} TriggersCrossIff(r: Rails, approach: real)
    requires r.upper > r.lower
    ensures TriggerCall(r, approach) <= TriggerPut(r, approach) <==> approach <= 0.0
  {
    var w := r.upper - r.lower;
    assert TriggerCall(r, approach) - TriggerPut(r, approach) == approach * w;
    if approach > 0.0 {
      assert approach * w > 0.0;
    } else {
      assert (-approach) * w >= 0.0;
    }
  }

  /** A frame's call and put can both be active at some price exactly when the approach is not positive
      and the put trigger is. */
  lemma {:induction false} BothActiveIff(f: Frame, approach: real)
    requires Usable(f)
    ensures (exists price :: price > 0.0 && BothActive(f, price, approach))
       <==> approach <= 0.0 && TriggerPut(f.rails.value, approach) > 0.0
  {
    var r := f.rails.value;
    TriggersCrossIff(r, approach);
    if approach <= 0.0 && TriggerPut(r, approach) > 0.0 {
      assert BothActive(f, TriggerPut(r, approach), approach);
    }
  }

  /** With a positive approach no frame of any map has both its triggers active. */
  lemma {:induction false} NeverBothActive(frames: seq<Frame>, price: real, approach: real, c: ForkTrigger,
                                         p: ForkTrigger)
    requires approach > 0.0
    requires forall i, j :: 0 <= i < j < |frames| ==> frames[i].tf != frames[j].tf
    requires c in MapOf(price, frames, approach).triggers && p in MapOf(price, frames, approach).triggers
    requires c.tf == p.tf && c.side.CallSide? && p.side.PutSide?
    ensures !(c.active && p.active)
  {
    var i := TriggerSource(frames, price, approach, c);
    var j := TriggerSource(frames, price, approach, p);
    TriggersCrossIff(frames[i].rails.value, approach);
  }

  lemma {:induction false} TriggerSource(frames: seq<Frame>, price: real, approach: real, t: ForkTrigger)
    returns (i: nat)
    requires t in AllTriggers(frames, price, approach)
    ensures i < |frames| && t in TriggersOf(frames[i], price, approach)
  {
    var last := |frames| - 1;
    if t in TriggersOf(frames[last], price, approach) {
      i := last;
    } else {
      i := TriggerSource(frames[..last], price, approach, t);
    }
  }

  /** Two maps of the same frames hold the same triggers up to which of them are active. */
  ghost predicate SameBut(a: seq<ForkTrigger>, b: seq<ForkTrigger>) {
    |a| == |b| && forall i :: 0 <= i < |a| ==> a[i].(active := b[i].active) == b[i]
  }

  /** Among the frames' triggers a higher price only activates calls and only deactivates puts. */
  lemma {:induction false} RaisingPriceOfFrames(frames: seq<Frame>, low: real, high: real, approach: real)
    requires low <= high
    ensures var a, b := AllTriggers(frames, low, approach), AllTriggers(frames, high, approach);
      && SameBut(a, b)
      && forall i :: 0 <= i < |a| ==>
           && (a[i].side.CallSide? && a[i].active ==> b[i].active)
           && (a[i].side.PutSide? && b[i].active ==> a[i].active)
  {
    if frames != [] {
      RaisingPriceOfFrames(frames[..|frames| - 1], low, high, approach);
    }
  }

  /** Some usable frame's put trigger has been reached. */
  predicate PutReached(frames: seq<Frame>, price: real, approach: real) {
    exists i :: 0 <= i < |frames| && Usable(frames[i]) && price <= TriggerPut(frames[i].rails.value, approach)
  }

  ghost predicate ActivePut(ts: seq<ForkTrigger>) {
    exists t :: t in ts && t.side.PutSide? && t.active
  }

  lemma {:induction false} PutReachedIff(frames: seq<Frame>, price: real, approach: real)
    ensures ActivePut(AllTriggers(frames, price, approach)) <==> PutReached(frames, price, approach)
  {
    if frames != [] {
      var init, f := frames[..|frames| - 1], frames[|frames| - 1];
      PutReachedIff(init, price, approach);
      var before, pair := AllTriggers(init, price, approach), TriggersOf(f, price, approach);
      assert AllTriggers(frames, price, approach) == before + pair;
      if Usable(f) && price <= TriggerPut(f.rails.value, approach) {
        assert pair[1] in before + pair;
      }
      if ActivePut(before) {
        var t :| t in before && t.side.PutSide? && t.active;
        assert t in before + pair;
      }
      if PutReached(frames, price, approach) {
        var i :| 0 <= i < |frames| && Usable(frames[i]) && price <= TriggerPut(frames[i].rails.value, approach);
        assert i < |init| ==> init[i] == frames[i];
      }
      if PutReached(init, price, approach) {
        var i :| 0 <= i < |init| && Usable(init[i]) && price <= TriggerPut(init[i].rails.value, approach);
        assert frames[i] == init[i];
      }
    }
  }

  /** A higher price never drops an active call from the map; and it adds no active put exactly when the
      price was there to begin with, or is still missing, or has not reached a put. */
  lemma {:induction false} RaisingPrice(frames: seq<Frame>, low: real, high: real, approach: real)
    requires low <= high
    ensures var a, b := MapOf(low, frames, approach).triggers, MapOf(high, frames, approach).triggers;
      && (forall t :: t in a && t.side.CallSide? && t.active ==> t in b)
      && ((forall t :: t in b && t.side.PutSide? && t.active ==> t in a)
          <==> low > 0.0 || high <= 0.0 || !PutReached(frames, high, approach))
  {
    var a, b := AllTriggers(frames, low, approach), AllTriggers(frames, high, approach);
    RaisingPriceOfFrames(frames, low, high, approach);
    PutReachedIff(frames, high, approach);
    forall t | t in a && t.side.CallSide? && t.active ensures t in b {
      var i :| 0 <= i < |a| && a[i] == t;
      assert b[i] == t;
    }
    forall t | t in b && t.side.PutSide? && t.active ensures t in a {
      var i :| 0 <= i < |b| && b[i] == t;
      assert a[i] == t;
    }
  }

  const NINETY_TO_ONE_TEN := [Frame("1h", Some(Rails(110.0, 90.0, 100.0, 0.0)))]

  /** A price that was missing, read as zero, adds an active put when it comes. */
  lemma {:induction false} MissingPriceAddsAPut()
    ensures !ActivePut(MapOf(0.0, NINETY_TO_ONE_TEN, 0.65).triggers)
    ensures ActivePut(MapOf(1.0, NINETY_TO_ONE_TEN, 0.65).triggers)
  {
    PutReachedIff(NINETY_TO_ONE_TEN, 1.0, 0.65);
    assert Usable(NINETY_TO_ONE_TEN[0]);
  }

  function Shifted(f: Frame, d: real): Frame {
    match f.rails
    case None => f
    case Some(r) => f.(rails := Some(Rails(r.upper + d, r.lower + d, r.median + d, r.slope)))
  }

  function ShiftedAll(frames: seq<Frame>, d: real): (fs: seq<Frame>)
    ensures |fs| == |frames| && forall i :: 0 <= i < |fs| ==> fs[i] == Shifted(frames[i], d)
  {
    seq(|frames|, i requires 0 <= i < |frames| => Shifted(frames[i], d))
  }

  /** Moving the price and a frame's rails together keeps the frame's activity, exactly when the move
      does not carry its midline across zero (the guard that drops a frame). */
  lemma {:induction false} TranslationOfFrame(f: Frame, price: real, approach: real, d: real)
    requires f.rails.Some? && f.rails.value.upper > f.rails.value.lower
    ensures var a, b := TriggersOf(f, price, approach), TriggersOf(Shifted(f, d), price + d, approach);
      (|a| == |b| && forall i :: 0 <= i < |a| ==> a[i].active == b[i].active)
      <==> (f.rails.value.median > 0.0 <==> f.rails.value.median + d > 0.0)
  {
    var r, s := f.rails.value, Shifted(f, d).rails.value;
    assert s.upper - s.median == r.upper - r.median && s.median - s.lower == r.median - r.lower;
    assert TriggerCall(s, approach) == TriggerCall(r, approach) + d;
    assert TriggerPut(s, approach) == TriggerPut(r, approach) + d;
  }

  ghost predicate SameActivity(a: seq<ForkTrigger>, b: seq<ForkTrigger>) {
    |a| == |b| && forall i :: 0 <= i < |a| ==> a[i].active == b[i].active
  }

  /** The move does not carry the frame's midline across zero. */
  predicate Keeps(f: Frame, d: real) {
    Usable(f) <==> Usable(Shifted(f, d))
  }

  lemma {:induction false} TranslationOfFrames(frames: seq<Frame>, price: real, approach: real, d: real)
    requires forall i :: 0 <= i < |frames| ==> Keeps(frames[i], d)
    ensures SameActivity(AllTriggers(frames, price, approach),
                         AllTriggers(ShiftedAll(frames, d), price + d, approach))
  {
    if frames != [] {
      var last := |frames| - 1;
      TranslationOfFrames(frames[..last], price, approach, d);
      assert ShiftedAll(frames, d)[..last] == ShiftedAll(frames[..last], d);
      assert Keeps(frames[last], d);
      if Usable(frames[last]) {
        TranslationOfFrame(frames[last], price, approach, d);
      }
    }
  }

  /** A move up only brings frames in and a move down only takes them out, so none is lost in the count. */
  lemma {:induction false} ShiftCounts(frames: seq<Frame>, price: real, approach: real, d: real)
    ensures var m := |AllTriggers(frames, price, approach)|;
            var n := |AllTriggers(ShiftedAll(frames, d), price + d, approach)|;
      && (d >= 0.0 ==> m <= n) && (d <= 0.0 ==> n <= m)
      && (m == n ==> forall i :: 0 <= i < |frames| ==> Keeps(frames[i], d))
  {
    if frames != [] {
      var last := |frames| - 1;
      ShiftCounts(frames[..last], price, approach, d);
      assert ShiftedAll(frames, d)[..last] == ShiftedAll(frames[..last], d);
      ShiftCountsOne(frames[last], price, approach, d);
      assert forall i :: 0 <= i < last ==> frames[..last][i] == frames[i];
    }
  }

  lemma {:induction false} ShiftCountsOne(f: Frame, price: real, approach: real, d: real)
    ensures var m, n := |TriggersOf(f, price, approach)|, |TriggersOf(Shifted(f, d), price + d, approach)|;
      (d >= 0.0 ==> m <= n) && (d <= 0.0 ==> n <= m) && (m == n <==> Keeps(f, d))
  {
  }

  lemma {:induction false} NoTriggersIff(frames: seq<Frame>, price: real, approach: real)
    ensures AllTriggers(frames, price, approach) == [] <==> forall i :: 0 <= i < |frames| ==> !Usable(frames[i])
  {
    if frames != [] {
      var last := |frames| - 1;
      NoTriggersIff(frames[..last], price, approach);
      assert forall i :: 0 <= i < last ==> frames[..last][i] == frames[i];
    }
  }

  /** When the map's activity survives moving the price and all rails by d: no midline is carried across
      zero, if both prices are positive; otherwise the map of the positive one must have been empty. */
  predicate Survives(frames: seq<Frame>, price: real, d: real) {
    if price > 0.0 && price + d > 0.0 then forall i :: 0 <= i < |frames| ==> Keeps(frames[i], d)
    else if price > 0.0 then forall i :: 0 <= i < |frames| ==> !Usable(frames[i])
    else if price + d > 0.0 then forall i :: 0 <= i < |frames| ==> !Usable(Shifted(frames[i], d))
    else true
  }

  lemma {:induction false} TranslationOfMap(frames: seq<Frame>, price: real, approach: real, d: real)
    ensures SameActivity(MapOf(price, frames, approach).triggers,
                         MapOf(price + d, ShiftedAll(frames, d), approach).triggers)
       <==> Survives(frames, price, d)
  {
    if price > 0.0 && price + d > 0.0 {
      ShiftCounts(frames, price, approach, d);
      if Survives(frames, price, d) {
        TranslationOfFrames(frames, price, approach, d);
      }
    } else {
      NoTriggersIff(frames, price, approach);
      NoTriggersIff(ShiftedAll(frames, d), price + d, approach);
      assert forall i :: 0 <= i < |frames| ==> ShiftedAll(frames, d)[i] == Shifted(frames[i], d);
    }
  }

  /** Every midline stays positive, but the price does not: an active put disappears. */
  lemma {:induction false} MovingThePriceBelowZeroDropsAPut()
    ensures ActivePut(MapOf(1.0, NINETY_TO_ONE_TEN, 0.65).triggers)
    ensures Keeps(NINETY_TO_ONE_TEN[0], -5.0)
    ensures MapOf(1.0 - 5.0, ShiftedAll(NINETY_TO_ONE_TEN, -5.0), 0.65).triggers == []
  {
    MissingPriceAddsAPut();
  }

  // --- Nearest first ----------------------------------------------------------------------------

  ghost predicate SortedByDistance(m: CondorTriggerMap, ts: seq<ForkTrigger>) {
    |ts| <= 1 || (m.Distance(ts[0]) <= m.Distance(ts[1]) && SortedByDistance(m, ts[1..]))
  }

  lemma {:induction false} InsertSorts(m: CondorTriggerMap, t: ForkTrigger, sorted: seq<ForkTrigger>)
    requires SortedByDistance(m, sorted)
    ensures var r := m.Insert(t, sorted);
      && r != []
      && SortedByDistance(m, r)
      && r[0] == if sorted == [] || m.Distance(t) <= m.Distance(sorted[0]) then t else sorted[0]
  {
    if sorted != [] && m.Distance(t) > m.Distance(sorted[0]) {
      var r := m.Insert(t, sorted[1..]);
      InsertSorts(m, t, sorted[1..]);
      assert ([sorted[0]] + r)[1..] == r;
    } else {
      assert ([t] + sorted)[1..] == sorted;
    }
  }

  lemma {:induction false} InsertKeepsAll(m: CondorTriggerMap, t: ForkTrigger, sorted: seq<ForkTrigger>)
    ensures multiset(m.Insert(t, sorted)) == multiset{t} + multiset(sorted)
  {
    if sorted != [] && m.Distance(t) > m.Distance(sorted[0]) {
      InsertKeepsAll(m, t, sorted[1..]);
      assert sorted == [sorted[0]] + sorted[1..];
    }
  }

  lemma {:induction false} SortKeepsAll(m: CondorTriggerMap, ts: seq<ForkTrigger>)
    ensures multiset(m.SortByDistance(ts)) == multiset(ts)
  {
    if ts != [] {
      SortKeepsAll(m, ts[1..]);
      InsertKeepsAll(m, ts[0], m.SortByDistance(ts[1..]));
      assert ts == [ts[0]] + ts[1..];
    }
  }

  lemma {:induction false} SortOrders(m: CondorTriggerMap, ts: seq<ForkTrigger>)
    ensures SortedByDistance(m, m.SortByDistance(ts))
  {
    if ts != [] {
      SortOrders(m, ts[1..]);
      InsertSorts(m, ts[0], m.SortByDistance(ts[1..]));
    }
  }

  /** The active triggers come out in order of distance, none lost and none added. */
  lemma {:induction false} SortSorts(m: CondorTriggerMap, ts: seq<ForkTrigger>)
    ensures SortedByDistance(m, m.SortByDistance(ts))
    ensures multiset(m.SortByDistance(ts)) == multiset(ts)
    ensures m.SortByDistance(ts) == [] <==> ts == []
  {
    SortOrders(m, ts);
    SortKeepsAll(m, ts);
    assert |m.SortByDistance(ts)| == |multiset(m.SortByDistance(ts))| && |ts| == |multiset(ts)|;
  }

  /** The first in order is the earliest of the nearest. */
  lemma {:induction false} FirstIsEarliestNearest(m: CondorTriggerMap, ts: seq<ForkTrigger>) returns (first: nat)
    requires ts != []
    ensures IsEarliestNearest(m, ts, first)
    ensures m.SortByDistance(ts) != [] && m.SortByDistance(ts)[0] == ts[first]
  {
    var tail := ts[1..];
    SortSorts(m, tail);
    InsertSorts(m, ts[0], m.SortByDistance(tail));
    EarliestNearestCons(m, ts);
    if tail == [] {
      first := 0;
    } else {
      var i := FirstIsEarliestNearest(m, tail);
      first := if m.Distance(ts[0]) <= m.Distance(tail[i]) then 0 else i + 1;
    }
  }

  lemma {:induction false} EarliestNearestCons(m: CondorTriggerMap, ts: seq<ForkTrigger>)
    requires ts != []
    ensures ts[1..] == [] ==> IsEarliestNearest(m, ts, 0)
    ensures forall i :: IsEarliestNearest(m, ts[1..], i) ==>
              IsEarliestNearest(m, ts, if m.Distance(ts[0]) <= m.Distance(ts[1..][i]) then 0 else i + 1)
  {
    var tail := ts[1..];
    assert forall j :: 0 < j < |ts| ==> ts[j] == tail[j - 1];
  }

  ghost predicate IsEarliestNearest(m: CondorTriggerMap, ts: seq<ForkTrigger>, i: int) {
    && 0 <= i < |ts|
    && (forall j :: 0 <= j < |ts| ==> m.Distance(ts[i]) <= m.Distance(ts[j]))
    && forall j :: 0 <= j < i ==> m.Distance(ts[i]) < m.Distance(ts[j])
  }

  lemma {:induction false} HitsAreActive(ts: seq<ForkTrigger>, side: Side)
    ensures forall t :: t in CondorTriggerMap.Hits(ts, side) <==> t in ts && t.side == side && t.active
  {
    if ts != [] {
      HitsAreActive(ts[1..], side);
      assert forall t :: t in ts <==> t == ts[0] || t in ts[1..];
    }
  }

  /** The distance of a trigger is that of its rail from the price. */
  predicate IsNearest(m: CondorTriggerMap, b: ForkTrigger, side: Side) {
    forall t :: t in m.triggers && t.side == side && t.active ==> Abs(b.rail - m.price) <= Abs(t.rail - m.price)
  }

  /** `best` exists exactly when something is active on the side, and is an active trigger of that side
      whose rail no other active one is nearer than. */
  lemma {:induction false} BestIsNearest(m: CondorTriggerMap, side: Side)
    ensures m.Best(side).Some? <==> exists t :: t in m.triggers && t.side == side && t.active
    ensures m.Best(side).Some? ==>
      var b := m.Best(side).value;
      b in m.triggers && b.side == side && b.active && IsNearest(m, b, side)
  {
    FirstOfHits(m, side);
    assert m.AnyActive(side) <==> exists t :: t in m.triggers && t.side == side && t.active;
  }

  lemma {:induction false} FirstOfHits(m: CondorTriggerMap, side: Side)
    ensures m.Best(side).Some? <==> m.AnyActive(side)
    ensures m.Best(side).Some? ==>
      var b := m.Best(side).value;
      && b in m.triggers && b.side == side && b.active
      && forall t :: t in m.triggers && t.side == side && t.active ==> m.Distance(b) <= m.Distance(t)
  {
    var hits := CondorTriggerMap.Hits(m.triggers, side);
    HitsAreActive(m.triggers, side);
    SortSorts(m, hits);
    if hits != [] {
      assert hits[0] in hits;
      var i := FirstIsEarliestNearest(m, hits);
      assert hits[i] in hits;
      forall t | t in hits ensures m.Distance(hits[i]) <= m.Distance(t) {
        var j :| 0 <= j < |hits| && hits[j] == t;
      }
    }
  }
}
