/**
 The tape's character: a name read off two measured axes, held until a challenger clears the boundary
 by a margin.  `bandsSet` is the switch that decides whether any name is emitted at all; the program
 ships with it off.
 */
module Character {
  import opened Common
  import opened Efficiency

  const PERSIST_TREND := 0.62
  const PERSIST_RANGE := 0.38
  const VOL_EXPAND := 1.25
  const VOL_COMPRESS := 0.80
  const DISPLACE_MARGIN := 0.10

  datatype State = Volatile | Compressing | Trending | Ranging

  /** One tick's reading of the two axes; None is an axis that could not be measured. */
  datatype Reading = Reading(persist: Option<real>, volRatio: Option<real>)

  function ReadCharacter(bandsSet: bool, r: Reading): Option<State> {
    if !bandsSet then None
    else if r.persist.None? && r.volRatio.None? then None
    else if r.volRatio.Some? && r.volRatio.value >= VOL_EXPAND then Some(Volatile)
    else if r.volRatio.Some? && r.volRatio.value <= VOL_COMPRESS then Some(Compressing)
    else if r.persist.None? then None
    else if r.persist.value >= PERSIST_TREND then Some(Trending)
    else if r.persist.value <= PERSIST_RANGE then Some(Ranging)
    else None
  }

  predicate ClearsMargin(s: State, r: Reading) {
    match s
    case Volatile => r.volRatio.Some? && r.volRatio.value >= VOL_EXPAND + DISPLACE_MARGIN
    case Compressing => r.volRatio.Some? && r.volRatio.value <= VOL_COMPRESS - DISPLACE_MARGIN
    case Trending => r.persist.Some? && r.persist.value >= PERSIST_TREND + DISPLACE_MARGIN
    case Ranging => r.persist.Some? && r.persist.value <= PERSIST_RANGE - DISPLACE_MARGIN
  }

  predicate QualifiesToDisplace(incumbent: Option<State>, challenger: Option<State>, r: Reading) {
    if challenger.None? then false
    else if incumbent.None? then true
    else if challenger == incumbent then false
    else ClearsMargin(challenger.value, r)
  }

  function Hold(bandsSet: bool, held: Option<State>, r: Reading): Option<State> {
    var challenger := ReadCharacter(bandsSet, r);
    if QualifiesToDisplace(held, challenger, r) then challenger else held
  }

  /** The bands: volatility first, 1.25 and up or 0.80 and down, then persistence, 0.62 and up or 0.38 and down. */
  predicate InBand(s: State, r: Reading) {
    match s
    case Volatile => r.volRatio.Some? && r.volRatio.value >= 1.25
    case Compressing => r.volRatio.Some? && r.volRatio.value <= 0.8
    case Trending => QuietRatio(r) && r.persist.Some? && r.persist.value >= 0.62
    case Ranging => QuietRatio(r) && r.persist.Some? && r.persist.value <= 0.38
  }

  predicate QuietRatio(r: Reading) {
    r.volRatio.Some? ==> 0.8 < r.volRatio.value < 1.25
  }

  /** A tenth past the band's edge. */
  predicate PastBand(s: State, r: Reading) {
    match s
    case Volatile => r.volRatio.Some? && r.volRatio.value >= 1.35
    case Compressing => r.volRatio.Some? && r.volRatio.value <= 0.7
    case Trending => r.persist.Some? && r.persist.value >= 0.72
    case Ranging => r.persist.Some? && r.persist.value <= 0.28
  }

  /** What a tick holds: with nothing held yet the name whose band the reading is in; otherwise another name only when
      the reading is in its band and a tenth past the edge; and else what was held. */
  lemma {:induction false} HoldIs(held: Option<State>, r: Reading, s: State)
    ensures ReadCharacter(true, r) == Some(s) <==> InBand(s, r)
    ensures Hold(true, held, r) == Some(s)
       <==> || (held.None? && InBand(s, r))
            || (held.Some? && held.value != s && InBand(s, r) && PastBand(s, r))
            || (held == Some(s) && forall t :: t != s ==> !(InBand(t, r) && PastBand(t, r)))
  {
    var c := ReadCharacter(true, r);
    assert c.Some? ==> InBand(c.value, r);
    assert c.Some? ==> (ClearsMargin(c.value, r) <==> PastBand(c.value, r));
  }

  // --- Runs -------------------------------------------------------------------------------------

  /** The name held after the first n ticks of a run. */
  function HeldAfter(bandsSet: bool, run: seq<Reading>, n: nat): Option<State>
    requires n <= |run|
  {
    if n == 0 then None else Hold(bandsSet, HeldAfter(bandsSet, run, n - 1), run[n - 1])
  }

  predicate Displaces(bandsSet: bool, run: seq<Reading>, n: nat)
    requires n < |run|
  {
    HeldAfter(bandsSet, run, n + 1) != HeldAfter(bandsSet, run, n)
  }

  function Displacements(bandsSet: bool, run: seq<Reading>, n: nat): nat
    requires n <= |run|
  {
    if n == 0 then 0
    else Displacements(bandsSet, run, n - 1) + if Displaces(bandsSet, run, n - 1) then 1 else 0
  }

  /** The volatility ratio is measured on every tick; persistence need not be. */
  ghost predicate RatioMeasured(run: seq<Reading>) {
    forall i :: 0 <= i < |run| ==> run[i].volRatio.Some?
  }

  function VolAxis(run: seq<Reading>): (xs: seq<real>)
    requires RatioMeasured(run)
    ensures |xs| == |run| && forall i :: 0 <= i < |xs| ==> xs[i] == run[i].volRatio.value
  {
    seq(|run|, i requires 0 <= i < |run| => run[i].volRatio.value)
  }

  /** Persistence as last measured by tick i. */
  function LastPersist(run: seq<Reading>, i: nat): Option<real>
    requires i < |run|
  {
    if run[i].persist.Some? then run[i].persist else if i == 0 then None else LastPersist(run, i - 1)
  }

  function Gap(a: Option<real>, b: Option<real>): real {
    if a.None? || b.None? then 0.0 else Abs(b.value - a.value)
  }

  /** The variation of measured persistence from tick i to tick j. */
  function PersistTravel(run: seq<Reading>, i: nat, j: nat): (t: real)
    requires i <= j < |run|
    ensures t >= 0.0
  {
    if i == j then 0.0 else PersistTravel(run, i, j - 1) + Gap(LastPersist(run, j - 1), LastPersist(run, j))
  }

  /** The variation of both axes from tick i to tick j. */
  function Variation(run: seq<Reading>, i: nat, j: nat): real
    requires RatioMeasured(run) && i <= j < |run|
  {
    PersistTravel(run, i, j) + Travel(VolAxis(run), i, j)
  }

  lemma {:induction false} PersistSplit(run: seq<Reading>, i: nat, j: nat, k: nat)
    requires i <= j <= k < |run|
    ensures PersistTravel(run, i, k) == PersistTravel(run, i, j) + PersistTravel(run, j, k)
  {
    if j < k {
      PersistSplit(run, i, j, k - 1);
    }
  }

  lemma {:induction false} PersistAtLeastNet(run: seq<Reading>, i: nat, j: nat)
    requires i <= j < |run| && LastPersist(run, i).Some?
    ensures LastPersist(run, j).Some?
    ensures Abs(LastPersist(run, j).value - LastPersist(run, i).value) <= PersistTravel(run, i, j)
  {
    if i < j {
      PersistAtLeastNet(run, i, j - 1);
    }
  }

  /** A reading that names a state by the margin. */
  predicate Deep(s: State, r: Reading) {
    ReadCharacter(true, r) == Some(s) && ClearsMargin(s, r)
  }

  /** A margin apart on an axis that both measured. */
  predicate Apart(a: Reading, b: Reading)
    requires a.volRatio.Some? && b.volRatio.Some?
  {
    || (a.persist.Some? && b.persist.Some? && Abs(a.persist.value - b.persist.value) >= DISPLACE_MARGIN)
    || Abs(a.volRatio.value - b.volRatio.value) >= DISPLACE_MARGIN
  }

  /** Readings deep inside two different states are at least the margin apart on one axis. */
  lemma {:induction false} DeepApart(s: State, t: State, a: Reading, b: Reading)
    requires s != t && Deep(s, a) && Deep(t, b) && a.volRatio.Some? && b.volRatio.Some?
    ensures Apart(a, b)
  {
  }

  /** Displacing a held name takes a deep reading of another one. */
  lemma {:induction false} DisplacedIsDeep(run: seq<Reading>, n: nat)
    requires n < |run| && Displaces(true, run, n) && HeldAfter(true, run, n).Some?
    ensures HeldAfter(true, run, n + 1).Some?
    ensures Deep(HeldAfter(true, run, n + 1).value, run[n])
  {
  }

  /** Displacing a name that a deep reading named takes a margin's move since that reading. */
  lemma {:induction false} DisplacingCostsMargin(run: seq<Reading>, s: State, i: nat, n: nat)
    requires RatioMeasured(run) && i < n < |run| && Displaces(true, run, n)
    requires HeldAfter(true, run, n) == Some(s) && Deep(s, run[i])
    ensures Apart(run[i], run[n])
  {
    DisplacedIsDeep(run, n);
    DeepApart(s, HeldAfter(true, run, n + 1).value, run[i], run[n]);
  }

  /** Two displacements of a held name, with no other between them, are a margin's move apart. */
  lemma {:induction false} ConsecutiveDisplacementsSeparated(run: seq<Reading>, i: nat, j: nat)
    requires RatioMeasured(run) && i < j < |run|
    requires HeldAfter(true, run, i).Some? && Displaces(true, run, i) && Displaces(true, run, j)
    requires Displacements(true, run, j) == Displacements(true, run, i + 1)
    ensures Apart(run[i], run[j])
  {
    HeldUnchanged(run, i + 1, j);
    DisplacedIsDeep(run, i);
    DisplacingCostsMargin(run, HeldAfter(true, run, i + 1).value, i, j);
  }

  lemma {:induction false} DisplacementsGrow(run: seq<Reading>, i: nat, j: nat)
    requires i <= j <= |run|
    ensures Displacements(true, run, i) <= Displacements(true, run, j)
  {
    if i < j {
      DisplacementsGrow(run, i, j - 1);
    }
  }

  lemma {:induction false} HeldUnchanged(run: seq<Reading>, i: nat, j: nat)
    requires i <= j <= |run|
    requires Displacements(true, run, j) == Displacements(true, run, i)
    ensures HeldAfter(true, run, j) == HeldAfter(true, run, i)
  {
    if i < j {
      DisplacementsGrow(run, i, j - 1);
      HeldUnchanged(run, i, j - 1);
    }
  }

  /** The argument of the bound: once two displacements have happened, the latest left a deep reading
      at some tick, and the margins paid so far fit in the variation up to it. */
  ghost predicate PaidUpTo(run: seq<Reading>, n: nat, latest: nat)
    requires RatioMeasured(run) && n <= |run|
  {
    && latest < n
    && HeldAfter(true, run, n).Some?
    && Deep(HeldAfter(true, run, n).value, run[latest])
    && (Displacements(true, run, n) - 2) as real * DISPLACE_MARGIN <= Variation(run, 0, latest)
  }

  lemma {:induction false} MarginsPaid(run: seq<Reading>, n: nat) returns (latest: nat)
    requires RatioMeasured(run) && n <= |run|
    ensures Displacements(true, run, n) == 0 <==> HeldAfter(true, run, n) == None
    ensures Displacements(true, run, n) >= 2 ==> PaidUpTo(run, n, latest)
  {
    latest := 0;
    if n > 0 {
      var before := MarginsPaid(run, n - 1);
      latest := before;
      if Displaces(true, run, n - 1) {
        latest := n - 1;
        if HeldAfter(true, run, n - 1).Some? {
          DisplacedIsDeep(run, n - 1);
        }
        if Displacements(true, run, n - 1) >= 2 {
          OneMoreMargin(run, n - 1, before);
        }
      }
    }
  }

  lemma {:induction false} OneMoreMargin(run: seq<Reading>, n: nat, before: nat)
    requires RatioMeasured(run) && n < |run| && PaidUpTo(run, n, before) && Displaces(true, run, n)
    ensures PaidUpTo(run, n + 1, n)
  {
    var vs := VolAxis(run);
    DisplacedIsDeep(run, n);
    DisplacingCostsMargin(run, HeldAfter(true, run, n).value, before, n);
    if run[before].persist.Some? {
      PersistAtLeastNet(run, before, n);
    }
    TravelAtLeastNet(vs, before, n);
    PersistSplit(run, 0, before, n);
    TravelSplit(vs, 0, before, n);
  }

  /** With the ratio measured on every tick, the number of displacements in a run is at most two more than
      the margins its total variation can pay for; persistence varies over its last measured value. */
  lemma {:induction false} ChatterBound(run: seq<Reading>)
    requires RatioMeasured(run) && run != []
    ensures Displacements(true, run, |run|) as real
              <= 2.0 + Variation(run, 0, |run| - 1) / DISPLACE_MARGIN
  {
    var latest := MarginsPaid(run, |run|);
    var d := Displacements(true, run, |run|);
    if d >= 2 {
      PersistSplit(run, 0, latest, |run| - 1);
      TravelSplit(VolAxis(run), 0, latest, |run| - 1);
    }
  }

  /** With the bands off nothing is ever named. */
  lemma {:induction false} BandsOffNeverDisplaces(run: seq<Reading>, n: nat)
    requires n <= |run|
    ensures HeldAfter(false, run, n) == None && Displacements(false, run, n) == 0
  {
    if n > 0 {
      BandsOffNeverDisplaces(run, n - 1);
    }
  }

  /** The two in the bound cannot be one: the first name is taken without a margin. */
  lemma {:induction false} SecondDisplacementCanBeFree()
    ensures var run := [Reading(Some(0.72), Some(1.25)), Reading(Some(0.72), Some(1.24))];
      RatioMeasured(run) && Displacements(true, run, 2) == 2 && Variation(run, 0, 1) < DISPLACE_MARGIN
  {
    var run := [Reading(Some(0.72), Some(1.25)), Reading(Some(0.72), Some(1.24))];
    assert HeldAfter(true, run, 0) == None;
    assert HeldAfter(true, run, 1) == Some(Volatile);
    assert HeldAfter(true, run, 2) == Some(Trending);
    assert Displacements(true, run, 1) == 1;
    assert PersistTravel(run, 0, 0) == 0.0 && Travel(VolAxis(run), 0, 0) == 0.0;
  }

  // --- Why the ratio must be measured -----------------------------------------------------------

  /** Persistence never moves and volatility never moves when it is measured, but it is measured only on
      every other tick. */
  function Flicker(n: nat): (run: seq<Reading>)
    ensures |run| == n
    ensures forall i :: 0 <= i < n ==>
              run[i] == Reading(Some(0.72), if i % 2 == 0 then Some(1.35) else None)
  {
    seq(n, i => Reading(Some(0.72), if i % 2 == 0 then Some(1.35) else None))
  }

  /** Then every tick displaces, although no measured value ever changes: without the premise of the
      bound there is no bound. */
  lemma {:induction false} UnmeasuredAxisChatters(n: nat, k: nat)
    requires k <= n
    ensures Displacements(true, Flicker(n), k) == k
    ensures k > 0 ==> HeldAfter(true, Flicker(n), k) == Some(if k % 2 == 1 then Volatile else Trending)
  {
    if k > 0 {
      UnmeasuredAxisChatters(n, k - 1);
    }
  }
}
