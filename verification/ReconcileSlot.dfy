/**
 The intraday broker-reconcile schedule: which slot the clock is in, and the latch in the tick loop
 that sweeps once per slot.  Instants are minutes of the day in Eastern time; `shift` is how many
 minutes earlier than 16:00 the day's bell rings.
 */
module ReconcileSlot {
  import opened Common
  import Latch

  const OPEN := 9 * 60 + 30
  const BELL := 16 * 60
  const RESTING_AT := 15 * 60 + 45
  const LADDER_AT := 15 * 60 + 50
  const CROSS_AT := 15 * 60 + 55
  const TRUTH_PASS_AT := 15 * 60 + 57
  const DAY := 24 * 60

  datatype Now = Now(day: int, weekday: nat, minute: nat, shift: int)

  /** A 16:00-bell constant moved to the day's bell. */
  function CloseAnchored(t: int, shift: int): int {
    Max(0, t - shift)
  }

  /** The wind-down sweeps of the day, earliest first. */
  function WindDown(shift: int): (eod: seq<int>)
    ensures |eod| == 4 && forall i, j :: 0 <= i < j < 4 ==> 0 <= eod[i] <= eod[j]
  {
    [CloseAnchored(RESTING_AT, shift), CloseAnchored(LADDER_AT, shift),
     CloseAnchored(CROSS_AT, shift), CloseAnchored(TRUTH_PASS_AT, shift)]
  }

  /** The latest of the given instants that is not after t. */
  function LatestDue(instants: seq<int>, t: int): (due: int)
    requires instants != [] && instants[0] <= t
    ensures due in instants && due <= t
    ensures forall x :: x in instants && x <= t ==> x <= due
  {
    if |instants| == 1 then instants[0]
    else
      var earlier := LatestDue(instants[..|instants| - 1], t);
      var last := instants[|instants| - 1];
      assert forall x :: x in instants ==> x in instants[..|instants| - 1] || x == last;
      if last <= t && earlier < last then last else earlier
  }

  predicate InWindow(now: Now) {
    now.weekday < 5 && OPEN <= now.minute < CloseAnchored(BELL, now.shift)
  }

  /** The slot's instant, or None outside the window. */
  function Slot(now: Now, intervalMin: int): Option<int> {
    if !InWindow(now) then None
    else
      var eod := WindDown(now.shift);
      if now.minute >= eod[0] then Some(LatestDue(eod, now.minute))
      else
        var interval := Max(1, intervalMin);
        Some(OPEN + (now.minute - OPEN) / interval * interval)
  }

  /** There is a slot on weekdays from 09:30 until the day's bell. */
  lemma {:induction false} SlotIff(now: Now, intervalMin: int)
    ensures Slot(now, intervalMin).Some? <==> now.weekday < 5 && 570 <= now.minute < 960 - now.shift
  {
  }

  /** The wind-down sweeps stand fifteen, ten, five and three minutes before the bell. */
  lemma {:induction false} WindDownIs(shift: int)
    requires shift <= 945
    ensures var bell := 960 - shift;
      WindDown(shift) == [bell - 15, bell - 10, bell - 5, bell - 3]
  {
  }

  /** The schedule as the operator states it: every interval from 09:30 up to the first wind-down
      sweep, and the wind-down sweeps. */
  ghost predicate OnGrid(x: int, intervalMin: int, shift: int) {
    exists k: nat :: x == OPEN + GridOffset(k, Max(1, intervalMin)) && x < WindDown(shift)[0]
  }

  function GridOffset(k: nat, interval: int): int {
    k * interval
  }

  ghost predicate Scheduled(x: int, intervalMin: int, shift: int) {
    OnGrid(x, intervalMin, shift) || x in WindDown(shift)
  }

  lemma {:induction false} GridFloor(elapsed: nat, k: nat, interval: int)
    requires interval >= 1 && GridOffset(k, interval) <= elapsed
    ensures GridOffset(k, interval) <= elapsed / interval * interval <= elapsed
  {
    var q, r := elapsed / interval, elapsed % interval;
    assert elapsed == q * interval + r && 0 <= r < interval;
    assert (q + 1) * interval == q * interval + interval;
    if q + 1 <= k {
      MulMonotone(q + 1, k, interval);
    }
    MulMonotone(k, q, interval);
  }

  /** Inside the window the slot is the greatest scheduled instant that is not after now. */
  lemma {:induction false} SlotIsLatestScheduled(now: Now, intervalMin: int)
    requires InWindow(now)
    ensures Slot(now, intervalMin).Some?
    ensures var s := Slot(now, intervalMin).value;
      && Scheduled(s, intervalMin, now.shift)
      && s <= now.minute
      && forall x :: Scheduled(x, intervalMin, now.shift) && x <= now.minute ==> x <= s
  {
    var eod, interval := WindDown(now.shift), Max(1, intervalMin);
    var s := Slot(now, intervalMin).value;
    if now.minute < eod[0] {
      var elapsed: nat := now.minute - OPEN;
      var q: nat := elapsed / interval;
      GridFloor(elapsed, 0, interval);
      assert GridOffset(q, interval) == q * interval;
      assert OnGrid(s, intervalMin, now.shift);
      forall x | Scheduled(x, intervalMin, now.shift) && x <= now.minute ensures x <= s {
        var k: nat :| x == OPEN + GridOffset(k, interval) && x < eod[0];
        GridFloor(elapsed, k, interval);
      }
    }
  }

  /** Later in the same day is never an earlier slot. */
  lemma {:induction false} SlotMonotone(a: Now, b: Now, intervalMin: int)
    requires InWindow(a) && InWindow(b) && a.shift == b.shift && a.minute <= b.minute
    ensures Slot(a, intervalMin).value <= Slot(b, intervalMin).value
  {
    SlotIsLatestScheduled(a, intervalMin);
    SlotIsLatestScheduled(b, intervalMin);
  }

  /** A bell that rings at 09:45 or later keeps every slot at or after 09:30. */
  lemma {:induction false} SlotAfterOpen(now: Now, intervalMin: int)
    requires InWindow(now) && now.shift <= RESTING_AT - OPEN
    ensures OPEN <= Slot(now, intervalMin).value
  {
    SlotIsLatestScheduled(now, intervalMin);
    assert WindDown(now.shift)[0] in WindDown(now.shift);
    if now.minute < WindDown(now.shift)[0] {
      GridFloor(now.minute - OPEN, 0, Max(1, intervalMin));
    }
  }

  /** The bell leaves the wind-down after the open, or some sweep of it has come due since the open. */
  ghost predicate DueSinceOpen(now: Now) {
    now.shift <= RESTING_AT - OPEN || exists x :: x in WindDown(now.shift) && OPEN <= x <= now.minute
  }

  lemma {:induction false} SlotNotNegative(now: Now, intervalMin: int)
    requires InWindow(now)
    ensures 0 <= Slot(now, intervalMin).value
  {
    if now.minute < WindDown(now.shift)[0] {
      GridFloor(now.minute - OPEN, 0, Max(1, intervalMin));
    }
  }

  lemma {:induction false} SlotSinceOpenIff(now: Now, intervalMin: int)
    requires InWindow(now)
    ensures OPEN <= Slot(now, intervalMin).value <==> DueSinceOpen(now)
  {
    if now.shift <= RESTING_AT - OPEN {
      SlotAfterOpen(now, intervalMin);
    } else {
      assert WindDown(now.shift)[0] < OPEN;
    }
  }

  /** Read at its own instant a slot names itself, exactly when the wind-down starts after the open or one
      of its sweeps has come due since. */
  lemma {:induction false} SlotIdempotentIff(now: Now, intervalMin: int)
    requires InWindow(now)
    ensures var s := Slot(now, intervalMin).value;
      0 <= s && (Slot(now.(minute := s), intervalMin) == Some(s) <==> DueSinceOpen(now))
  {
    var s := Slot(now, intervalMin).value;
    SlotNotNegative(now, intervalMin);
    SlotSinceOpenIff(now, intervalMin);
    SlotIsLatestScheduled(now, intervalMin);
    if OPEN <= s {
      SlotIsLatestScheduled(now.(minute := s), intervalMin);
    }
  }

  /** A bell at 09:39 puts the 09:30 tick in a slot of 09:29, which is outside the window. */
  lemma {:induction false} VeryShortDayNamesASlotBeforeTheOpen()
    ensures var now := Now(0, 0, OPEN, 381);
      Slot(now, 10) == Some(OPEN - 1) && Slot(now.(minute := OPEN - 1), 10) == None
  {
    var eod := WindDown(381);
    assert eod == [564, 569, 574, 576];
    assert 569 in eod by { assert eod[1] == 569; }
    var due := LatestDue(eod, OPEN);
    assert due in eod && due <= 570 && 569 <= due;
  }

  // --- The latch in the tick loop ---------------------------------------------------------------

  /** The slot's text key carries the date; the model writes it as minutes since day zero. */
  function Key(now: Now, slot: int): int {
    now.day * DAY + slot
  }

  /** A key names one slot of one day. */
  lemma {:induction false} KeyNamesTheSlot(a: Now, b: Now, s: nat, t: nat)
    requires s < DAY && t < DAY
    ensures Key(a, s) == Key(b, t) <==> a.day == b.day && s == t
  {
    if a.day < b.day {
      assert a.day * DAY + DAY <= b.day * DAY;
    } else if b.day < a.day {
      assert b.day * DAY + DAY <= a.day * DAY;
    }
  }

  function Look(now: Now, intervalMin: int): Latch.Event {
    match Slot(now, intervalMin)
    case None => Latch.Event(0, false)
    case Some(s) => Latch.Event(Key(now, s), true)
  }

  function Looks(ticks: seq<Now>, intervalMin: int): (es: seq<Latch.Event>)
    ensures |es| == |ticks| && forall i :: 0 <= i < |es| ==> es[i] == Look(ticks[i], intervalMin)
  {
    seq(|ticks|, i requires 0 <= i < |ticks| => Look(ticks[i], intervalMin))
  }

  class BotState {
    var lastReconcileSlot: Option<int>
    ghost var ticks: seq<Now>
    var sweeps: seq<int>

    ghost predicate Valid(intervalMin: int)
      reads this
    {
      && sweeps == Latch.Emitted(Looks(ticks, intervalMin))
      && lastReconcileSlot == Latch.LastAfter(Looks(ticks, intervalMin))
    }

    constructor (intervalMin: int)
      ensures Valid(intervalMin) && ticks == []
    {
      lastReconcileSlot, ticks, sweeps := None, [], [];
    }

    /** One tick of the loop: sweep when the slot is new. */
    method ReconcileIfDue(now: Now, intervalMin: int)
      requires Valid(intervalMin)
      modifies this
      ensures Valid(intervalMin) && ticks == old(ticks) + [now]
    {
      Latch.Extend(Looks(ticks, intervalMin), Look(now, intervalMin));
      assert Looks(ticks + [now], intervalMin) == Looks(ticks, intervalMin) + [Look(now, intervalMin)];
      ticks := ticks + [now];
      var slot := Slot(now, intervalMin);
      if slot.Some? && lastReconcileSlot != Some(Key(now, slot.value)) {
        lastReconcileSlot := Some(Key(now, slot.value));
        sweeps := sweeps + [Key(now, slot.value)];
      }
    }
  }

  /** A run of the clock: time does not go back, and a day has one bell and one weekday. */
  ghost predicate ClockRun(ticks: seq<Now>) {
    && (forall i :: 0 <= i < |ticks| ==> ticks[i].minute < DAY)
    && forall i, j :: 0 <= i < j < |ticks| ==>
         || ticks[i].day < ticks[j].day
         || (ticks[i].(minute := ticks[j].minute) == ticks[j] && ticks[i].minute <= ticks[j].minute)
  }

  lemma {:induction false} LooksMonotone(ticks: seq<Now>, intervalMin: int)
    requires ClockRun(ticks)
    ensures Latch.Monotone(Looks(ticks, intervalMin))
  {
    var es := Looks(ticks, intervalMin);
    forall i, j | 0 <= i < j < |es| && es[i].ready && es[j].ready ensures es[i].key <= es[j].key {
      SlotNotNegative(ticks[i], intervalMin);
      SlotNotNegative(ticks[j], intervalMin);
      SlotIsLatestScheduled(ticks[i], intervalMin);
      SlotIsLatestScheduled(ticks[j], intervalMin);
      if ticks[i].day == ticks[j].day {
        SlotMonotone(ticks[i], ticks[j], intervalMin);
      } else {
        assert ticks[i].day * DAY + DAY <= ticks[j].day * DAY;
      }
    }
  }

  /** Over any run, a slot is swept exactly once if some tick reads it, and never otherwise. */
  lemma {:induction false} EachSlotSweptOnce(ticks: seq<Now>, intervalMin: int)
    requires ClockRun(ticks)
    ensures var sweeps := Latch.Emitted(Looks(ticks, intervalMin));
      && Latch.StrictlyIncreasing(sweeps)
      && forall k :: k in sweeps <==> Latch.ReadyIn(Looks(ticks, intervalMin), k)
  {
    LooksMonotone(ticks, intervalMin);
    Latch.ExactlyOncePerKey(Looks(ticks, intervalMin));
  }

  /** A scheduled instant is swept if a trading tick comes at or after it and before its successor. */
  lemma {:induction false} ScheduledInstantSwept(ticks: seq<Now>, intervalMin: int, n: nat, x: int)
    requires ClockRun(ticks) && n < |ticks| && InWindow(ticks[n])
    requires Scheduled(x, intervalMin, ticks[n].shift) && x <= ticks[n].minute
    requires forall y :: Scheduled(y, intervalMin, ticks[n].shift) && x < y ==> ticks[n].minute < y
    ensures Key(ticks[n], x) in Latch.Emitted(Looks(ticks, intervalMin))
  {
    SlotIsLatestScheduled(ticks[n], intervalMin);
    EachSlotSweptOnce(ticks, intervalMin);
    assert Looks(ticks, intervalMin)[n] == Latch.Event(Key(ticks[n], x), true);
  }
}
