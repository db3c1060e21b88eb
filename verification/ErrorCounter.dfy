/**
 The tick loop's error counter: `errors_this_hour` goes up by one on a tick that raises, down by one
 (never below zero) on a regular-hours tick that runs to its end, and is untouched by a tick that
 leaves through `continue`.  The process shuts down when an error takes it above thirty.
 */
module ErrorCounter {
  import opened Common

  datatype Tick = Raised | Completed | Continued

  const SHUTDOWN_ABOVE := 30

  class BotState {
    var errorsThisHour: int

    constructor ()
      ensures errorsThisHour == 0
    {
      errorsThisHour := 0;
    }

    /** The end of one tick: the counter moves, and an error may end the process. */
    method EndTick(t: Tick) returns (shutdown: bool)
      modifies this
      ensures errorsThisHour == Step(old(errorsThisHour), t)
      ensures shutdown <==> t.Raised? && errorsThisHour > 30
    {
      shutdown := false;
      match t {
        case Completed =>
          errorsThisHour := Max(0, errorsThisHour - 1);
        case Raised =>
          errorsThisHour := errorsThisHour + 1;
          shutdown := errorsThisHour > SHUTDOWN_ABOVE;
        case Continued =>
      }
    }
  }

  function Step(count: int, t: Tick): int {
    match t
    case Raised => count + 1
    case Completed => Max(0, count - 1)
    case Continued => count
  }

  /** The counter after the first n ticks of a history, were the process never to stop. */
  function Counter(history: seq<Tick>, n: nat): int
    requires n <= |history|
  {
    if n == 0 then 0 else Step(Counter(history, n - 1), history[n - 1])
  }

  function Weight(t: Tick): int {
    match t
    case Raised => 1
    case Completed => -1
    case Continued => 0
  }

  /** Errors minus completed ticks over history[from..to]. */
  function Excess(history: seq<Tick>, from: nat, to: nat): int
    requires from <= to <= |history|
  {
    if from == to then 0 else Excess(history, from, to - 1) + Weight(history[to - 1])
  }

  /** The saturating counter is the largest excess of any window that ends now. */
  lemma {:induction false} CounterIsLargestExcess(history: seq<Tick>, n: nat)
    requires n <= |history|
    ensures forall i: nat :: i <= n ==> Excess(history, i, n) <= Counter(history, n)
    ensures exists i: nat :: i <= n && Excess(history, i, n) == Counter(history, n)
  {
    if n == 0 {
      assert Excess(history, 0, 0) == 0;
    } else {
      CounterIsLargestExcess(history, n - 1);
      var best: nat :| best <= n - 1 && Excess(history, best, n - 1) == Counter(history, n - 1);
      assert Excess(history, n, n) == 0;
      assert Excess(history, n - 1, n - 1) == 0;
      assert Excess(history, best, n) == Excess(history, best, n - 1) + Weight(history[n - 1]);
    }
  }

  /** Some window made of the last of the first `done` ticks holds 31 more errors than completed ticks. */
  ghost predicate Overrun(history: seq<Tick>, done: nat)
    requires done <= |history|
  {
    exists i: nat :: i <= done && Excess(history, i, done) == 31
  }

  /** While the limit has not been passed, passing it on this tick is exactly an overrun window ending here. */
  lemma {:induction false} ShutdownIffOverrun(history: seq<Tick>, n: nat)
    requires n < |history| && Counter(history, n) <= SHUTDOWN_ABOVE
    ensures history[n].Raised? && Counter(history, n + 1) > SHUTDOWN_ABOVE <==> Overrun(history, n + 1)
  {
    CounterIsLargestExcess(history, n + 1);
    if Counter(history, n + 1) > SHUTDOWN_ABOVE {
      assert Counter(history, n + 1) == SHUTDOWN_ABOVE + 1;
    }
  }

  /** The loop over the ticks of a process's life: how many ticks run before it shuts down, if it does. */
  method MainLoop(history: seq<Tick>) returns (ran: nat, shutdown: bool)
    ensures ran <= |history|
    ensures shutdown ==> Overrun(history, ran)
    ensures forall done: nat :: done < ran ==> !Overrun(history, done)
    ensures !shutdown ==> ran == |history| && !Overrun(history, ran)
  {
    var state := new BotState();
    ran, shutdown := 0, false;
    assert !Overrun(history, 0) by {
      assert forall i: nat :: i <= 0 ==> Excess(history, i, 0) == 0;
    }
    while ran < |history| && !shutdown
      invariant ran <= |history|
      invariant state.errorsThisHour == Counter(history, ran)
      invariant !shutdown ==> Counter(history, ran) <= SHUTDOWN_ABOVE
      invariant shutdown <==> Overrun(history, ran)
      invariant forall done: nat :: done < ran ==> !Overrun(history, done)
      decreases |history| - ran
    {
      shutdown := state.EndTick(history[ran]);
      ShutdownIffOverrun(history, ran);
      ran := ran + 1;
    }
  }
}
