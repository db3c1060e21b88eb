/**
 The edge-triggered latch behind three once-per-key duties of the tick loop: the broker reconcile
 slot, the chain archive's cadence bucket and the commitment recorder's bar.  Each keeps the last
 key it acted on, compares for equality (never for order) and acts when the key has changed.
 */
module Latch {
  import opened Common

  /** One look at the latch: the key read this time, and whether the duty could be done at all. */
  datatype Event = Event(key: int, ready: bool)

  predicate Fires(e: Event, last: Option<int>) {
    e.ready && last != Some(e.key)
  }

  function Next(e: Event, last: Option<int>): Option<int> {
    if Fires(e, last) then Some(e.key) else last
  }

  /** The remembered key after a run that started with an empty memory. */
  function LastAfter(es: seq<Event>): Option<int> {
    if es == [] then None else Next(es[|es| - 1], LastAfter(es[..|es| - 1]))
  }

  /** The keys acted on by a run that started with an empty memory, in order. */
  function Emitted(es: seq<Event>): seq<int> {
    if es == [] then []
    else
      var init, e := es[..|es| - 1], es[|es| - 1];
      Emitted(init) + if Fires(e, LastAfter(init)) then [e.key] else []
  }

  /** The keys of the usable events never go backwards. */
  ghost predicate Monotone(es: seq<Event>) {
    forall i, j :: 0 <= i < j < |es| && es[i].ready && es[j].ready ==> es[i].key <= es[j].key
  }

  ghost predicate ReadyIn(es: seq<Event>, k: int) {
    exists i :: 0 <= i < |es| && es[i].ready && es[i].key == k
  }

  ghost predicate StrictlyIncreasing(ks: seq<int>) {
    forall i, j :: 0 <= i < j < |ks| ==> ks[i] < ks[j]
  }

  /** Extending a run by one event extends what it emitted by at most that event's key. */
  lemma {:induction false} Extend(es: seq<Event>, e: Event)
    ensures Emitted(es + [e]) == Emitted(es) + if Fires(e, LastAfter(es)) then [e.key] else []
    ensures LastAfter(es + [e]) == Next(e, LastAfter(es))
  {
    assert (es + [e])[..|es|] == es;
  }

  lemma {:induction false} ReadySnoc(es: seq<Event>, e: Event, k: int)
    ensures ReadyIn(es + [e], k) <==> ReadyIn(es, k) || (e.ready && e.key == k)
  {
    var all := es + [e];
    if ReadyIn(es, k) {
      var i :| 0 <= i < |es| && es[i].ready && es[i].key == k;
      assert all[i] == es[i];
    }
    if e.ready && e.key == k {
      assert all[|es|] == e;
    }
  }

  lemma {:induction false} MonotoneSnoc(es: seq<Event>, e: Event)
    requires Monotone(es + [e])
    ensures Monotone(es)
    ensures e.ready ==> forall k :: ReadyIn(es, k) ==> k <= e.key
  {
    var all := es + [e];
    forall i | 0 <= i < |es| ensures all[i] == es[i] {
    }
    assert all[|es|] == e;
  }

  /** Every usable key is acted on exactly once, in order, and nothing else is. */
  lemma {:induction false} ExactlyOncePerKey(es: seq<Event>)
    requires Monotone(es)
    ensures StrictlyIncreasing(Emitted(es))
    ensures forall k :: k in Emitted(es) <==> ReadyIn(es, k)
    ensures LastAfter(es) == if Emitted(es) == [] then None else Some(Emitted(es)[|Emitted(es)| - 1])
  {
    if es != [] {
      var init, e := es[..|es| - 1], es[|es| - 1];
      assert es == init + [e];
      MonotoneSnoc(init, e);
      ExactlyOncePerKey(init);
      OneMoreEvent(init, e);
    }
  }

  lemma {:induction false} OneMoreEvent(es: seq<Event>, e: Event)
    requires StrictlyIncreasing(Emitted(es))
    requires forall k :: k in Emitted(es) <==> ReadyIn(es, k)
    requires LastAfter(es) == if Emitted(es) == [] then None else Some(Emitted(es)[|Emitted(es)| - 1])
    requires e.ready ==> forall k :: ReadyIn(es, k) ==> k <= e.key
    ensures StrictlyIncreasing(Emitted(es + [e]))
    ensures forall k :: k in Emitted(es + [e]) <==> ReadyIn(es + [e], k)
    ensures LastAfter(es + [e])
         == if Emitted(es + [e]) == [] then None else Some(Emitted(es + [e])[|Emitted(es + [e])| - 1])
  {
    var out := Emitted(es);
    Extend(es, e);
    if out != [] {
      assert out[|out| - 1] in out;
    }
    forall k ensures k in Emitted(es + [e]) <==> ReadyIn(es + [e], k) {
      ReadySnoc(es, e, k);
    }
  }

  /** The moment of the action: the first usable event that carries the key. */
  lemma {:induction false} FiresExactlyAtFirst(es: seq<Event>, n: nat)
    requires n < |es| && Monotone(es)
    ensures Fires(es[n], LastAfter(es[..n]))
       <==> es[n].ready && !ReadyIn(es[..n], es[n].key)
  {
    var before := es[..n];
    assert Monotone(before) by {
      forall i, j | 0 <= i < j < |before| && before[i].ready && before[j].ready
        ensures before[i].key <= before[j].key
      {
        assert before[i] == es[i] && before[j] == es[j];
      }
    }
    ExactlyOncePerKey(before);
    var out := Emitted(before);
    if es[n].ready && ReadyIn(before, es[n].key) {
      var p :| 0 <= p < |out| && out[p] == es[n].key;
      var top := out[|out| - 1];
      assert top in out;
      var i :| 0 <= i < |before| && before[i].ready && before[i].key == top;
      assert es[i] == before[i];
    }
  }

  /** The latch tests equality only: a key acted on before is acted on again once another has intervened. */
  lemma {:induction false} BackwardsKeyFiresAgain(es: seq<Event>, key: int)
    requires key in Emitted(es) && LastAfter(es) != Some(key)
    ensures Emitted(es + [Event(key, true)]) == Emitted(es) + [key]
    ensures !StrictlyIncreasing(Emitted(es + [Event(key, true)]))
  {
    Extend(es, Event(key, true));
    var out := Emitted(es) + [key];
    var i :| 0 <= i < |Emitted(es)| && Emitted(es)[i] == key;
    assert out[i] == out[|out| - 1];
  }
}
