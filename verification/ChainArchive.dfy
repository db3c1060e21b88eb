/**
 The chain archive's cadence: one full chain per wall-clock bucket.  The bucket text is the date and a
 slot number, written here as one number; the empty text of a disabled cadence is None.
 */
module ChainArchive {
  import opened Common
  import Latch

  const DAY := 24 * 60

  datatype Now = Now(day: int, minute: nat)

  datatype Chain = Chain(calls: seq<string>, puts: seq<string>)

  /** One attempt to archive: the chain in hand, the clock, and whether the file would take the line. */
  datatype Attempt = Attempt(chain: Option<Chain>, now: Now, force: bool, writable: bool)

  datatype Line = Line(bucket: Option<int>, contracts: seq<string>)

  function SlotMinutes(intervalMin: real): (m: int)
    ensures 1 <= m
  {
    Max(intervalMin.Floor, 1)
  }

  function Bucket(now: Now, intervalMin: real): Option<int> {
    if intervalMin <= 0.0 then None else Some(now.day * DAY + now.minute / SlotMinutes(intervalMin))
  }

  /** How wide a slot is: the whole minutes of the interval, and never less than one. */
  function WidthOf(intervalMin: real): (w: nat)
    ensures w >= 1 && (intervalMin >= 1.0 ==> w as real <= intervalMin < w as real + 1.0)
    ensures intervalMin < 1.0 ==> w == 1
  {
    if intervalMin < 1.0 then 1 else intervalMin.Floor
  }

  function SlotStart(k: nat, width: nat): nat {
    k * width
  }

  /** Two moments share a bucket exactly when they are of one day and no slot begins between them; slots begin at
      every multiple of the width. */
  lemma {:induction false} SameBucketIff(a: Now, b: Now, intervalMin: real)
    requires intervalMin > 0.0 && a.minute < DAY && b.minute < DAY
    ensures Bucket(a, intervalMin) == Bucket(b, intervalMin)
       <==> && a.day == b.day
            && forall k: nat :: SlotStart(k, WidthOf(intervalMin)) <= a.minute
                                <==> SlotStart(k, WidthOf(intervalMin)) <= b.minute
  {
    var width := WidthOf(intervalMin);
    assert SlotMinutes(intervalMin) == width;
    SlotOf(a.minute, width);
    SlotOf(b.minute, width);
    DivMonotone(a.minute, a.minute, width);
    DivMonotone(b.minute, b.minute, width);
    if a.day < b.day {
      assert a.day * DAY + DAY <= b.day * DAY;
    } else if b.day < a.day {
      assert b.day * DAY + DAY <= a.day * DAY;
    } else {
      var p: nat, q: nat := a.minute / width, b.minute / width;
      if forall k: nat :: SlotStart(k, width) <= a.minute <==> SlotStart(k, width) <= b.minute {
        assert SlotStart(p, width) <= a.minute && SlotStart(q, width) <= b.minute;
        assert p == q;
      }
    }
  }

  lemma {:induction false} SlotOf(minute: nat, width: nat)
    requires width >= 1
    ensures minute / width >= 0
    ensures forall k: nat :: SlotStart(k, width) <= minute <==> k <= minute / width
  {
    DivFloors(minute, width);
    forall k: nat ensures SlotStart(k, width) <= minute <==> k <= minute / width {
      if k <= minute / width {
        MulMonotone(k, minute / width, width);
      } else {
        MulMonotone(minute / width + 1, k, width);
      }
    }
  }

  predicate HasContracts(a: Attempt) {
    a.chain.Some? && (a.chain.value.calls != [] || a.chain.value.puts != [])
  }

  function LineOf(a: Attempt, intervalMin: real): Line
    requires a.chain.Some?
  {
    Line(Bucket(a.now, intervalMin), a.chain.value.calls + a.chain.value.puts)
  }

  /** Whether the attempt writes, given the bucket of the last write. */
  predicate Writes(a: Attempt, intervalMin: real, last: Option<int>) {
    && (intervalMin > 0.0 || a.force)
    && HasContracts(a)
    && (a.force || Bucket(a.now, intervalMin) != last)
    && a.writable
  }

  class Archive {
    const intervalMin: real
    var lastBucket: Option<int>
    var lines: seq<Line>

    constructor (intervalMin: real)
      ensures this.intervalMin == intervalMin && lastBucket == None && lines == []
    {
      this.intervalMin, lastBucket, lines := intervalMin, None, [];
    }

    /** A failed write raises before the bucket is remembered. */
    method Snapshot(a: Attempt) returns (written: bool)
      modifies this
      ensures written <==> Writes(a, intervalMin, old(lastBucket))
      ensures lines == old(lines) + if written then [LineOf(a, intervalMin)] else []
      ensures lastBucket == if written then Bucket(a.now, intervalMin) else old(lastBucket)
    {
      if intervalMin <= 0.0 && !a.force {
        return false;
      }
      if a.chain.None? {
        return false;
      }
      var bucket := Bucket(a.now, intervalMin);
      if !a.force && bucket == lastBucket {
        return false;
      }
      if a.chain.value.calls == [] && a.chain.value.puts == [] {
        return false;
      }
      if !a.writable {
        return false;
      }
      lines := lines + [Line(bucket, a.chain.value.calls + a.chain.value.puts)];
      lastBucket := bucket;
      return true;
    }
  }

  function Look(a: Attempt, intervalMin: real): Latch.Event {
    if intervalMin > 0.0 && HasContracts(a) && a.writable
    then Latch.Event(Bucket(a.now, intervalMin).value, true)
    else Latch.Event(0, false)
  }

  function Looks(attempts: seq<Attempt>, intervalMin: real): (es: seq<Latch.Event>)
    ensures |es| == |attempts| && forall i :: 0 <= i < |es| ==> es[i] == Look(attempts[i], intervalMin)
  {
    seq(|attempts|, i requires 0 <= i < |attempts| => Look(attempts[i], intervalMin))
  }

  /** A day's worth of unforced attempts against a clock that does not go back. */
  ghost predicate UnforcedRun(attempts: seq<Attempt>) {
    && (forall i :: 0 <= i < |attempts| ==> !attempts[i].force && attempts[i].now.minute < DAY)
    && forall i, j :: 0 <= i < j < |attempts| ==>
         || attempts[i].now.day < attempts[j].now.day
         || (attempts[i].now.day == attempts[j].now.day && attempts[i].now.minute <= attempts[j].now.minute)
  }

  lemma {:induction false} LooksMonotone(attempts: seq<Attempt>, intervalMin: real)
    requires UnforcedRun(attempts)
    ensures Latch.Monotone(Looks(attempts, intervalMin))
  {
    var es := Looks(attempts, intervalMin);
    forall i, j | 0 <= i < j < |es| && es[i].ready && es[j].ready ensures es[i].key <= es[j].key {
      BucketMonotone(attempts[i].now, attempts[j].now, intervalMin);
    }
  }

  lemma {:induction false} BucketMonotone(a: Now, b: Now, intervalMin: real)
    requires intervalMin > 0.0 && a.minute < DAY
    requires a.day < b.day || (a.day == b.day && a.minute <= b.minute)
    ensures Bucket(a, intervalMin).value <= Bucket(b, intervalMin).value
  {
    var width := SlotMinutes(intervalMin);
    DivMonotone(a.minute, a.minute, width);
    if a.day == b.day {
      DivMonotone(a.minute, b.minute, width);
    } else {
      DivMonotone(b.minute, b.minute, width);
      assert a.day * DAY + DAY <= b.day * DAY;
    }
  }

  function Buckets(lines: seq<Line>): (ks: seq<int>)
    requires forall l :: l in lines ==> l.bucket.Some?
    ensures |ks| == |lines| && forall i :: 0 <= i < |ks| ==> Some(ks[i]) == lines[i].bucket
  {
    seq(|lines|, i requires 0 <= i < |lines| => lines[i].bucket.value)
  }

  /** The bucket holds an attempt that could be archived. */
  ghost predicate BucketArchivable(attempts: seq<Attempt>, intervalMin: real, k: int) {
    exists i :: 0 <= i < |attempts| && HasContracts(attempts[i]) && attempts[i].writable
                && Bucket(attempts[i].now, intervalMin) == Some(k)
  }

  lemma {:induction false} ReadyIffArchivable(attempts: seq<Attempt>, intervalMin: real, k: int)
    ensures Latch.ReadyIn(Looks(attempts, intervalMin), k) <==> BucketArchivable(attempts, intervalMin, k)
  {
    var es := Looks(attempts, intervalMin);
    if Latch.ReadyIn(es, k) {
      var i :| 0 <= i < |es| && es[i].ready && es[i].key == k;
      assert es[i] == Look(attempts[i], intervalMin);
    }
    if BucketArchivable(attempts, intervalMin, k) {
      var i :| 0 <= i < |attempts| && HasContracts(attempts[i]) && attempts[i].writable
               && Bucket(attempts[i].now, intervalMin) == Some(k);
      assert es[i] == Look(attempts[i], intervalMin);
    }
  }

  /** Drives the archive over a run.  A bucket is archived exactly once if it holds an attempt with a
      non-empty chain that the file would take, and not at all otherwise; so a failed write leaves
      its bucket open. */
  method ArchiveRun(attempts: seq<Attempt>, intervalMin: real) returns (lines: seq<Line>)
    requires UnforcedRun(attempts)
    ensures forall l :: l in lines ==> l.bucket.Some?
    ensures Latch.StrictlyIncreasing(Buckets(lines))
    ensures forall k :: k in Buckets(lines) <==> BucketArchivable(attempts, intervalMin, k)
  {
    var archive := new Archive(intervalMin);
    var es := Looks(attempts, intervalMin);
    for n := 0 to |attempts|
      invariant archive.intervalMin == intervalMin
      invariant forall l :: l in archive.lines ==> l.bucket.Some?
      invariant Buckets(archive.lines) == Latch.Emitted(es[..n])
      invariant archive.lastBucket == Latch.LastAfter(es[..n])
    {
      Latch.Extend(es[..n], es[n]);
      assert es[..n + 1] == es[..n] + [es[n]];
      ghost var before := archive.lines;
      var written := archive.Snapshot(attempts[n]);
      assert written <==> Latch.Fires(es[n], Latch.LastAfter(es[..n]));
      assert Buckets(archive.lines) == Buckets(before) + if written then [es[n].key] else [];
    }
    assert es[..|attempts|] == es;
    LooksMonotone(attempts, intervalMin);
    Latch.ExactlyOncePerKey(es);
    lines := archive.lines;
    forall k ensures k in Buckets(lines) <==> BucketArchivable(attempts, intervalMin, k) {
      ReadyIffArchivable(attempts, intervalMin, k);
    }
  }
}
