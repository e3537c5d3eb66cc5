/** Bundles events into multievents and gives their memory back in order. */
module Accumulators {
  import opened Bundles
  import opened Controllers
  import opened DataFormat
  import opened Prefix
  import opened Ring

  class Accumulator {
    const controller: Controller
    const metadata: array<EventMetaData>
    const bulk: nat
    ghost const slots: nat
    ghost const maxFragment: nat
    /** First event not bundled yet. */
    var current: nat
    /** Events generated but not bundled yet. */
    var generatedEvents: nat
    /** Multievents held, oldest first, and whether each has completed. */
    var multievents: seq<(nat, bool)>
    /** First event not given back yet. */
    var releaseMetadata: nat
    ghost var acquired: nat
    ghost var released: nat
    ghost var done: set<nat>

    ghost function Store(): Memory
      reads metadata
    {
      Memory(metadata[..], maxFragment, bulk, slots)
    }

    /** The fields in terms of the counters, except that what has completed may not be given back yet. */
    ghost predicate Consistent()
      reads this, metadata, controller, controller.generator, controller.generator.buffer
    {
      && Store().Ok() && controller.Valid() && controller.size == metadata.Length
      && controller.generatedEvents == bulk * acquired + generatedEvents
      && controller.releasedEvents == bulk * released
      && current == Store().First(acquired)
      && releaseMetadata == Store().First(released)
      && |multievents| == acquired - released < slots
      && Tracks(Store(), multievents, released, done)
      && (forall t :: 0 <= t < released ==> t in done)
      && (forall t :: t in done ==> t < acquired)
    }

    /** Exactly the longest completed prefix has been given back. */
    ghost predicate Valid()
      reads this, metadata, controller, controller.generator, controller.generator.buffer
    {
      Consistent() && released == Mex(done)
    }

    constructor (controller: Controller, metadata: array<EventMetaData>, bulk: nat, ghost slots: nat,
                 ghost maxFragment: nat)
      requires controller.Valid() && controller.generatedEvents == controller.releasedEvents == 0
      requires controller.size == metadata.Length
      ensures (Store().Ok() ==> Valid()) && acquired == 0 && done == {}
      ensures this.controller == controller && this.metadata == metadata
      ensures this.bulk == bulk && this.slots == slots && this.maxFragment == maxFragment
    {
      this.controller, this.metadata, this.bulk := controller, metadata, bulk;
      this.slots, this.maxFragment := slots, maxFragment;
      current, generatedEvents, multievents, releaseMetadata := 0, 0, [], 0;
      acquired, released, done := 0, 0, {};
    }

    /** Whether the data of a range of events wraps round the end of the buffer. */
    method CheckDataWrap(first: nat, last: nat) returns (wrap: bool)
      requires first < metadata.Length && last < metadata.Length && first != last
      ensures var u := Unroll(metadata[..], first, last);
              wrap <==> exists j :: 0 <= j < |u| && u[j].offset < metadata[first].offset
    {
      var firstOffset := metadata[first].offset;
      var op := (m: EventMetaData) => m.offset < firstOffset;
      FindAgreesWithUnroll(metadata[..], first, last, op);
      var it := FindInRange(metadata[..], first, last, op);
      wrap := it != last;
    }

    /** Takes the next `bulk` events if they are there. `due` is what the clock asks for by now. */
    method GetMultievent(due: nat) returns (iov: Iovec, ok: bool)
      requires Valid() && controller.lastDue <= due
      modifies this`current, this`generatedEvents, this`multievents, this`acquired
      modifies controller, controller.generator.buffer
      ensures Valid() && controller.lastDue <= due
      ensures acquired == old(acquired) + if ok then 1 else 0
      ensures ok <==> old(acquired) < Mex(done) + (slots - 1) && bulk * (old(acquired) + 1) <= due
      ensures ok ==> iov == Store().Bundle(old(acquired))
      ensures ok <==> old(|multievents|) < slots - 1 && bulk * (old(acquired) + 1) <= due
      ensures if ok then Takes(old(current), current, old(multievents), multievents, iov)
              else current == old(current) && multievents == old(multievents)
    {
      WhenBundleIsReady(Store(), acquired, released, generatedEvents, due);
      if generatedEvents < bulk {
        FillUp(due);
      }
      ok := bulk <= generatedEvents;
      if ok {
        iov := Bundle();
      } else {
        iov := Iovec(0, 0);
      }
    }

    /** A bundle of `bulk` records, from the first one's data to the end of the last one's, is taken and queued. */
    ghost predicate Takes(first: nat, next: nat, queue: seq<(nat, bool)>, queue': seq<(nat, bool)>, iov: Iovec)
      reads metadata
    {
      && 0 < bulk && first + bulk <= metadata.Length
      && next == (first + bulk) % metadata.Length && queue' == queue + [(iov.base, false)]
      && iov.base == metadata[first].offset
      && iov.base + iov.len == metadata[first + bulk - 1].offset + metadata[first + bulk - 1].length
    }

    /** Reads from the controller. */
    method FillUp(due: nat)
      requires Valid() && controller.lastDue <= due && generatedEvents < bulk
      modifies this`generatedEvents, controller, controller.generator.buffer
      ensures Valid() && controller.lastDue == due
      ensures generatedEvents == AfterRead(Store(), acquired, released, old(generatedEvents), due)
    {
      var first, last := controller.Read(due);
      generatedEvents := generatedEvents + Distance(first, last, metadata.Length);
    }

    /** Makes a multievent of the next `bulk` events. */
    method Bundle() returns (iov: Iovec)
      requires Valid() && bulk <= generatedEvents && acquired + 1 < released + slots
      modifies this`current, this`generatedEvents, this`multievents, this`acquired
      ensures Valid() && acquired == old(acquired) + 1
      ensures iov == Store().Bundle(old(acquired))
      ensures Takes(old(current), current, old(multievents), multievents, iov)
    {
      var last;
      BundleFits(Store(), acquired, acquired);
      iov, last := NextBundle();
      TracksAppend(Store(), multievents, released, done);
      multievents := multievents + [(iov.base, false)];
      generatedEvents := generatedEvents - bulk;
      current := last;
      acquired := acquired + 1;
    }

    /** The event after the next bundle. The check for a wrap cannot fire. */
    method EndOfBundle() returns (last: nat)
      requires Valid()
      ensures last == Store().First(acquired + 1) && Advance(last, -1, metadata.Length) == current + bulk - 1
      ensures last == (current + bulk) % metadata.Length
    {
      AdvanceIsModular(current, bulk, metadata.Length);
      OneBundle(Store(), acquired);
      last := Advance(current, bulk, metadata.Length);
      var wrap := CheckDataWrap(current, last);
      NoWrap(Store(), acquired);
      assert !wrap;
    }

    /** The data of the next bundle and the event after it. */
    method NextBundle() returns (iov: Iovec, last: nat)
      requires Valid()
      ensures iov == Store().Bundle(acquired)
      ensures last == Store().First(acquired + 1) == (current + bulk) % metadata.Length
      ensures bulk * (acquired + 1) == bulk * acquired + bulk
    {
      MulOrder(bulk, acquired, 1);
      last := EndOfBundle();
      var lastMetadata := Advance(last, -1, metadata.Length);
      BundleFits(Store(), acquired, acquired);
      var dataEnd := metadata[lastMetadata].offset + metadata[lastMetadata].length;
      iov := Iovec(metadata[current].offset, dataEnd - metadata[current].offset);
    }

    /** Completions arrive in any order; memory is given back in order. */
    method ReleaseMultievents(vect: seq<nat>)
      requires Valid() && Releasable(Store(), acquired, done, vect)
      modifies this`multievents, this`releaseMetadata, this`released, this`done
      modifies controller`releasedEvents, controller.generator.buffer
      ensures Valid() && done == AfterRelease(Store(), acquired, old(done), vect)
      ensures Settled(old(multievents), multievents, vect)
      ensures releaseMetadata
              == (old(releaseMetadata) + bulk * (|old(multievents)| - |multievents|)) % metadata.Length
    {
      ghost var before, queue := done, multievents;
      MarkAndRelease(vect);
      ReleaseInFields(Store(), acquired, queue, before, vect, multievents);
    }

    method MarkAndRelease(vect: seq<nat>)
      requires Valid() && Releasable(Store(), acquired, done, vect)
      modifies this`multievents, this`releaseMetadata, this`released, this`done
      modifies controller`releasedEvents, controller.generator.buffer
      ensures Valid() && done == AfterRelease(Store(), acquired, old(done), vect)
    {
      MarkAll(vect);
      var _ := ReleaseContiguousMemory();
    }

    method MarkAll(vect: seq<nat>)
      requires Valid() && Releasable(Store(), acquired, done, vect)
      modifies this`multievents, this`done
      ensures Consistent() && done == AfterRelease(Store(), acquired, old(done), vect)
    {
      ghost var before := done;
      for i := 0 to |vect|
        invariant Consistent() && released == Mex(before)
        invariant done == AfterRelease(Store(), acquired, before, vect[..i])
      {
        ghost var t := OneMoreKey(Store(), acquired, before, vect, i);
        MarkCompleted(vect[i], t);
      }
      assert vect[..|vect|] == vect;
    }

    /** Flags the multievent at an address; the searches of the program cannot come up empty. */
    method MarkCompleted(addr: nat, ghost t: nat)
      requires Consistent() && released <= t < acquired && t !in done && Store().Base(t) == addr
      modifies this`multievents, this`done
      ensures Consistent() && done == old(done) + {t}
    {
      var atAddress := (p: (nat, bool)) => p.0 == addr;
      var it := FindIf(multievents, 0, |multievents|, atAddress);
      assert multievents[t - released] == (addr, false);
      if it < t - released {
        BasesDiffer(Store(), released + it, t);
      }
      assert it != |multievents| && !multievents[it].1;
      TracksFlag(Store(), multievents, released, done, it);
      multievents := multievents[it := (multievents[it].0, true)];
      done := done + {t};
    }

    /** Gives back the longest completed run at the front of the queue; returns its length. */
    method ReleaseContiguousMemory() returns (count: nat)
      requires Consistent()
      modifies this`multievents, this`releaseMetadata, this`released
      modifies controller`releasedEvents, controller.generator.buffer
      ensures Valid() && released == old(released) + count
    {
      var pending := (p: (nat, bool)) => !p.1;
      count := FindIf(multievents, 0, |multievents|, pending);
      FrontIsPrefix(Store(), multievents, released, done, count);
      if count != 0 {
        GiveBack(count);
      }
    }

    /** Gives back the first `count` multievents. */
    method GiveBack(count: nat)
      requires Consistent() && released + count == Mex(done) && count <= |multievents|
      modifies this`multievents, this`releaseMetadata, this`released
      modifies controller`releasedEvents, controller.generator.buffer
      ensures Valid()
    {
      GiveBackFacts(Store(), multievents, released, count, acquired, done);
      var last := Advance(releaseMetadata, bulk * count, metadata.Length);
      controller.Release(releaseMetadata, last);
      releaseMetadata := last;
      multievents := multievents[count..];
      released := released + count;
    }
  }

  /** What happens where two multievents in the queue have one address, which `Memory.Ok` excludes: both
      completions find the older one, and the program's assertion that it is not flagged yet fails on the
      second, unless it has been given back in between. */
  lemma SharedAddressFails(queue: seq<(nat, bool)>, i: nat, j: nat)
    requires i < j < |queue| && queue[i].0 == queue[j].0 && forall l :: 0 <= l < i ==> queue[l].0 != queue[i].0
    ensures var atAddress := (p: (nat, bool)) => p.0 == queue[j].0;
            var flagged := queue[i := (queue[i].0, true)];
            && FindIf(queue, 0, |queue|, atAddress) == i
            && FindIf(flagged, 0, |flagged|, atAddress) == i && flagged[i].1
  {
    var atAddress := (p: (nat, bool)) => p.0 == queue[j].0;
    var flagged := queue[i := (queue[i].0, true)];
    FindIfIs(queue, 0, |queue|, atAddress, i);
    FindIfIs(flagged, 0, |flagged|, atAddress, i);
  }

  /** The queue, the cursors and the events given back depend on nothing but what has been acquired
      and what has completed. */
  lemma StateIsDetermined(a: Accumulator, b: Accumulator)
    requires a.Valid() && b.Valid() && a.Store() == b.Store()
    requires a.acquired == b.acquired && a.done == b.done
    ensures a.multievents == b.multievents && a.releaseMetadata == b.releaseMetadata && a.current == b.current
    ensures a.controller.releasedEvents == b.controller.releasedEvents
    ensures a.controller.generator.buffer.nextRead == b.controller.generator.buffer.nextRead
  {
  }

  /** The generator's ring holds exactly the multievents in the queue and the events that are not
      bundled yet, and the three counters stay within one turn of the table of each other. */
  lemma ReadyIsAccountedFor(a: Accumulator)
    requires a.Valid()
    ensures a.controller.generator.buffer.Ready() == a.bulk * |a.multievents| + a.generatedEvents
    ensures a.controller.releasedEvents <= a.bulk * a.acquired <= a.controller.generatedEvents
    ensures a.controller.generatedEvents <= a.controller.releasedEvents + |a.metadata[..]| - 1
  {
    var held := |a.multievents|;
    assert a.acquired == a.released + held;
    MulOrder(a.bulk, a.released, held);
  }
}
