/** Multievents as bundles of consecutive records of the event table, and what completions do to them. */
module Bundles {
  import opened DataFormat
  import opened Prefix
  import opened Ring

  function SumLengths(table: seq<EventMetaData>, lo: nat, hi: nat): nat
    requires lo <= hi <= |table|
  {
    if lo == hi then 0 else SumLengths(table, lo, hi - 1) + table[hi - 1].length
  }

  /** The event table of a node, cut into `slots` bundles of `bulk` events. Multievent `t` uses the
      bundle in slot t mod `slots`. */
  datatype Memory = Memory(table: seq<EventMetaData>, maxFragment: nat, bulk: nat, slots: nat) {

    ghost predicate Cut() {
      0 < bulk && 1 < slots && |table| == bulk * slots && BackToBack(table, |table|)
    }

    /** Table index of the first event in a slot. */
    function Start(x: nat): (i: nat)
      requires Cut() && x < slots
      ensures i + bulk <= |table|
    {
      MulMono(x, slots, bulk);
      bulk * x
    }

    /** The bundle in a slot does not start with an empty event, whose header would be lost, and fits
        in a receive chunk. */
    ghost predicate SlotOk(x: nat)
      requires Cut() && x < slots
    {
      0 < table[Start(x)].length && SumLengths(table, Start(x), Start(x) + bulk) <= bulk * maxFragment
    }

    /** What the rest of the program needs of an event table; other events may be empty. */
    ghost predicate Ok() {
      Cut() && forall x :: 0 <= x < slots ==> SlotOk(x)
    }

    /** Table index of the first event of multievent `t`. */
    function First(t: nat): (i: nat)
      requires Ok()
      ensures i == bulk * (t % slots) && i + bulk <= |table|
    {
      Start(t % slots)
    }

    /** The address of multievent `t`, which identifies it in every map and queue. */
    function Base(t: nat): nat
      requires Ok()
    {
      table[First(t)].offset
    }

    /** Multievent `t` in memory: from its first event, as long as its `bulk` events together. */
    function Bundle(t: nat): Iovec
      requires Ok()
    {
      Iovec(Base(t), SumLengths(table, First(t), First(t) + bulk))
    }
  }

  lemma {:induction false} SumIsExtent(table: seq<EventMetaData>, lo: nat, hi: nat)
    requires BackToBack(table, |table|) && lo < hi <= |table|
    ensures table[hi - 1].offset + table[hi - 1].length == table[lo].offset + SumLengths(table, lo, hi)
    ensures table[lo].length <= SumLengths(table, lo, hi)
    decreases hi
  {
    if lo < hi - 1 {
      SumIsExtent(table, lo, hi - 1);
    } else {
      assert SumLengths(table, lo, hi - 1) == 0;
    }
  }

  lemma FirstsOrdered(m: Memory, t: nat, u: nat)
    requires m.Ok() && t % m.slots < u % m.slots
    ensures m.First(t) + m.bulk <= m.First(u)
  {
    MulMono(t % m.slots, u % m.slots, m.bulk);
  }

  /** A multievent covers `bulk` events without a gap, fits in a receive chunk, and shares no byte
      with the multievent of another slot. */
  lemma BundleFits(m: Memory, t: nat, u: nat)
    requires m.Ok()
    ensures var a, b := m.Bundle(t), m.Bundle(u);
            && 0 < m.table[m.First(t)].length <= a.len <= m.bulk * m.maxFragment
            && a.base + a.len == m.table[m.First(t) + m.bulk - 1].offset + m.table[m.First(t) + m.bulk - 1].length
            && (t % m.slots < u % m.slots ==> a.base + a.len <= b.base)
  {
    var first := m.First(t);
    SumIsExtent(m.table, first, first + m.bulk);
    assert m.SlotOk(t % m.slots);
    if t % m.slots < u % m.slots {
      FirstsOrdered(m, t, u);
      OffsetsGrow(m.table, |m.table|, first + m.bulk - 1, m.First(u));
    }
  }

  lemma ResiduesDiffer(t: nat, u: nat, size: nat)
    requires t < u < t + size
    ensures t % size != u % size
  {
    var q, p := t / size, u / size;
    if q < p {
      MulMono(q, p, size);
    } else if p < q {
      MulMono(p, q, size);
    }
  }

  /** Fewer than `slots` multievents in a row have different addresses. */
  lemma BasesDiffer(m: Memory, t: nat, u: nat)
    requires m.Ok() && t < u < t + m.slots
    ensures m.Base(t) != m.Base(u)
  {
    ResiduesDiffer(t, u, m.slots);
    BundleFits(m, t, u);
    BundleFits(m, u, t);
  }

  /** Advancing by whole bundles goes from first event to first event. */
  lemma AdvanceBundles(m: Memory, t: nat, k: nat)
    requires m.Ok()
    ensures Advance(m.First(t), m.bulk * k, |m.table|) == m.First(t + k)
  {
    var bulk, slots := m.bulk, m.slots;
    ModScale(t, bulk, slots);
    ModScale(t + k, bulk, slots);
    AdvanceIsModular(m.First(t), bulk * k, bulk * slots);
    ModAdd(bulk * t, bulk * k, bulk * slots);
    assert bulk * t + bulk * k == bulk * (t + k);
  }

  /** A bundle never straddles the end of the table. */
  lemma NextBundleStarts(m: Memory, t: nat)
    requires m.Ok()
    ensures var first, size := m.First(t), |m.table|;
            && Advance(first, m.bulk, size) == m.First(t + 1) == (if first + m.bulk < size then first + m.bulk else 0)
            && m.bulk < size
  {
    var first, size, bulk := m.First(t), |m.table|, m.bulk;
    AdvanceBundles(m, t, 1);
    AdvanceIsModular(first, bulk, size);
    MulMono(1, m.slots, bulk);
    if first + bulk < size {
      ModShift(first + bulk, 0, size);
    } else {
      ModShift(0, 1, size);
    }
  }

  /** One step back from the end of a bundle, around the table if need be, is its last event. */
  lemma OneBundle(m: Memory, t: nat)
    requires m.Ok()
    ensures var first, size := m.First(t), |m.table|;
            && Advance(first, m.bulk, size) == m.First(t + 1) == (if first + m.bulk < size then first + m.bulk else 0)
            && Advance(m.First(t + 1), -1, size) == first + m.bulk - 1
            && m.First(t + 1) != first
  {
    var first, size, bulk := m.First(t), |m.table|, m.bulk;
    NextBundleStarts(m, t);
    AdvanceIsModular(m.First(t + 1), -1, size);
    if first + bulk < size {
      ModShift(first + bulk - 1, 0, size);
    } else {
      ModShift(size - 1, -1, size);
    }
  }

  /** Offsets never decrease inside a bundle, so the check for wrapped data finds nothing. */
  lemma NoWrap(m: Memory, t: nat)
    requires m.Ok()
    ensures var u := Unroll(m.table, m.First(t), m.First(t + 1));
            forall j :: 0 <= j < |u| ==> m.Base(t) <= u[j].offset
  {
    var first := m.First(t);
    var u := Unroll(m.table, first, m.First(t + 1));
    OneBundle(m, t);
    assert u == m.table[first..first + m.bulk];
    forall j | 0 <= j < |u|
      ensures m.Base(t) <= u[j].offset
    {
      OffsetsGrow(m.table, |m.table|, first, first + j);
    }
  }

  lemma MulOrder(bulk: nat, a: nat, b: nat)
    requires 0 < bulk
    ensures bulk * a < bulk * b <==> a < b
    ensures bulk * (a + b) == bulk * a + bulk * b
    ensures bulk * (a + 1) == bulk * a + bulk
  {
    if a < b {
      MulMono(a, b, bulk);
    } else {
      MulMono(b, a, bulk);
    }
  }

  /** Events ready after a reading, when fewer than a bundle were. */
  function AfterRead(m: Memory, acquired: nat, released: nat, ready: nat, due: nat): int {
    var generated, given, size := m.bulk * acquired + ready, m.bulk * released, m.bulk * m.slots;
    (if due - generated <= size - 1 - (generated - given) then due else given + size - 1) - m.bulk * acquired
  }

  /** A bundle can be made exactly when fewer than `slots` - 1 are held and the clock has asked for
      the events of one more. */
  lemma WhenBundleIsReady(m: Memory, acquired: nat, released: nat, ready: nat, due: nat)
    requires 0 < m.bulk && released <= acquired
    requires m.bulk * acquired + ready <= m.bulk * released + m.bulk * m.slots - 1
    requires m.bulk * acquired + ready <= due
    ensures m.bulk <= (if ready < m.bulk then AfterRead(m, acquired, released, ready, due) else ready)
        <==> acquired + 1 < released + m.slots && m.bulk * (acquired + 1) <= due
  {
    MulOrder(m.bulk, acquired + 1, released + m.slots);
    MulOrder(m.bulk, released, m.slots);
    MulOrder(m.bulk, acquired, 1);
  }

  /** The range given back for `count` multievents is shorter than the table, so it reads as it was meant. */
  lemma ReleaseRange(m: Memory, released: nat, count: nat, acquired: nat)
    requires m.Ok() && count < m.slots && released + count <= acquired
    ensures Advance(m.First(released), m.bulk * count, |m.table|) == m.First(released + count)
    ensures Distance(m.First(released), m.First(released + count), |m.table|) == m.bulk * count < |m.table|
    ensures m.bulk * (released + count) == m.bulk * released + m.bulk * count <= m.bulk * acquired
  {
    AdvanceBundles(m, released, count);
    ReleaseSizes(m.bulk, m.slots, released, count, acquired);
    RangesAreLossless(m.First(released), m.bulk * count, |m.table|);
  }

  lemma ReleaseSizes(bulk: nat, slots: nat, released: nat, count: nat, acquired: nat)
    requires 0 < bulk && count < slots && released + count <= acquired
    ensures 0 <= bulk * count < bulk * slots
    ensures bulk * (released + count) == bulk * released + bulk * count <= bulk * acquired
  {
    MulOrder(bulk, count, slots);
    MulOrder(bulk, released, count);
    MulOrder(bulk, acquired, released + count);
  }

  // ---- the queue of multievents held

  /** The queue lists the multievents from number `released` on: address, and whether completed. */
  ghost predicate Tracks(m: Memory, queue: seq<(nat, bool)>, released: nat, done: set<nat>)
    requires m.Ok()
  {
    forall j :: 0 <= j < |queue| ==> queue[j] == (m.Base(released + j), released + j in done)
  }

  lemma TracksAppend(m: Memory, queue: seq<(nat, bool)>, released: nat, done: set<nat>)
    requires m.Ok() && Tracks(m, queue, released, done) && released + |queue| !in done
    ensures Tracks(m, queue + [(m.Base(released + |queue|), false)], released, done)
  {
  }

  lemma TracksFlag(m: Memory, queue: seq<(nat, bool)>, released: nat, done: set<nat>, it: nat)
    requires m.Ok() && Tracks(m, queue, released, done) && it < |queue|
    ensures Tracks(m, queue[it := (queue[it].0, true)], released, done + {released + it})
  {
  }

  lemma GiveBackFacts(m: Memory, queue: seq<(nat, bool)>, released: nat, count: nat, acquired: nat, done: set<nat>)
    requires m.Ok() && Tracks(m, queue, released, done) && |queue| == acquired - released < m.slots && count <= |queue|
    ensures Advance(m.First(released), m.bulk * count, |m.table|) == m.First(released + count)
    ensures Distance(m.First(released), m.First(released + count), |m.table|) == m.bulk * count < |m.table|
    ensures m.bulk * (released + count) == m.bulk * released + m.bulk * count <= m.bulk * acquired
    ensures Tracks(m, queue[count..], released + count, done)
  {
    ReleaseRange(m, released, count, acquired);
    TracksDrop(m, queue, released, done, count);
  }

  lemma TracksDrop(m: Memory, queue: seq<(nat, bool)>, released: nat, done: set<nat>, k: nat)
    requires m.Ok() && Tracks(m, queue, released, done) && k <= |queue|
    ensures Tracks(m, queue[k..], released + k, done)
  {
  }

  /** The first entry not completed marks the end of the completed prefix. */
  lemma FrontIsPrefix(m: Memory, queue: seq<(nat, bool)>, released: nat, done: set<nat>, count: nat)
    requires m.Ok() && Tracks(m, queue, released, done) && count <= |queue|
    requires forall t :: 0 <= t < released ==> t in done
    requires forall t :: t in done ==> t < released + |queue|
    requires forall j :: 0 <= j < count ==> queue[j].1
    requires count < |queue| ==> !queue[count].1
    ensures Mex(done) == released + count
  {
    forall t | 0 <= t < released + count
      ensures t in done
    {
      assert released <= t ==> queue[t - released].1;
    }
    assert count < |queue| ==> queue[count] == (m.Base(released + count), released + count in done);
    MexUnique(done, released + count);
  }

  // ---- the effect of completions, whatever their order and batching

  /** Multievent `t` is held, has not completed, and lives at `addr`. */
  ghost predicate HeldAt(m: Memory, acquired: nat, done: set<nat>, addr: nat, t: nat)
    requires m.Ok()
  {
    Mex(done) <= t < acquired && t !in done && m.Base(t) == addr
  }

  ghost predicate IsHeld(m: Memory, acquired: nat, done: set<nat>, addr: nat)
    requires m.Ok()
  {
    exists t :: HeldAt(m, acquired, done, addr, t)
  }

  /** The multievents completed once those at the given addresses are, too. */
  ghost function AfterRelease(m: Memory, acquired: nat, done: set<nat>, vect: seq<nat>): set<nat>
    requires m.Ok()
  {
    done + set t | Mex(done) <= t < acquired && m.Base(t) in vect
  }

  /** The addresses are distinct, and each is that of a multievent held and not completed. */
  ghost predicate Releasable(m: Memory, acquired: nat, done: set<nat>, vect: seq<nat>)
    requires m.Ok()
  {
    && acquired < Mex(done) + m.slots
    && Distinct(vect)
    && (forall i :: 0 <= i < |vect| ==> IsHeld(m, acquired, done, vect[i]))
  }

  /** The one multievent in memory at the i-th address. */
  lemma KeyOf(m: Memory, acquired: nat, done: set<nat>, vect: seq<nat>, i: nat) returns (t: nat)
    requires m.Ok() && Releasable(m, acquired, done, vect) && i < |vect|
    ensures HeldAt(m, acquired, done, vect[i], t)
    ensures forall u :: Mex(done) <= u < acquired && m.Base(u) == vect[i] ==> u == t
  {
    assert IsHeld(m, acquired, done, vect[i]);
    t :| HeldAt(m, acquired, done, vect[i], t);
    forall u | Mex(done) <= u < acquired && m.Base(u) == vect[i]
      ensures u == t
    {
      if u < t {
        BasesDiffer(m, u, t);
      } else if t < u {
        BasesDiffer(m, t, u);
      }
    }
  }

  lemma OneMoreKey(m: Memory, acquired: nat, done: set<nat>, vect: seq<nat>, i: nat) returns (t: nat)
    requires m.Ok() && Releasable(m, acquired, done, vect) && i < |vect|
    ensures HeldAt(m, acquired, done, vect[i], t)
    ensures t !in AfterRelease(m, acquired, done, vect[..i])
    ensures AfterRelease(m, acquired, done, vect[..i + 1]) == AfterRelease(m, acquired, done, vect[..i]) + {t}
  {
    t := KeyOf(m, acquired, done, vect, i);
    assert vect[..i + 1] == vect[..i] + [vect[i]];
    assert vect[i] !in vect[..i];
  }

  /** What a release leaves of a queue: the front entries that are completed are gone, up to the first that is
      not, and each entry is completed if it was before or its address is among those reported. */
  ghost predicate Settled(queue: seq<(nat, bool)>, queue': seq<(nat, bool)>, vect: seq<nat>) {
    && |queue'| <= |queue|
    && (forall j :: 0 <= j < |queue| - |queue'| ==> queue[j].1 || queue[j].0 in vect)
    && (forall j :: 0 <= j < |queue'| ==>
          var was := queue[|queue| - |queue'| + j];
          queue'[j].0 == was.0 && (queue'[j].1 <==> was.1 || was.0 in vect))
    && (queue' != [] ==> !queue'[0].1)
  }

  lemma ReleaseInFields(m: Memory, acquired: nat, queue: seq<(nat, bool)>, done: set<nat>, vect: seq<nat>,
                        queue': seq<(nat, bool)>)
    requires m.Ok() && Tracks(m, queue, Mex(done), done) && Mex(done) + |queue| == acquired
    requires var done' := AfterRelease(m, acquired, done, vect);
             Tracks(m, queue', Mex(done'), done') && Mex(done') + |queue'| == acquired
    ensures Settled(queue, queue', vect)
    ensures m.First(acquired - |queue'|)
            == (m.First(acquired - |queue|) + m.bulk * (|queue| - |queue'|)) % |m.table|
  {
    var done' := AfterRelease(m, acquired, done, vect);
    var released, released' := Mex(done), Mex(done');
    assert released <= released';
    AdvanceBundles(m, released, released' - released);
    AdvanceIsModular(m.First(released), m.bulk * (released' - released), |m.table|);
    DoneByEntry(m, acquired, queue, done, vect);
    SettledFrom(m, queue, released, queue', released', done', vect);
  }

  lemma DoneByEntry(m: Memory, acquired: nat, queue: seq<(nat, bool)>, done: set<nat>, vect: seq<nat>)
    requires m.Ok() && Tracks(m, queue, Mex(done), done) && Mex(done) + |queue| == acquired
    ensures forall j :: 0 <= j < |queue| ==>
              queue[j].0 == m.Base(Mex(done) + j)
              && (Mex(done) + j in AfterRelease(m, acquired, done, vect) <==> queue[j].1 || queue[j].0 in vect)
  {
  }

  lemma SettledFrom(m: Memory, queue: seq<(nat, bool)>, released: nat, queue': seq<(nat, bool)>, released': nat,
                    done': set<nat>, vect: seq<nat>)
    requires m.Ok() && released <= released' == Mex(done') && released + |queue| == released' + |queue'|
    requires Tracks(m, queue', released', done')
    requires forall j :: 0 <= j < |queue| ==>
               queue[j].0 == m.Base(released + j) && (released + j in done' <==> queue[j].1 || queue[j].0 in vect)
    ensures Settled(queue, queue', vect)
  {
    forall j | 0 <= j < |queue| - |queue'|
      ensures queue[j].1 || queue[j].0 in vect
    {
      assert released + j in done';
    }
    forall j | 0 <= j < |queue'|
      ensures var was := queue[|queue| - |queue'| + j];
              queue'[j].0 == was.0 && (queue'[j].1 <==> was.1 || was.0 in vect)
    {
      assert released' + j == released + (|queue| - |queue'| + j);
    }
  }

  /** What a series of calls leaves completed. */
  ghost function AfterAll(m: Memory, acquired: nat, done: set<nat>, batches: seq<seq<nat>>): set<nat>
    requires m.Ok()
    decreases |batches|
  {
    if batches == [] then done else AfterAll(m, acquired, AfterRelease(m, acquired, done, batches[0]), batches[1..])
  }

  function Joined(batches: seq<seq<nat>>): seq<nat> {
    if batches == [] then [] else batches[0] + Joined(batches[1..])
  }

  /** Every call of the series is one the program may make. */
  ghost predicate EachReleasable(m: Memory, acquired: nat, done: set<nat>, batches: seq<seq<nat>>)
    requires m.Ok()
    decreases |batches|
  {
    batches == [] ||
    (Releasable(m, acquired, done, batches[0]) &&
     EachReleasable(m, acquired, AfterRelease(m, acquired, done, batches[0]), batches[1..]))
  }

  lemma DistinctParts(v: seq<nat>, w: seq<nat>)
    requires Distinct(v + w)
    ensures Distinct(v) && Distinct(w)
    ensures forall i :: 0 <= i < |w| ==> w[i] !in v
  {
    forall i, j | 0 <= i < j < |v|
      ensures v[i] != v[j]
    {
      assert (v + w)[i] != (v + w)[j];
    }
    forall i, j | 0 <= i < j < |w|
      ensures w[i] != w[j]
    {
      assert (v + w)[|v| + i] != (v + w)[|v| + j];
    }
    forall i, j | 0 <= i < |w| && 0 <= j < |v|
      ensures w[i] != v[j]
    {
      assert (v + w)[j] != (v + w)[|v| + i];
    }
  }

  lemma FrontReleasable(m: Memory, acquired: nat, done: set<nat>, v: seq<nat>, w: seq<nat>)
    requires m.Ok() && Releasable(m, acquired, done, v + w)
    ensures Releasable(m, acquired, done, v)
  {
    DistinctParts(v, w);
    forall i | 0 <= i < |v|
      ensures IsHeld(m, acquired, done, v[i])
    {
      var t := KeyOf(m, acquired, done, v + w, i);
      assert HeldAt(m, acquired, done, v[i], t);
    }
  }

  /** The second of two calls finds exactly what it would have found had it come first. */
  lemma StillHeld(m: Memory, acquired: nat, done: set<nat>, v: seq<nat>, w: seq<nat>, i: nat) returns (t: nat)
    requires m.Ok() && Releasable(m, acquired, done, v + w) && i < |w|
    ensures HeldAt(m, acquired, AfterRelease(m, acquired, done, v), w[i], t)
    ensures forall u :: Mex(done) <= u < acquired && m.Base(u) == w[i] ==> u == t
  {
    DistinctParts(v, w);
    t := KeyOf(m, acquired, done, v + w, |v| + i);
    assert (v + w)[|v| + i] == w[i];
    NotYetDone(m, acquired, done, v, t);
  }

  lemma NotYetDone(m: Memory, acquired: nat, done: set<nat>, v: seq<nat>, t: nat)
    requires m.Ok() && HeldAt(m, acquired, done, m.Base(t), t) && m.Base(t) !in v
    ensures HeldAt(m, acquired, AfterRelease(m, acquired, done, v), m.Base(t), t)
  {
    var done' := AfterRelease(m, acquired, done, v);
    assert t !in done';
    assert forall x :: 0 <= x < Mex(done') ==> x in done';
  }

  lemma BackReleasable(m: Memory, acquired: nat, done: set<nat>, v: seq<nat>, w: seq<nat>)
    requires m.Ok() && Releasable(m, acquired, done, v + w)
    ensures Mex(done) <= Mex(AfterRelease(m, acquired, done, v))
    ensures Releasable(m, acquired, AfterRelease(m, acquired, done, v), w)
  {
    var mid := AfterRelease(m, acquired, done, v);
    MexGrows(done, mid);
    DistinctParts(v, w);
    forall i | 0 <= i < |w|
      ensures IsHeld(m, acquired, mid, w[i])
    {
      var t := StillHeld(m, acquired, done, v, w, i);
    }
  }

  lemma SplitBatch(m: Memory, acquired: nat, done: set<nat>, v: seq<nat>, w: seq<nat>)
    requires m.Ok() && Releasable(m, acquired, done, v + w)
    ensures AfterRelease(m, acquired, AfterRelease(m, acquired, done, v), w) == AfterRelease(m, acquired, done, v + w)
  {
  }

  lemma {:induction false} BatchingIsIrrelevant(m: Memory, acquired: nat, done: set<nat>, batches: seq<seq<nat>>)
    requires m.Ok() && Releasable(m, acquired, done, Joined(batches))
    ensures EachReleasable(m, acquired, done, batches)
    ensures AfterAll(m, acquired, done, batches) == AfterRelease(m, acquired, done, Joined(batches))
    decreases |batches|
  {
    if batches != [] {
      FrontReleasable(m, acquired, done, batches[0], Joined(batches[1..]));
      BackReleasable(m, acquired, done, batches[0], Joined(batches[1..]));
      SplitBatch(m, acquired, done, batches[0], Joined(batches[1..]));
      BatchingIsIrrelevant(m, acquired, AfterRelease(m, acquired, done, batches[0]), batches[1..]);
    }
  }

  /** Confluence: two series of calls that name the same addresses, in whatever order and however
      batched, leave the same multievents completed. */
  lemma ReleaseIsConfluent(m: Memory, acquired: nat, done: set<nat>, batches: seq<seq<nat>>, others: seq<seq<nat>>)
    requires m.Ok()
    requires Releasable(m, acquired, done, Joined(batches)) && Releasable(m, acquired, done, Joined(others))
    requires forall a :: a in Joined(batches) <==> a in Joined(others)
    ensures AfterAll(m, acquired, done, batches) == AfterAll(m, acquired, done, others)
  {
    BatchingIsIrrelevant(m, acquired, done, batches);
    BatchingIsIrrelevant(m, acquired, done, others);
  }
}
