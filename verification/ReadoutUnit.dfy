/** One readout unit: acquisition, completion and the rotated sending order, over its sockets. */
module ReadoutUnits {
  import opened Accumulators
  import opened Bundles
  import opened DataFormat
  import opened Prefix
  import opened Ring
  import opened Schedule
  import opened Sockets

  /** A unit among `n`, with its memory and its credits. */
  datatype Site = Site(m: Memory, id: nat, n: nat, credits: nat)

  // ---- the keys a connection should have pending

  /** Addresses of the multievents in flight to destination `k`. */
  ghost function KeysOn(u: Site, s: Ru, k: nat): set<nat>
    requires u.m.Ok() && u.id < u.n && k < u.n
  {
    Addresses(u.m, u.n, k, PendingOn(u.id, u.n, s, k))
  }

  /** Addresses of the `j`-th multievents for destination `k`. */
  ghost function Addresses(m: Memory, n: nat, k: nat, js: set<nat>): set<nat>
    requires m.Ok() && k < n
  {
    set j | j in js :: m.Base(Mev(n, k, j))
  }

  lemma OneMoreAddress(m: Memory, n: nat, k: nat, js: set<nat>, j: nat)
    requires m.Ok() && k < n
    ensures Addresses(m, n, k, js + {j}) == Addresses(m, n, k, js) + {m.Base(Mev(n, k, j))}
  {
  }

  /** The counters respect the memory: at most 2 * credits multievents are held. */
  ghost predicate Fits(u: Site, s: Ru) {
    u.m.Ok() && u.m.slots == 2 * u.credits + 1 && RuInv(u.id, u.n, u.credits, s)
  }

  /** Every pending key is the address of exactly one multievent held, which was sent there. */
  lemma KeyIsHeld(u: Site, s: Ru, k: nat, key: nat) returns (j: nat)
    requires Fits(u, s) && k < u.n && key in KeysOn(u, s, k)
    ensures j in PendingOn(u.id, u.n, s, k) && key == u.m.Base(Mev(u.n, k, j))
    ensures HeldAt(u.m, s.acquired, s.done, key, Mev(u.n, k, j)) && IsHeld(u.m, s.acquired, s.done, key)
    ensures forall t :: Mex(s.done) <= t < s.acquired && u.m.Base(t) == key ==> t == Mev(u.n, k, j)
  {
    j :| j in PendingOn(u.id, u.n, s, k) && key == u.m.Base(Mev(u.n, k, j));
    var mev := Mev(u.n, k, j);
    MevInverse(u.n, k, j);
    SentIsAcquired(u.id, u.n, u.credits, s, mev);
    assert HeldAt(u.m, s.acquired, s.done, key, mev);
    forall t | Mex(s.done) <= t < s.acquired && u.m.Base(t) == key
      ensures t == mev
    {
      if t < mev {
        BasesDiffer(u.m, t, mev);
      } else if mev < t {
        BasesDiffer(u.m, mev, t);
      }
    }
  }

  /** No key is pending on two connections. */
  lemma KeysDisjoint(u: Site, s: Ru, k: nat, l: nat)
    requires Fits(u, s) && k < u.n && l < u.n && k != l
    ensures KeysOn(u, s, k) !! KeysOn(u, s, l)
  {
    forall key | key in KeysOn(u, s, k)
      ensures key !in KeysOn(u, s, l)
    {
      var j := KeyIsHeld(u, s, k, key);
      MevInverse(u.n, k, j);
      if key in KeysOn(u, s, l) {
        var i := KeyIsHeld(u, s, l, key);
        MevInverse(u.n, l, i);
      }
    }
  }

  /** Two multievents in flight to one destination have different addresses. */
  lemma AddressesDiffer(u: Site, s: Ru, k: nat, i: nat, j: nat)
    requires Fits(u, s) && k < u.n
    requires i in PendingOn(u.id, u.n, s, k) && j in PendingOn(u.id, u.n, s, k) && i != j
    ensures u.m.Base(Mev(u.n, k, i)) != u.m.Base(Mev(u.n, k, j))
  {
    MevInverse(u.n, k, i);
    MevInverse(u.n, k, j);
    PendingIsHeld(u.id, u.n, u.credits, s, k, i);
    PendingIsHeld(u.id, u.n, u.credits, s, k, j);
    if Mev(u.n, k, i) < Mev(u.n, k, j) {
      BasesDiffer(u.m, Mev(u.n, k, i), Mev(u.n, k, j));
    } else {
      BasesDiffer(u.m, Mev(u.n, k, j), Mev(u.n, k, i));
    }
  }

  lemma {:induction false} KeysCard(u: Site, s: Ru, k: nat, js: set<nat>)
    requires Fits(u, s) && k < u.n && js <= PendingOn(u.id, u.n, s, k)
    ensures |Addresses(u.m, u.n, k, js)| == |js|
    decreases |js|
  {
    if js != {} {
      var j :| j in js;
      var rest := js - {j};
      KeysCard(u, s, k, rest);
      OneMoreAddress(u.m, u.n, k, rest, j);
      assert rest + {j} == js;
      var key := u.m.Base(Mev(u.n, k, j));
      if key in Addresses(u.m, u.n, k, rest) {
        var i :| i in rest && key == u.m.Base(Mev(u.n, k, i));
        AddressesDiffer(u, s, k, i, j);
      }
    }
  }

  lemma PendingIsHeld(id: nat, n: nat, credits: nat, s: Ru, k: nat, j: nat)
    requires RuInv(id, n, credits, s) && k < n && j in PendingOn(id, n, s, k)
    ensures Mex(s.done) <= Mev(n, k, j) < s.acquired
  {
    MevInverse(n, k, j);
    SentIsAcquired(id, n, credits, s, Mev(n, k, j));
  }

  /** Completions take exactly their keys away. */
  lemma KeysAfterRelease(u: Site, s: Ru, vect: seq<nat>, k: nat)
    requires Fits(u, s) && k < u.n
    ensures KeysOn(u, s.(done := AfterRelease(u.m, s.acquired, s.done, vect)), k)
         == KeysOn(u, s, k) - Elements(vect)
  {
    var s' := s.(done := AfterRelease(u.m, s.acquired, s.done, vect));
    forall key | key in KeysOn(u, s', k)
      ensures key in KeysOn(u, s, k) - Elements(vect)
    {
      var j :| j in PendingOn(u.id, u.n, s', k) && key == u.m.Base(Mev(u.n, k, j));
      assert j in PendingOn(u.id, u.n, s, k);
      PendingIsHeld(u.id, u.n, u.credits, s, k, j);
    }
    forall key | key in KeysOn(u, s, k) - Elements(vect)
      ensures key in KeysOn(u, s', k)
    {
      var j := KeyIsHeld(u, s, k, key);
      assert j in PendingOn(u.id, u.n, s', k);
    }
  }

  /** A send adds the key of the next multievent, which was not pending anywhere. */
  lemma KeysAfterSend(u: Site, s: Ru, k: nat)
    requires Fits(u, s) && CanSend(u.id, u.n, u.credits, s) && k < u.n
    ensures KeysOn(u, Send(u.n, s), k)
         == KeysOn(u, s, k) + if k == Target(u.id, u.n, s.pos) then {u.m.Base(Next(u.id, u.n, s))} else {}
    ensures u.m.Base(Next(u.id, u.n, s)) !in KeysOn(u, s, k)
  {
    PendingAfterSend(u.id, u.n, u.credits, s, k);
    OneMoreAddress(u.m, u.n, k, PendingOn(u.id, u.n, s, k), SentTo(u.id, u.n, s, k));
    SendIsNth(u.id, u.n, s);
    NextIsNew(u, s, k);
  }

  lemma NextIsNew(u: Site, s: Ru, k: nat)
    requires Fits(u, s) && CanSend(u.id, u.n, u.credits, s) && k < u.n
    ensures u.m.Base(Next(u.id, u.n, s)) !in KeysOn(u, s, k)
  {
    var next := Next(u.id, u.n, s);
    if u.m.Base(next) in KeysOn(u, s, k) {
      NextIsHeld(u.id, u.n, u.credits, s);
      var j := KeyIsHeld(u, s, k, u.m.Base(next));
      MevInverse(u.n, k, j);
      SendIsNth(u.id, u.n, s);
    }
  }

  lemma NextIsHeld(id: nat, n: nat, credits: nat, s: Ru)
    requires RuInv(id, n, credits, s)
    ensures Mex(s.done) <= Next(id, n, s)
  {
    SendIsNth(id, n, s);
  }

  // ---- what the fields of a readout unit mean, in terms of its counters

  /** The buffer holds the multievents acquired in this cycle, entry `i` being for destination `i`. */
  ghost predicate BufferOk(m: Memory, n: nat, s: Ru, iovs: seq<Iovec>)
    requires m.Ok()
  {
    && |iovs| == s.acquired - s.cycle * n
    && forall i :: 0 <= i < |iovs| ==> iovs[i] == m.Bundle(s.cycle * n + i)
  }

  /** What is pending on each connection is what was sent there and has not completed. */
  ghost predicate KeysOk(u: Site, s: Ru, keys: seq<set<nat>>)
    requires u.m.Ok() && u.id < u.n
  {
    |keys| == u.n && forall k :: 0 <= k < u.n ==> keys[k] == KeysOn(u, s, k)
  }

  ghost predicate Sound(u: Site, s: Ru, iovs: seq<Iovec>, keys: seq<set<nat>>) {
    Fits(u, s) && BufferOk(u.m, u.n, s, iovs) && KeysOk(u, s, keys)
  }

  lemma AcquireSound(u: Site, s: Ru, iovs: seq<Iovec>, keys: seq<set<nat>>)
    requires Sound(u, s, iovs, keys) && CanAcquire(u.id, u.n, u.credits, s)
    ensures Sound(u, Acquire(s), iovs + [u.m.Bundle(s.acquired)], keys)
  {
    AcquireKeeps(u.id, u.n, u.credits, s);
    BufferAfterAcquire(u.m, u.n, s, iovs);
    forall k | 0 <= k < u.n
      ensures keys[k] == KeysOn(u, Acquire(s), k)
    {
      assert PendingOn(u.id, u.n, Acquire(s), k) == PendingOn(u.id, u.n, s, k);
    }
  }

  lemma BufferAfterAcquire(m: Memory, n: nat, s: Ru, iovs: seq<Iovec>)
    requires m.Ok() && BufferOk(m, n, s, iovs)
    ensures BufferOk(m, n, Acquire(s), iovs + [m.Bundle(s.acquired)])
  {
  }

  /** The completions of a round, in the order in which the connections are polled. */
  function Gather(id: nat, n: nat, completions: seq<seq<nat>>, x: nat): seq<nat>
    requires id < n == |completions| && x <= n
  {
    if x == 0 then [] else Gather(id, n, completions, x - 1) + completions[Target(id, n, x - 1)]
  }

  ghost predicate Reported(completions: seq<seq<nat>>, keys: seq<set<nat>>) {
    |completions| == |keys| &&
    forall k :: 0 <= k < |keys| ==> Distinct(completions[k]) && Elements(completions[k]) <= keys[k]
  }

  lemma {:induction false} GatherMembers(id: nat, n: nat, completions: seq<seq<nat>>, x: nat, key: nat)
    requires id < n == |completions| && x <= n
    ensures key in Gather(id, n, completions, x) <==>
              exists k :: 0 <= k < n && Rank(id, n, k) < x && key in completions[k]
  {
    if 0 < x {
      GatherMembers(id, n, completions, x - 1, key);
      var last := Target(id, n, x - 1);
      assert Rank(id, n, last) == x - 1;
      forall k | 0 <= k < n && Rank(id, n, k) == x - 1
        ensures k == last
      {
      }
    }
  }

  ghost predicate Disjoint(keys: seq<set<nat>>) {
    forall k, l :: 0 <= k < |keys| && 0 <= l < |keys| && k != l ==> keys[k] !! keys[l]
  }

  lemma {:induction false} GatherDistinct(id: nat, n: nat, keys: seq<set<nat>>, completions: seq<seq<nat>>, x: nat)
    requires id < n == |keys| && Disjoint(keys) && Reported(completions, keys) && x <= n
    ensures Distinct(Gather(id, n, completions, x))
  {
    if 0 < x {
      GatherDistinct(id, n, keys, completions, x - 1);
      var front, k := Gather(id, n, completions, x - 1), Target(id, n, x - 1);
      forall key | key in front
        ensures key !in completions[k]
      {
        GatherMembers(id, n, completions, x - 1, key);
        var l :| 0 <= l < n && Rank(id, n, l) < x - 1 && key in completions[l];
        assert key in Elements(completions[l]) && keys[l] !! keys[k];
        assert key !in Elements(completions[k]);
      }
      DistinctAppend(front, completions[k]);
    }
  }

  ghost function AfterPolling(u: Site, s: Ru, completions: seq<seq<nat>>): Ru
    requires u.m.Ok() && u.id < u.n == |completions|
  {
    s.(done := AfterRelease(u.m, s.acquired, s.done, Gather(u.id, u.n, completions, u.n)))
  }

  /** Whatever the network reports can be released, and afterwards keys and counters agree again. */
  lemma CompletionsSound(u: Site, s: Ru, keys: seq<set<nat>>,
                         completions: seq<seq<nat>>, keys': seq<set<nat>>)
    requires Fits(u, s) && KeysOk(u, s, keys) && Reported(completions, keys)
    requires |keys'| == u.n && forall k :: 0 <= k < u.n ==> keys'[k] == keys[k] - Elements(completions[k])
    ensures var vect := Gather(u.id, u.n, completions, u.n);
            var s' := AfterPolling(u, s, completions);
            && Releasable(u.m, s.acquired, s.done, vect)
            && (forall t :: t in s'.done && t !in s.done ==> Sent(u.id, u.n, s, t))
            && Fits(u, s') && KeysOk(u, s', keys')
  {
    var vect := Gather(u.id, u.n, completions, u.n);
    var s' := AfterPolling(u, s, completions);
    AllDisjoint(u, s, keys);
    GatherDistinct(u.id, u.n, keys, completions, u.n);
    forall key | key in vect
      ensures IsHeld(u.m, s.acquired, s.done, key)
      ensures forall t :: Mex(s.done) <= t < s.acquired && u.m.Base(t) == key ==> Sent(u.id, u.n, s, t)
    {
      GatherMembers(u.id, u.n, completions, u.n, key);
      var k :| 0 <= k < u.n && key in completions[k];
      assert key in Elements(completions[k]);
      var j := KeyIsHeld(u, s, k, key);
      MevInverse(u.n, k, j);
    }
    CompleteKeeps(u.id, u.n, u.credits, s, s'.done - s.done);
    assert s' == Complete(s, s'.done - s.done);
    forall k | 0 <= k < u.n
      ensures keys'[k] == KeysOn(u, s', k)
    {
      KeysAfterRelease(u, s, vect, k);
      OwnKeys(u.id, u.n, keys, completions, k);
    }
  }

  lemma AllDisjoint(u: Site, s: Ru, keys: seq<set<nat>>)
    requires Fits(u, s) && KeysOk(u, s, keys)
    ensures Disjoint(keys)
  {
    forall k, l | 0 <= k < u.n && 0 <= l < u.n && k != l
      ensures keys[k] !! keys[l]
    {
      KeysDisjoint(u, s, k, l);
    }
  }

  /** Of the keys pending on a connection, only its own completions are among those gathered. */
  lemma OwnKeys(id: nat, n: nat, keys: seq<set<nat>>, completions: seq<seq<nat>>, k: nat)
    requires id < n == |keys| && Disjoint(keys) && Reported(completions, keys) && k < n
    ensures keys[k] - Elements(Gather(id, n, completions, n)) == keys[k] - Elements(completions[k])
  {
    forall key | key in keys[k]
      ensures key in Gather(id, n, completions, n) <==> key in completions[k]
    {
      GatherMembers(id, n, completions, n, key);
      forall l | 0 <= l < n && key in completions[l]
        ensures l == k
      {
        assert key in Elements(completions[l]);
      }
    }
  }

  lemma BufferAfterSend(u: Site, s: Ru, iovs: seq<Iovec>)
    requires Fits(u, s) && BufferOk(u.m, u.n, s, iovs) && CanSend(u.id, u.n, u.credits, s)
    ensures var k := Target(u.id, u.n, s.pos); k < |iovs| && iovs[k] == u.m.Bundle(Next(u.id, u.n, s))
    ensures s.pos + 1 == u.n ==> |iovs| == u.n
    ensures BufferOk(u.m, u.n, Send(u.n, s), if s.pos + 1 == u.n then [] else iovs)
  {
    if s.pos + 1 == u.n {
      CycleIsFull(u.id, u.n, u.credits, s);
      MulMono(s.cycle, s.cycle + 1, u.n);
      BufferOfNone(u.m, u.n, Send(u.n, s));
    } else {
      BufferOfSame(u.m, u.n, s, Send(u.n, s), iovs);
    }
  }

  lemma BufferOfNone(m: Memory, n: nat, s: Ru)
    requires m.Ok() && s.acquired == s.cycle * n
    ensures BufferOk(m, n, s, [])
  {
  }

  lemma BufferOfSame(m: Memory, n: nat, s: Ru, s': Ru, iovs: seq<Iovec>)
    requires m.Ok() && BufferOk(m, n, s, iovs) && s'.acquired == s.acquired && s'.cycle == s.cycle
    ensures BufferOk(m, n, s', iovs)
  {
  }

  /** The check of the program that the multievent for the next destination has been acquired. */
  lemma IsAcquired(u: Site, s: Ru, iovs: seq<Iovec>)
    requires u.m.Ok() && BufferOk(u.m, u.n, s, iovs) && u.id < u.n && s.pos < u.n
    ensures Target(u.id, u.n, s.pos) < |iovs| <==> Next(u.id, u.n, s) < s.acquired
  {
  }

  lemma KeysOkAfterSend(u: Site, s: Ru, keys: seq<set<nat>>)
    requires Fits(u, s) && KeysOk(u, s, keys) && CanSend(u.id, u.n, u.credits, s)
    ensures Fits(u, Send(u.n, s))
    ensures var k, base := Target(u.id, u.n, s.pos), u.m.Base(Next(u.id, u.n, s));
            base !in keys[k] && KeysOk(u, Send(u.n, s), keys[k := keys[k] + {base}])
  {
    SendKeeps(u.id, u.n, u.credits, s);
    forall k | 0 <= k < u.n
      ensures KeysOn(u, Send(u.n, s), k)
           == KeysOn(u, s, k) + if k == Target(u.id, u.n, s.pos) then {u.m.Base(Next(u.id, u.n, s))} else {}
      ensures u.m.Base(Next(u.id, u.n, s)) !in KeysOn(u, s, k)
    {
      KeysAfterSend(u, s, k);
    }
  }

  ghost function KeysOf(pending: seq<map<nat, nat>>): (keys: seq<set<nat>>)
    ensures |keys| == |pending| && forall k :: 0 <= k < |keys| ==> keys[k] == pending[k].Keys
  {
    seq(|pending|, k requires 0 <= k < |pending| => pending[k].Keys)
  }

  lemma KeysOfRequest(pending: seq<map<nat, nat>>, k: nat, iov: Iovec)
    requires k < |pending|
    ensures KeysOf(pending[k := WithRequest(pending[k], iov)]) == KeysOf(pending)[k := KeysOf(pending)[k] + {iov.base}]
  {
    assert WithRequest(pending[k], iov).Keys == pending[k].Keys + {iov.base};
  }

  /** What is pending once the first `x` connections in sending order have been polled. */
  ghost function PolledUpTo(id: nat, n: nat, pending: seq<map<nat, nat>>, completions: seq<seq<nat>>,
                            x: nat): (p: seq<map<nat, nat>>)
    requires id < n == |pending| == |completions|
    ensures |p| == n
    ensures forall k :: 0 <= k < n ==>
              p[k] == if Rank(id, n, k) < x then pending[k] - Elements(completions[k]) else pending[k]
  {
    seq(n, k requires 0 <= k < n =>
      if Rank(id, n, k) < x then pending[k] - Elements(completions[k]) else pending[k])
  }

  lemma KeysOfPolled(id: nat, n: nat, pending: seq<map<nat, nat>>, completions: seq<seq<nat>>)
    requires id < n == |pending| && Answers(pending, completions)
    ensures var keys, keys' := KeysOf(pending), KeysOf(PolledUpTo(id, n, pending, completions, n));
            Reported(completions, keys) && forall k :: 0 <= k < n ==> keys'[k] == keys[k] - Elements(completions[k])
  {
  }

  lemma PollStep(id: nat, n: nat, pending: seq<map<nat, nat>>, completions: seq<seq<nat>>, x: nat)
    requires id < n == |pending| == |completions| && x < n
    ensures var k, p := Target(id, n, x), PolledUpTo(id, n, pending, completions, x);
            && p[k] == pending[k] && (Answers(pending, completions) ==> AllPending(p[k], completions[k]))
            && PolledUpTo(id, n, pending, completions, x + 1) == p[k := p[k] - Elements(completions[k])]
  {
  }

  /** If the next destination is among the first `x` that were polled, its credits are known. */
  ghost predicate Known(u: Site, pending: seq<map<nat, nat>>, seqId: nat, x: nat, avail: bool)
    requires u.id < u.n == |pending| && seqId < u.n
  {
    Rank(u.id, u.n, seqId) < x ==> (avail <==> |pending[seqId]| < u.credits)
  }

  /** How far polling has got when the first `x` connections are done. */
  ghost predicate PolledSoFar(u: Site, start: seq<map<nat, nat>>, completions: seq<seq<nat>>,
                              seqId: nat, x: nat, pending: seq<map<nat, nat>>, wrToRelease: seq<nat>,
                              connAvail: bool)
  {
    && u.id < u.n == |start| == |completions| && seqId < u.n && x <= u.n
    && wrToRelease == Gather(u.id, u.n, completions, x)
    && pending == PolledUpTo(u.id, u.n, start, completions, x)
    && Known(u, pending, seqId, x, connAvail)
  }

  lemma NothingPolled(u: Site, start: seq<map<nat, nat>>, completions: seq<seq<nat>>, seqId: nat)
    requires u.id < u.n == |start| == |completions| && seqId < u.n
    ensures PolledSoFar(u, start, completions, seqId, 0, start, [], false)
  {
  }

  lemma AllPolled(u: Site, start: seq<map<nat, nat>>, completions: seq<seq<nat>>, seqId: nat,
                  pending: seq<map<nat, nat>>, wrToRelease: seq<nat>, connAvail: bool)
    requires PolledSoFar(u, start, completions, seqId, u.n, pending, wrToRelease, connAvail)
    ensures |pending| == u.n && (connAvail <==> |pending[seqId]| < u.credits)
    ensures wrToRelease == Gather(u.id, u.n, completions, u.n)
    ensures pending == PolledUpTo(u.id, u.n, start, completions, u.n)
  {
  }

  lemma KnowMore(u: Site, p: seq<map<nat, nat>>, p': seq<map<nat, nat>>, seqId: nat, x: nat,
                 avail: bool, now: bool)
    requires u.id < u.n == |p| == |p'| && seqId < u.n && x < u.n && Known(u, p, seqId, x, avail)
    requires var k := Target(u.id, u.n, x); p' == p[k := p'[k]] && (now <==> |p'[k]| < u.credits)
    ensures Known(u, p', seqId, x + 1, if seqId == Target(u.id, u.n, x) then now else avail)
  {
  }

  /** A send can be posted, and leaves things in order. */
  lemma SendSound(u: Site, s: Ru, iovs: seq<Iovec>, pending: seq<map<nat, nat>>)
    requires Sound(u, s, iovs, KeysOf(pending)) && CanSend(u.id, u.n, u.credits, s)
    ensures var k := Target(u.id, u.n, s.pos);
            && k < |iovs| && k < |pending| && iovs[k] == u.m.Bundle(Next(u.id, u.n, s))
            && iovs[k].base !in pending[k] && |pending[k]| < u.credits
            && (s.pos + 1 == u.n ==> |iovs| == u.n)
            && Sound(u, Send(u.n, s), if s.pos + 1 == u.n then [] else iovs,
                     KeysOf(pending[k := WithRequest(pending[k], iovs[k])]))
  {
    var k := Target(u.id, u.n, s.pos);
    BufferAfterSend(u, s, iovs);
    KeysOkAfterSend(u, s, KeysOf(pending));
    CreditsAreKeys(u, s, pending, k);
    KeysOfRequest(pending, k, iovs[k]);
  }

  /** A connection has a credit left exactly when fewer than `credits` of its sends are in flight. */
  lemma CreditsAreKeys(u: Site, s: Ru, pending: seq<map<nat, nat>>, k: nat)
    requires Fits(u, s) && KeysOk(u, s, KeysOf(pending)) && k < u.n
    ensures |pending[k]| == |PendingOn(u.id, u.n, s, k)|
  {
    KeysCard(u, s, k, PendingOn(u.id, u.n, s, k));
    assert pending[k].Keys == KeysOn(u, s, k);
  }

  /** Whether a multievent can be sent, read off the send buffer and the socket. */
  lemma SendIsDecided(u: Site, s: Ru, iovs: seq<Iovec>, pending: seq<map<nat, nat>>)
    requires Sound(u, s, iovs, KeysOf(pending))
    ensures var k := Target(u.id, u.n, s.pos);
            CanSend(u.id, u.n, u.credits, s) <==> |pending[k]| < u.credits && k < |iovs|
  {
    IsAcquired(u, s, iovs);
    CreditsAreKeys(u, s, pending, Target(u.id, u.n, s.pos));
  }

  lemma TakenInFields(u: Site, s: Ru, iovs: seq<Iovec>, dues: seq<nat>, got: nat)
    requires Fits(u, s) && BufferOk(u.m, u.n, s, iovs)
    requires TakesSoFar(u.id, u.n, u.credits, u.m.bulk, s, dues, got)
    ensures s.acquired + got <= Mex(s.done) + 2 * u.credits
    ensures 0 < got ==> |iovs| + got <= Target(u.id, u.n, s.pos) + 1
    ensures forall x :: |iovs| <= x < |iovs| + got && x < |dues| ==>
              u.m.bulk * (s.acquired + (x - |iovs|) + 1) <= dues[x]
  {
    forall x | |iovs| <= x < |iovs| + got && x < |dues|
      ensures u.m.bulk * (s.acquired + (x - |iovs|) + 1) <= dues[x]
    {
      TakenAt(u, s, iovs, dues, got, x - |iovs|);
    }
    if 0 < got {
      assert MayAcquire(u.id, u.n, u.credits, u.m.bulk, AcquireMany(s, got - 1), dues);
    }
  }

  lemma TakenAt(u: Site, s: Ru, iovs: seq<Iovec>, dues: seq<nat>, got: nat, i: nat)
    requires Fits(u, s) && BufferOk(u.m, u.n, s, iovs) && i < got && |iovs| + i < |dues|
    requires TakesSoFar(u.id, u.n, u.credits, u.m.bulk, s, dues, got)
    ensures u.m.bulk * (s.acquired + i + 1) <= dues[|iovs| + i]
  {
    assert MayAcquire(u.id, u.n, u.credits, u.m.bulk, AcquireMany(s, i), dues);
  }

  /** What stops the unit from acquiring, read off the send buffer and the memory. */
  lemma LeftInFields(u: Site, s: Ru, iovs: seq<Iovec>, iovs': seq<Iovec>, dues: seq<nat>, got: nat)
    requires Fits(u, s) && BufferOk(u.m, u.n, s, iovs) && BufferOk(u.m, u.n, AcquireMany(s, got), iovs')
    requires TakesAll(u.id, u.n, u.credits, u.m.bulk, s, dues, got) && Target(u.id, u.n, s.pos) < |dues|
    ensures |iovs'| == |iovs| + got && s.acquired + got <= Mex(s.done) + 2 * u.credits
    ensures || Target(u.id, u.n, s.pos) < |iovs'|
            || s.acquired + got == Mex(s.done) + 2 * u.credits
            || dues[|iovs'|] < u.m.bulk * (s.acquired + got + 1)
  {
    TakenInFields(u, s, iovs, dues, got);
    IsAcquired(u, AcquireMany(s, got), iovs');
    if |iovs'| < |dues| {
      DueOfEntry(u.m, u.n, AcquireMany(s, got), iovs', dues);
    }
  }

  lemma RestCard(pending: map<nat, nat>, keys: seq<nat>)
    requires AllPending(pending, keys)
    ensures |pending - Elements(keys)| == |pending| - |keys|
  {
    DistinctCard(keys);
    assert (pending - Elements(keys)).Keys == pending.Keys - Elements(keys);
    assert Elements(keys) <= pending.Keys;
  }

  lemma NextPosition(id: nat, n: nat, pos: nat)
    requires id < n && pos < n
    ensures Target(id, n, pos) == (id + 1 + pos) % n
    ensures (pos + 1) % n == if pos + 1 == n then 0 else pos + 1
  {
    Wrap(id + 1 + pos, n);
    Wrap(pos + 1, n);
  }

  /** Whether a turn sends, read off what the buffer and the socket held before and what was reported. */
  lemma SentInFields(u: Site, s: Ru, iovs: seq<Iovec>, pending: seq<map<nat, nat>>, completions: seq<seq<nat>>,
                     sent: bool, s': Ru)
    requires Sound(u, s, iovs, KeysOf(pending)) && Answers(pending, completions)
    requires Finishes(u, s, completions, sent, s')
    ensures var k := Target(u.id, u.n, s.pos); sent <==> |pending[k]| - |completions[k]| < u.credits && k < |iovs|
    ensures sent && s.pos + 1 == u.n ==> |iovs| == u.n
  {
    var k := Target(u.id, u.n, s.pos);
    PollingSound(u, s, iovs, pending, completions);
    SendIsDecided(u, AfterPolling(u, s, completions), iovs, PolledUpTo(u.id, u.n, pending, completions, u.n));
    RestCard(pending[k], completions[k]);
    if sent {
      BufferAfterSend(u, AfterPolling(u, s, completions), iovs);
    }
  }

  /** What a turn acquires, in the fields of the program: the position in the sequence, the length of the send
      buffer, how many multievents were held and had been acquired. */
  ghost predicate TurnAcquires(u: Site, pos: nat, entries: nat, held: nat, acquired: nat, dues: seq<nat>, got: nat)
    requires u.id < u.n == |dues|
  {
    var k := (u.id + 1 + pos) % u.n;
    && held + got <= 2 * u.credits && (0 < got ==> entries + got <= k + 1)
    && (forall x :: entries <= x < entries + got && x < |dues| ==> u.m.bulk * (acquired + (x - entries) + 1) <= dues[x])
    && (|| k < entries + got
        || held + got == 2 * u.credits
        || dues[entries + got] < u.m.bulk * (acquired + got + 1))
  }

  /** What a turn sends: the position and the length of the send buffer before and after it, and what is pending
      on the sockets before the completions. */
  ghost predicate TurnSends(u: Site, pos: nat, pos': nat, entries: nat, entries': nat, pending: seq<map<nat, nat>>,
                            completions: seq<seq<nat>>, sent: bool)
    requires u.id < u.n == |pending| == |completions|
  {
    var k := (u.id + 1 + pos) % u.n;
    && (sent <==> |pending[k]| - |completions[k]| < u.credits && k < entries)
    && pos' == (if sent then (pos + 1) % u.n else pos)
    && entries' == (if sent && pos + 1 == u.n then 0 else entries)
  }

  lemma AcquiresInFields(u: Site, s: Ru, iovs: seq<Iovec>, dues: seq<nat>, got: nat, held: nat)
    requires Fits(u, s) && BufferOk(u.m, u.n, s, iovs) && |dues| == u.n
    requires BufferOk(u.m, u.n, AcquireMany(s, got), WithAcquired(u, s, iovs, got))
    requires TakesAll(u.id, u.n, u.credits, u.m.bulk, s, dues, got) && held == s.acquired - Mex(s.done)
    ensures TurnAcquires(u, s.pos, |iovs|, held, s.acquired, dues, got)
  {
    NextPosition(u.id, u.n, s.pos);
    TakenInFields(u, s, iovs, dues, got);
    LeftInFields(u, s, iovs, WithAcquired(u, s, iovs, got), dues, got);
  }

  lemma SendsInFields(u: Site, s: Ru, s': Ru, iovs: seq<Iovec>, iovs': seq<Iovec>, pending: seq<map<nat, nat>>,
                      completions: seq<seq<nat>>, sent: bool)
    requires Sound(u, s, iovs, KeysOf(pending)) && Answers(pending, completions)
    requires Finishes(u, s, completions, sent, s') && BufferOk(u.m, u.n, s', iovs')
    ensures TurnSends(u, s.pos, s'.pos, |iovs|, |iovs'|, pending, completions, sent)
  {
    NextPosition(u.id, u.n, s.pos);
    SentInFields(u, s, iovs, pending, completions, sent, s');
    BufferInFields(u, s, iovs, completions, sent, s', iovs');
  }

  lemma TurnInFields(u: Site, s: Ru, s': Ru, iovs: seq<Iovec>, iovs': seq<Iovec>, pending: seq<map<nat, nat>>,
                     dues: seq<nat>, completions: seq<seq<nat>>, got: nat, sent: bool, held: nat)
    requires Sound(u, s, iovs, KeysOf(pending)) && Answers(pending, completions) && |dues| == u.n
    requires Round(u, s, dues, completions, got, sent, s') && BufferOk(u.m, u.n, s', iovs')
    requires held == s.acquired - Mex(s.done)
    ensures TurnAcquires(u, s.pos, |iovs|, held, s.acquired, dues, got)
    ensures TurnSends(u, s.pos, s'.pos, |iovs| + got, |iovs'|, pending, completions, sent)
  {
    AcquiredSound(u, s, iovs, pending, dues, got);
    AcquiresInFields(u, s, iovs, dues, got, held);
    SendsInFields(u, AcquireMany(s, got), s', WithAcquired(u, s, iovs, got), iovs', pending, completions, sent);
  }

  /** The send buffer with `got` more multievents. */
  ghost function WithAcquired(u: Site, s: Ru, iovs: seq<Iovec>, got: nat): (buffer: seq<Iovec>)
    requires u.m.Ok()
    ensures |buffer| == |iovs| + got
  {
    iovs + seq(got, i requires 0 <= i < got => u.m.Bundle(s.acquired + i))
  }

  lemma AcquiredSound(u: Site, s: Ru, iovs: seq<Iovec>, pending: seq<map<nat, nat>>, dues: seq<nat>, got: nat)
    requires Sound(u, s, iovs, KeysOf(pending)) && TakesSoFar(u.id, u.n, u.credits, u.m.bulk, s, dues, got)
    ensures Sound(u, AcquireMany(s, got), WithAcquired(u, s, iovs, got), KeysOf(pending))
  {
    var buffer := WithAcquired(u, s, iovs, got);
    if got == 0 {
      assert buffer == iovs && AcquireMany(s, 0) == s;
    } else {
      var before := WithAcquired(u, s, iovs, got - 1);
      AcquiredSound(u, s, iovs, pending, dues, got - 1);
      assert MayAcquire(u.id, u.n, u.credits, u.m.bulk, AcquireMany(s, got - 1), dues);
      AcquireSound(u, AcquireMany(s, got - 1), before, KeysOf(pending));
      assert buffer == before + [u.m.Bundle(s.acquired + (got - 1))];
    }
  }

  lemma BufferInFields(u: Site, s: Ru, iovs: seq<Iovec>, completions: seq<seq<nat>>, sent: bool, s': Ru,
                       iovs': seq<Iovec>)
    requires Fits(u, s) && BufferOk(u.m, u.n, s, iovs) && u.id < u.n == |completions|
    requires Finishes(u, s, completions, sent, s') && BufferOk(u.m, u.n, s', iovs')
    requires sent && s.pos + 1 == u.n ==> |iovs| == u.n
    ensures |iovs'| == if sent && s.pos + 1 == u.n then 0 else |iovs|
    ensures s'.pos == if !sent then s.pos else if s.pos + 1 == u.n then 0 else s.pos + 1
  {
    MulMono(s.cycle, s.cycle + 1, u.n);
  }

  lemma PollingSound(u: Site, s: Ru, iovs: seq<Iovec>,
                     pending: seq<map<nat, nat>>, completions: seq<seq<nat>>)
    requires Sound(u, s, iovs, KeysOf(pending))
    requires Answers(pending, completions)
    ensures var s', pending' := AfterPolling(u, s, completions), PolledUpTo(u.id, u.n, pending, completions, u.n);
            && Releasable(u.m, s.acquired, s.done, Gather(u.id, u.n, completions, u.n))
            && (forall t :: t in s'.done && t !in s.done ==> Sent(u.id, u.n, s, t))
            && Sound(u, s', iovs, KeysOf(pending'))
            && forall k :: 0 <= k < u.n ==> |pending'[k]| == |PendingOn(u.id, u.n, s', k)|
  {
    var s', pending' := AfterPolling(u, s, completions), PolledUpTo(u.id, u.n, pending, completions, u.n);
    KeysOfPolled(u.id, u.n, pending, completions);
    CompletionsSound(u, s, KeysOf(pending), completions, KeysOf(pending'));
    BufferOfSame(u.m, u.n, s, s', iovs);
    AllCreditsAreKeys(u, s', pending');
  }

  lemma AllCreditsAreKeys(u: Site, s: Ru, pending: seq<map<nat, nat>>)
    requires Fits(u, s) && KeysOk(u, s, KeysOf(pending))
    ensures forall k :: 0 <= k < u.n ==> |pending[k]| == |PendingOn(u.id, u.n, s, k)|
  {
    forall k | 0 <= k < u.n
      ensures |pending[k]| == |PendingOn(u.id, u.n, s, k)|
    {
      CreditsAreKeys(u, s, pending, k);
    }
  }

  /** One turn of the loop in terms of the counters: as many acquisitions as memory and clock allow,
      then all completions that are reported, then a send if and only if there is room on the
      connection and the multievent is there. */
  ghost predicate Round(u: Site, s: Ru, dues: seq<nat>, completions: seq<seq<nat>>, got: nat, sent: bool, s': Ru)
    requires u.m.Ok() && u.id < u.n == |completions| && s.pos < u.n
  {
    && TakesAll(u.id, u.n, u.credits, u.m.bulk, s, dues, got)
    && Finishes(u, AcquireMany(s, got), completions, sent, s')
  }

  /** The part after the acquisitions. */
  ghost predicate Finishes(u: Site, s: Ru, completions: seq<seq<nat>>, sent: bool, s': Ru)
    requires u.m.Ok() && u.id < u.n == |completions| && s.pos < u.n
  {
    var completed := AfterPolling(u, s, completions);
    && (forall t :: t in completed.done && t !in s.done ==> Sent(u.id, u.n, s, t))
    && (sent <==> CanSend(u.id, u.n, u.credits, completed))
    && s' == if sent then Send(u.n, completed) else completed
  }

  lemma Finish(u: Site, s: Ru, completed: Ru, completions: seq<seq<nat>>, sent: bool, s': Ru)
    requires u.m.Ok() && u.id < u.n == |completions| && s.pos < u.n
    requires completed == AfterPolling(u, s, completions)
    requires forall t :: t in completed.done && t !in s.done ==> Sent(u.id, u.n, s, t)
    requires sent <==> CanSend(u.id, u.n, u.credits, completed)
    requires s' == if sent then Send(u.n, completed) else completed
    ensures Finishes(u, s, completions, sent, s')
  {
  }

  /** Clock and network determine a turn. */
  lemma RoundIsDetermined(u: Site, s: Ru, dues: seq<nat>, completions: seq<seq<nat>>,
                          got: nat, sent: bool, s': Ru, got': nat, sent': bool, s'': Ru)
    requires u.m.Ok() && u.id < u.n == |completions| && s.pos < u.n
    requires Round(u, s, dues, completions, got, sent, s')
    requires Round(u, s, dues, completions, got', sent', s'')
    ensures got == got' && sent == sent' && s' == s''
  {
  }

  lemma DueOfEntry(m: Memory, n: nat, s: Ru, iovs: seq<Iovec>, dues: seq<nat>)
    requires m.Ok() && BufferOk(m, n, s, iovs) && |iovs| < |dues|
    ensures DueAt(n, s, dues) == dues[|iovs|]
  {
  }

  /** The sockets after a send, if there is one. */
  ghost function AfterSending(u: Site, s: Ru, pending: seq<map<nat, nat>>,
                              sent: bool): seq<map<nat, nat>>
    requires u.m.Ok() && u.id < u.n == |pending| && s.pos < u.n
  {
    var k := Target(u.id, u.n, s.pos);
    if sent then pending[k := WithRequest(pending[k], u.m.Bundle(Next(u.id, u.n, s)))] else pending
  }

  lemma SendingIgnoresOthers(u: Site, s: Ru, s': Ru, pending: seq<map<nat, nat>>, sent: bool)
    requires u.m.Ok() && u.id < u.n == |pending| && s.pos == s'.pos < u.n && s.cycle == s'.cycle
    ensures AfterSending(u, s, pending, sent) == AfterSending(u, s', pending, sent)
  {
  }

  class ReadoutUnit {
    const id: nat
    const credits: nat
    const accumulator: Accumulator
    /** The connection to each builder unit. */
    const conns: seq<Socket>
    const idSequence: seq<nat>
    /** Position in the sequence of the next destination. */
    var pos: nat
    /** Multievents acquired in this cycle, by destination. */
    var iovToSend: seq<Iovec>
    ghost var cycle: nat

    ghost function View(): Ru
      reads this, accumulator
    {
      Ru(accumulator.acquired, cycle, pos, accumulator.done)
    }

    ghost function Store(): Memory
      reads accumulator.metadata
    {
      accumulator.Store()
    }

    ghost function Here(): Site
      reads accumulator.metadata
    {
      Site(Store(), id, |conns|, credits)
    }

    ghost function Pending(): (p: seq<map<nat, nat>>)
      reads conns
      ensures |p| == |conns| && forall k :: 0 <= k < |conns| ==> p[k] == conns[k].pendingSend
    {
      seq(|conns|, k requires 0 <= k < |conns| reads conns => conns[k].pendingSend)
    }

    /** Every object that belongs to the unit. */
    ghost function Owned(): (objects: set<object>)
      ensures {this, accumulator, accumulator.metadata, accumulator.controller} <= objects
      ensures {accumulator.controller.generator, accumulator.controller.generator.buffer} <= objects
      ensures forall c :: c in conns ==> c in objects
    {
      {this, accumulator, accumulator.metadata, accumulator.controller, accumulator.controller.generator,
       accumulator.controller.generator.buffer} + set c | c in conns :: c
    }

    ghost predicate Wired()
      reads this
    {
      && id < |conns|
      && |idSequence| == |conns| && (forall p :: 0 <= p < |conns| ==> idSequence[p] == Target(id, |conns|, p))
      && (forall k, l :: 0 <= k < l < |conns| ==> conns[k] != conns[l])
      && (forall k :: 0 <= k < |conns| ==> conns[k].credits == credits)
    }

    ghost predicate Valid()
      reads this, accumulator, accumulator.metadata, conns
      reads accumulator.controller, accumulator.controller.generator, accumulator.controller.generator.buffer
    {
      Wired() && accumulator.Valid() && Sound(Here(), View(), iovToSend, KeysOf(Pending()))
    }

    constructor (accumulator: Accumulator, conns: seq<Socket>, id: nat, credits: nat)
      requires (accumulator.Store().Ok() ==> accumulator.Valid()) && accumulator.acquired == 0 && accumulator.done == {}
      requires accumulator.slots == 2 * credits + 1 && id < |conns|
      requires forall k, l :: 0 <= k < l < |conns| ==> conns[k] != conns[l]
      requires forall k :: 0 <= k < |conns| ==> conns[k].credits == credits && conns[k].pendingSend == map[]
      ensures (Store().Ok() ==> Valid()) && View() == FRESH_RU
      ensures this.accumulator == accumulator && this.conns == conns && this.id == id && this.credits == credits
    {
      var sequence := CreateSequence(id, |conns|);
      this.accumulator, this.conns, this.id, this.credits := accumulator, conns, id, credits;
      idSequence := sequence;
      pos, iovToSend, cycle := 0, [], 0;
      new;
      if Store().Ok() {
        FreshRuInv(id, |conns|, credits);
        forall k | 0 <= k < |conns|
          ensures KeysOn(Here(), View(), k) == {}
        {
          assert PendingOn(id, |conns|, FRESH_RU, k) == {};
        }
      }
    }

    /** The unit does not notice changes to objects that are not its own. */
    twostate lemma Untouched(others: set<object>)
      requires old(Valid()) && Owned() <= others && unchanged(others)
      ensures Valid() && View() == old(View()) && Store() == old(Store()) && Pending() == old(Pending())
      ensures accumulator.controller.lastDue == old(accumulator.controller.lastDue)
    {
    }

    /** Takes one more multievent for this cycle, if memory and the clock allow. */
    method AcquireOne(due: nat) returns (more: bool)
      requires Valid() && accumulator.acquired <= Next(id, |conns|, View())
      requires accumulator.controller.lastDue <= due
      modifies this`iovToSend
      modifies accumulator`current, accumulator`generatedEvents, accumulator`multievents, accumulator`acquired
      modifies accumulator.controller, accumulator.controller.generator.buffer
      ensures Valid() && accumulator.controller.lastDue <= due
      ensures more <==> && CanAcquire(id, |conns|, credits, old(View()))
                        && accumulator.bulk * (old(accumulator.acquired) + 1) <= due
      ensures View() == if more then Acquire(old(View())) else old(View())
      ensures |iovToSend| == old(|iovToSend|) + (if more then 1 else 0) && Pending() == old(Pending())
    {
      ghost var u, s, iovs, pending := Here(), View(), iovToSend, Pending();
      more := Take(due);
      if more {
        AcquireSound(u, s, iovs, KeysOf(pending));
      }
    }

    /** Asks for a multievent and puts it into the send buffer. */
    method Take(due: nat) returns (more: bool)
      requires Wired() && accumulator.Valid() && accumulator.controller.lastDue <= due
      modifies this`iovToSend
      modifies accumulator`current, accumulator`generatedEvents, accumulator`multievents, accumulator`acquired
      modifies accumulator.controller, accumulator.controller.generator.buffer
      ensures accumulator.Valid() && accumulator.controller.lastDue <= due
      ensures more <==> && old(accumulator.acquired) < Mex(old(accumulator.done)) + (accumulator.slots - 1)
                        && accumulator.bulk * (old(accumulator.acquired) + 1) <= due
      ensures View() == if more then Acquire(old(View())) else old(View())
      ensures iovToSend
              == if more then old(iovToSend) + [Store().Bundle(old(accumulator.acquired))] else old(iovToSend)
      ensures Here() == old(Here()) && Pending() == old(Pending())
    {
      ghost var u, pending := Here(), Pending();
      var iov;
      iov, more := accumulator.GetMultievent(due);
      if more {
        iovToSend := iovToSend + [iov];
      }
      assert Here() == u && Pending() == pending;
    }

    /** Acquires until the multievent for the next destination is there or none can be had: memory is full,
        or the clock has not asked for the events of one more. */
    method AcquireUpTo(seqId: nat, dues: seq<nat>) returns (ghost got: nat)
      requires Valid() && seqId == Target(id, |conns|, pos)
      requires seqId < |dues| && Ordered(dues) && accumulator.controller.lastDue <= dues[0]
      modifies this`iovToSend
      modifies accumulator`current, accumulator`generatedEvents, accumulator`multievents, accumulator`acquired
      modifies accumulator.controller, accumulator.controller.generator.buffer
      ensures Valid() && accumulator.controller.lastDue <= dues[|dues| - 1]
      ensures View() == AcquireMany(old(View()), got) && Pending() == old(Pending())
      ensures TakesAll(id, |conns|, credits, accumulator.bulk, old(View()), dues, got)
      ensures |iovToSend| == old(|iovToSend|) + got
      ensures |accumulator.multievents| == old(|accumulator.multievents|) + got <= 2 * credits
      ensures || seqId < |iovToSend|
              || |accumulator.multievents| == 2 * credits
              || dues[|iovToSend|] < accumulator.bulk * (accumulator.acquired + 1)
      ensures Here() == old(Here())
    {
      HeldInFields();
      ghost var u, s, iovs := Here(), View(), iovToSend;
      got := AcquireLoop(seqId, dues);
      HeldInFields();
      assert Here() == u;
      LeftInFields(u, s, iovs, iovToSend, dues, got);
    }

    method AcquireLoop(seqId: nat, dues: seq<nat>) returns (ghost got: nat)
      requires Valid() && seqId == Target(id, |conns|, pos)
      requires seqId < |dues| && Ordered(dues) && accumulator.controller.lastDue <= dues[0]
      modifies this`iovToSend
      modifies accumulator`current, accumulator`generatedEvents, accumulator`multievents, accumulator`acquired
      modifies accumulator.controller, accumulator.controller.generator.buffer
      ensures Valid() && accumulator.controller.lastDue <= dues[|dues| - 1]
      ensures View() == AcquireMany(old(View()), got) && Pending() == old(Pending())
      ensures TakesAll(id, |conns|, credits, accumulator.bulk, old(View()), dues, got)
    {
      got := 0;
      ghost var start, pending := View(), Pending();
      var more := true;
      var i := |iovToSend|;
      while i <= seqId && more
        invariant Valid() && |iovToSend| <= i && (more ==> i == |iovToSend|)
        invariant accumulator.controller.lastDue <= if i <= seqId then dues[i] else dues[|dues| - 1]
        invariant View() == AcquireMany(start, got) && Pending() == pending
        invariant TakesSoFar(id, |conns|, credits, accumulator.bulk, start, dues, got)
        invariant !more ==> !MayAcquire(id, |conns|, credits, accumulator.bulk, View(), dues)
        decreases seqId + 1 - i
      {
        more := AcquireNext(dues);
        if more {
          TakesOneMore(id, |conns|, credits, accumulator.bulk, start, dues, got);
          got := got + 1;
        }
        i := i + 1;
      }
      IsAcquired(Here(), View(), iovToSend);
    }

    /** The acquisition for the next entry of the send buffer, at the clock reading for it. */
    method AcquireNext(dues: seq<nat>) returns (more: bool)
      requires Valid() && |iovToSend| <= Target(id, |conns|, pos) < |dues| && Ordered(dues)
      requires accumulator.controller.lastDue <= dues[|iovToSend|]
      modifies this`iovToSend
      modifies accumulator`current, accumulator`generatedEvents, accumulator`multievents, accumulator`acquired
      modifies accumulator.controller, accumulator.controller.generator.buffer
      ensures Valid() && accumulator.controller.lastDue <= dues[old(|iovToSend|)]
      ensures more <==> MayAcquire(id, |conns|, credits, accumulator.bulk, old(View()), dues)
      ensures View() == if more then Acquire(old(View())) else old(View())
      ensures |iovToSend| == old(|iovToSend|) + (if more then 1 else 0) && Pending() == old(Pending())
    {
      IsAcquired(Here(), View(), iovToSend);
      DueOfEntry(Store(), |conns|, View(), iovToSend, dues);
      more := AcquireOne(dues[|iovToSend|]);
    }

    /** Takes the reported completions of one connection; returns their addresses, and whether there
        is room for a send now. */
    method PollOne(dest: nat, completed: seq<nat>) returns (bases: seq<nat>, avail: bool)
      requires Wired() && dest < |conns| && AllPending(Pending()[dest], completed)
      modifies conns
      ensures bases == completed && (avail <==> |Pending()[dest]| < credits)
      ensures Pending() == old(Pending())[dest := old(Pending())[dest] - Elements(completed)]
    {
      var outcome := conns[dest].PollCompletedSend(completed);
      bases := seq(|outcome.completed|, i requires 0 <= i < |outcome.completed| => outcome.completed[i].base);
      avail := conns[dest].AvailableSend();
    }

    /** Polls the connection at one position of the sending order. */
    method PollNext(x: nat, seqId: nat, completions: seq<seq<nat>>, wrToRelease: seq<nat>, connAvail: bool,
                    ghost u: Site, ghost start: seq<map<nat, nat>>)
      returns (moreToRelease: seq<nat>, nowAvail: bool)
      requires Wired() && u.id == id && u.n == |conns| && u.credits == credits
      requires x < |conns| && seqId < |conns| && Answers(start, completions)
      requires PolledSoFar(u, start, completions, seqId, x, Pending(), wrToRelease, connAvail)
      modifies conns
      ensures PolledSoFar(u, start, completions, seqId, x + 1, Pending(), moreToRelease, nowAvail)
    {
      var dest := idSequence[x];
      ghost var before := Pending();
      PollStep(id, |conns|, start, completions, x);
      var bases, avail := PollOne(dest, completions[dest]);
      KnowMore(u, before, Pending(), seqId, x, connAvail, avail);
      moreToRelease := wrToRelease + bases;
      nowAvail := if seqId == dest then avail else connAvail;
    }

    /** Polls every connection, in sending order; looks at the credits of the next destination as
        soon as its completions are in. */
    method PollAll(seqId: nat, completions: seq<seq<nat>>) returns (wrToRelease: seq<nat>, connAvail: bool)
      requires Wired() && seqId < |conns| && Answers(Pending(), completions)
      modifies conns
      ensures wrToRelease == Gather(id, |conns|, completions, |conns|)
      ensures connAvail <==> |Pending()[seqId]| < credits
      ensures Here() == old(Here())
      ensures Pending() == PolledUpTo(id, |conns|, old(Pending()), completions, |conns|)
    {
      ghost var start, u := Pending(), Here();
      wrToRelease, connAvail := [], false;
      NothingPolled(u, start, completions, seqId);
      for x := 0 to |idSequence|
        invariant Here() == u
        invariant PolledSoFar(u, start, completions, seqId, x, Pending(), wrToRelease, connAvail)
      {
        wrToRelease, connAvail := PollNext(x, seqId, completions, wrToRelease, connAvail, u, start);
      }
      AllPolled(u, start, completions, seqId, Pending(), wrToRelease, connAvail);
    }

    method ReleaseCompleted(wrToRelease: seq<nat>)
      requires accumulator.Valid() && Releasable(Store(), accumulator.acquired, accumulator.done, wrToRelease)
      modifies accumulator`multievents, accumulator`releaseMetadata, accumulator`released, accumulator`done
      modifies accumulator.controller`releasedEvents, accumulator.controller.generator.buffer
      ensures accumulator.Valid() && Store() == old(Store()) && Pending() == old(Pending())
      ensures View()
              == old(View()).(done := AfterRelease(Store(), accumulator.acquired, old(accumulator.done), wrToRelease))
    {
      if wrToRelease != [] {
        accumulator.ReleaseMultievents(wrToRelease);
      }
    }

    method PollAndRelease(seqId: nat, completions: seq<seq<nat>>) returns (connAvail: bool)
      requires Wired() && accumulator.Valid() && seqId < |conns| && Answers(Pending(), completions)
      requires Releasable(Store(), accumulator.acquired, accumulator.done, Gather(id, |conns|, completions, |conns|))
      modifies conns, accumulator`multievents, accumulator`releaseMetadata, accumulator`released, accumulator`done
      modifies accumulator.controller`releasedEvents, accumulator.controller.generator.buffer
      ensures accumulator.Valid() && Store() == old(Store())
      ensures View() == AfterPolling(Here(), old(View()), completions)
      ensures Pending() == PolledUpTo(id, |conns|, old(Pending()), completions, |conns|)
      ensures connAvail <==> |Pending()[seqId]| < credits
      ensures iovToSend == old(iovToSend)
    {
      ghost var u, s := Here(), View();
      var wrToRelease;
      wrToRelease, connAvail := PollAll(seqId, completions);
      assert accumulator.Valid() && Here() == u && View() == s;
      ghost var pending := Pending();
      ReleaseCompleted(wrToRelease);
      assert Pending() == pending;
    }

    /** Takes in what the network reports as completed and gives memory back. */
    method CompleteAll(seqId: nat, completions: seq<seq<nat>>) returns (connAvail: bool)
      requires Valid() && seqId < |conns| && Answers(Pending(), completions)
      modifies conns, accumulator`multievents, accumulator`releaseMetadata, accumulator`released, accumulator`done
      modifies accumulator.controller`releasedEvents, accumulator.controller.generator.buffer
      ensures Valid()
      ensures View() == AfterPolling(Here(), old(View()), completions)
      ensures forall t :: t in accumulator.done && t !in old(accumulator.done) ==> Sent(id, |conns|, old(View()), t)
      ensures connAvail <==> |Pending()[seqId]| < credits
      ensures Here() == old(Here())
      ensures Pending() == PolledUpTo(id, |conns|, old(Pending()), completions, |conns|)
    {
      ghost var u, n, s, iovs, pending := Here(), |conns|, View(), iovToSend, Pending();
      ghost var s', pending' := AfterPolling(u, s, completions), PolledUpTo(id, n, pending, completions, n);
      PollingSound(u, s, iovs, pending, completions);
      assert Sound(u, s', iovs, KeysOf(pending'));
      connAvail := PollAndRelease(seqId, completions);
      assert Pending() == pending' && Here() == u && View() == s' && iovToSend == iovs;
    }

    /** Posts a send on one connection; neither of the two errors can occur. */
    method PostOne(dest: nat, iov: Iovec)
      requires Wired() && dest < |conns|
      requires conns[dest].AvailableSend() && iov.base !in conns[dest].pendingSend
      requires accumulator.Valid()
      modifies conns
      ensures accumulator.Valid() && Store() == old(Store()) && View() == old(View())
      ensures Pending() == old(Pending())[dest := WithRequest(old(Pending())[dest], iov)]
    {
      var outcome := conns[dest].PostSend(iov);
      assert outcome.Posted?;
    }

    /** Posts the multievent of the next destination and moves on, at the end of a cycle to a new one. */
    method SendNext()
      requires Valid() && CanSend(id, |conns|, credits, View())
      modifies this`pos, this`iovToSend, this`cycle, conns
      ensures Valid() && View() == Send(|conns|, old(View()))
      ensures var k, iov := Target(id, |conns|, old(pos)), Store().Bundle(Next(id, |conns|, old(View())));
              Pending() == old(Pending())[k := WithRequest(old(Pending())[k], iov)]
    {
      ghost var u, s, pending := Here(), View(), Pending();
      var seqId := idSequence[pos];
      SendSound(u, s, iovToSend, pending);
      ghost var posted := pending[seqId := WithRequest(pending[seqId], iovToSend[seqId])];
      ghost var rest := if pos + 1 == |conns| then [] else iovToSend;
      assert Sound(u, Send(|conns|, s), rest, KeysOf(posted));
      PostOne(seqId, iovToSend[seqId]);
      MoveOn();
      assert Pending() == posted && View() == Send(|conns|, s) && Here() == u && iovToSend == rest;
    }

    /** The next position of the sequence; at its end the buffer is full and a new cycle begins. */
    method MoveOn()
      requires Wired() && pos < |conns| && accumulator.Valid()
      requires pos + 1 == |conns| ==> |iovToSend| == |conns|
      modifies this`pos, this`iovToSend, this`cycle
      ensures accumulator.Valid() && Store() == old(Store()) && Pending() == old(Pending())
      ensures View() == Send(|conns|, old(View()))
      ensures iovToSend == if old(pos) + 1 == |conns| then [] else old(iovToSend)
    {
      if pos + 1 == |idSequence| {
        assert |iovToSend| == |conns|;
        pos, iovToSend := 0, [];
        cycle := cycle + 1;
      } else {
        pos := pos + 1;
      }
    }

    /** One turn of the loop. The clock is read once for each acquisition that is tried. The last clause
        says in the program's own fields how much is acquired and whether something is sent. */
    method Iterate(dues: seq<nat>, completions: seq<seq<nat>>) returns (ghost got: nat, sent: bool)
      requires Valid() && |dues| == |conns| && Ordered(dues) && accumulator.controller.lastDue <= dues[0]
      requires Answers(Pending(), completions)
      modifies this`pos, this`iovToSend, this`cycle, conns
      modifies accumulator, accumulator.controller, accumulator.controller.generator.buffer
      ensures Valid() && old(View()).pos < |conns| && accumulator.controller.lastDue <= dues[|dues| - 1]
      ensures Here() == old(Here()) && Round(Here(), old(View()), dues, completions, got, sent, View())
      ensures Pending() == AfterSending(Here(), old(View()),
                                        PolledUpTo(id, |conns|, old(Pending()), completions, |conns|), sent)
      ensures TurnAcquires(old(Here()), old(pos), old(|iovToSend|), old(|accumulator.multievents|),
                           old(accumulator.acquired), dues, got)
      ensures TurnSends(old(Here()), old(pos), pos, old(|iovToSend|) + got, |iovToSend|, old(Pending()), completions,
                        sent)
    {
      HeldInFields();
      ghost var u, s, iovs, sockets, held := Here(), View(), iovToSend, Pending(), |accumulator.multievents|;
      got, sent := TakeTurn(dues, completions);
      TurnInFields(u, s, View(), iovs, iovToSend, sockets, dues, completions, got, sent, held);
    }

    /** Every multievent held is one that has been acquired and not been given back. */
    lemma HeldInFields()
      requires Valid()
      ensures |accumulator.multievents| == accumulator.acquired - Mex(accumulator.done) <= 2 * credits
    {
    }

    method TakeTurn(dues: seq<nat>, completions: seq<seq<nat>>) returns (ghost got: nat, sent: bool)
      requires Valid() && |dues| == |conns| && Ordered(dues) && accumulator.controller.lastDue <= dues[0]
      requires Answers(Pending(), completions)
      modifies this`pos, this`iovToSend, this`cycle, conns
      modifies accumulator, accumulator.controller, accumulator.controller.generator.buffer
      ensures Valid() && old(View()).pos < |conns| && accumulator.controller.lastDue <= dues[|dues| - 1]
      ensures Here() == old(Here()) && Round(Here(), old(View()), dues, completions, got, sent, View())
      ensures Pending() == AfterSending(Here(), old(View()),
                                        PolledUpTo(id, |conns|, old(Pending()), completions, |conns|), sent)
    {
      var seqId := idSequence[pos];
      ghost var u, n, start := Here(), |conns|, View();
      got := AcquireUpTo(seqId, dues);
      ghost var acquired, pending := View(), Pending();
      sent := CompleteAndSend(seqId, completions);
      SendingIgnoresOthers(u, start, acquired, PolledUpTo(id, n, pending, completions, n), sent);
    }

    /** The part of a turn after the acquisitions. */
    method CompleteAndSend(seqId: nat, completions: seq<seq<nat>>) returns (sent: bool)
      requires Valid() && seqId == Target(id, |conns|, pos) && Answers(Pending(), completions)
      modifies this`pos, this`iovToSend, this`cycle, conns
      modifies accumulator`multievents, accumulator`releaseMetadata, accumulator`released, accumulator`done
      modifies accumulator.controller`releasedEvents, accumulator.controller.generator.buffer
      ensures Valid() && old(View()).pos < |conns|
      ensures Here() == old(Here()) && Finishes(Here(), old(View()), completions, sent, View())
      ensures Pending() == AfterSending(Here(), old(View()),
                                        PolledUpTo(id, |conns|, old(Pending()), completions, |conns|), sent)
    {
      ghost var u, n, s := Here(), |conns|, View();
      var connAvail := CompleteAll(seqId, completions);
      ghost var completed, rest := View(), Pending();
      sent := SendIfPossible(seqId, connAvail);
      assert Here() == u;
      Finish(u, s, completed, completions, sent, View());
      SendingIgnoresOthers(u, s, completed, rest, sent);
    }

    method SendIfPossible(seqId: nat, connAvail: bool) returns (sent: bool)
      requires Valid() && seqId == Target(id, |conns|, pos)
      requires connAvail <==> |Pending()[seqId]| < credits
      modifies this`pos, this`iovToSend, this`cycle, conns
      ensures Valid() && (sent <==> CanSend(id, |conns|, credits, old(View())))
      ensures sent <==> |old(Pending())[seqId]| < credits && seqId < old(|iovToSend|)
      ensures View() == if sent then Send(|conns|, old(View())) else old(View())
      ensures Here() == old(Here()) && Pending() == AfterSending(old(Here()), old(View()), old(Pending()), sent)
    {
      SendIsDecided(Here(), View(), iovToSend, Pending());
      sent := connAvail && seqId < |iovToSend|;
      if sent {
        SendNext();
      }
    }
  }
}
