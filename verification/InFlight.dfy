/** Where the memory of a readout unit is: every multievent held and not completed waits in the send
    buffer or is in flight on exactly one connection. */
module InFlight {
  import opened Bundles
  import opened DataFormat
  import opened Prefix
  import opened ReadoutUnits
  import opened Ring
  import opened Schedule

  /** The address is that of an entry of the send buffer that has not been posted in this cycle. */
  ghost predicate Waiting(id: nat, n: nat, s: Ru, iovs: seq<Iovec>, addr: nat)
    requires id < n
  {
    exists i :: 0 <= i < |iovs| && i < n && s.pos <= Rank(id, n, i) && iovs[i].base == addr
  }

  ghost predicate OnConnection(keys: seq<set<nat>>, addr: nat) {
    exists k :: 0 <= k < |keys| && addr in keys[k]
  }

  /** What has been acquired and not sent belongs to the current cycle and is still ahead in it. */
  lemma NotSentIsAhead(id: nat, n: nat, credits: nat, s: Ru, t: nat)
    requires RuInv(id, n, credits, s) && t < s.acquired && !Sent(id, n, s, t)
    ensures t == s.cycle * n + t % n && s.pos <= Rank(id, n, t % n)
  {
    var k, j := t % n, t / n;
    MevSplit(n, t);
    assert s.cycle <= j;
    if s.cycle < j {
      MulMono(s.cycle + 1, j, n);
      MulMono(s.cycle, s.cycle + 1, n);
    }
  }

  lemma SentIsOnConnection(u: Site, s: Ru, keys: seq<set<nat>>, t: nat)
    requires u.m.Ok() && u.id < u.n && KeysOk(u, s, keys)
    requires Sent(u.id, u.n, s, t) && t !in s.done
    ensures OnConnection(keys, u.m.Base(t))
  {
    var k, j := t % u.n, t / u.n;
    MevSplit(u.n, t);
    assert j in PendingOn(u.id, u.n, s, k);
    assert u.m.Base(Mev(u.n, k, j)) in KeysOn(u, s, k);
  }

  lemma EntryIsWaiting(u: Site, s: Ru, iovs: seq<Iovec>, k: nat)
    requires u.m.Ok() && BufferOk(u.m, u.n, s, iovs) && u.id < u.n && k < u.n
    requires s.cycle * u.n + k < s.acquired && s.pos <= Rank(u.id, u.n, k)
    ensures Waiting(u.id, u.n, s, iovs, u.m.Base(s.cycle * u.n + k))
  {
  }

  lemma HeldIsSomewhere(u: Site, s: Ru, iovs: seq<Iovec>, keys: seq<set<nat>>, t: nat)
    requires Sound(u, s, iovs, keys) && t < s.acquired && t !in s.done
    ensures Waiting(u.id, u.n, s, iovs, u.m.Base(t)) || OnConnection(keys, u.m.Base(t))
  {
    if Sent(u.id, u.n, s, t) {
      SentIsOnConnection(u, s, keys, t);
    } else {
      NotSentIsAhead(u.id, u.n, u.credits, s, t);
      EntryIsWaiting(u, s, iovs, t % u.n);
    }
  }

  lemma WaitingIsHeld(u: Site, s: Ru, iovs: seq<Iovec>, keys: seq<set<nat>>, addr: nat)
    returns (t: nat)
    requires Sound(u, s, iovs, keys) && Waiting(u.id, u.n, s, iovs, addr)
    ensures HeldAt(u.m, s.acquired, s.done, addr, t) && !Sent(u.id, u.n, s, t)
  {
    var i :| 0 <= i < |iovs| && i < u.n && s.pos <= Rank(u.id, u.n, i) && iovs[i].base == addr;
    t := Mev(u.n, i, s.cycle);
    MevInverse(u.n, i, s.cycle);
    assert !Sent(u.id, u.n, s, t);
    assert t !in s.done;
    assert t < Mex(s.done) ==> t in s.done;
    assert iovs[i] == u.m.Bundle(t);
  }

  /** An address is held exactly when it waits or is in flight, and it is never in both places. */
  lemma HeldIsWaitingOrInFlight(u: Site, s: Ru, iovs: seq<Iovec>, keys: seq<set<nat>>,
                                addr: nat)
    requires Sound(u, s, iovs, keys)
    ensures IsHeld(u.m, s.acquired, s.done, addr) <==> Waiting(u.id, u.n, s, iovs, addr) || OnConnection(keys, addr)
    ensures !(Waiting(u.id, u.n, s, iovs, addr) && OnConnection(keys, addr))
  {
    if IsHeld(u.m, s.acquired, s.done, addr) {
      var t: nat :| HeldAt(u.m, s.acquired, s.done, addr, t);
      HeldIsSomewhere(u, s, iovs, keys, t);
    }
    if OnConnection(keys, addr) {
      var k :| 0 <= k < |keys| && addr in keys[k];
      var j := KeyIsHeld(u, s, k, addr);
      MevInverse(u.n, k, j);
      if Waiting(u.id, u.n, s, iovs, addr) {
        var t := WaitingIsHeld(u, s, iovs, keys, addr);
      }
    } else if Waiting(u.id, u.n, s, iovs, addr) {
      var t := WaitingIsHeld(u, s, iovs, keys, addr);
    }
  }

  /** The memory of the next multievent is not in use: no multievent that is still held starts where
      it starts or overlaps it, completed or not. */
  lemma NextIsFree(u: Site, s: Ru, t: nat)
    requires Fits(u, s) && CanAcquire(u.id, u.n, u.credits, s) && Mex(s.done) <= t < s.acquired
    ensures u.m.Base(t) != u.m.Base(s.acquired)
    ensures u.m.Base(t) + u.m.Bundle(t).len <= u.m.Base(s.acquired)
            || u.m.Base(s.acquired) + u.m.Bundle(s.acquired).len <= u.m.Base(t)
  {
    ResiduesDiffer(t, s.acquired, u.m.slots);
    BundleFits(u.m, t, s.acquired);
    BundleFits(u.m, s.acquired, t);
    BasesDiffer(u.m, t, s.acquired);
  }

  lemma UnflaggedIsHeld(m: Memory, queue: seq<(nat, bool)>, acquired: nat, done: set<nat>, addr: nat)
    requires m.Ok() && Mex(done) + |queue| == acquired && Tracks(m, queue, Mex(done), done)
    ensures (addr, false) in queue <==> IsHeld(m, acquired, done, addr)
  {
    var released := Mex(done);
    if (addr, false) in queue {
      var j :| 0 <= j < |queue| && queue[j] == (addr, false);
      assert HeldAt(m, acquired, done, addr, released + j);
    }
    if IsHeld(m, acquired, done, addr) {
      var t: nat :| HeldAt(m, acquired, done, addr, t);
      assert queue[t - released] == (addr, false);
    }
  }

  /** The same of the program's own fields: the entries of the queue that carry no flag are those
      that wait in the send buffer and, on one connection only, those pending in the sockets. */
  lemma UnflaggedEntries(ru: ReadoutUnit, addr: nat)
    requires ru.Valid()
    ensures var waiting := Waiting(ru.id, |ru.conns|, ru.View(), ru.iovToSend, addr);
            var pending := OnConnection(KeysOf(ru.Pending()), addr);
            && ((addr, false) in ru.accumulator.multievents <==> waiting || pending)
            && !(waiting && pending)
    ensures Disjoint(KeysOf(ru.Pending()))
  {
    var m, s, keys := ru.Store(), ru.View(), KeysOf(ru.Pending());
    UnflaggedIsHeld(m, ru.accumulator.multievents, s.acquired, s.done, addr);
    HeldIsWaitingOrInFlight(ru.Here(), s, ru.iovToSend, keys, addr);
    AllDisjoint(ru.Here(), s, keys);
  }
}
