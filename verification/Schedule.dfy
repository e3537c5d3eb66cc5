/** Who sends what to whom: the rotated destination order of a readout unit. */
module Schedule {
  import opened Prefix
  import opened Ring

  /** The destination at position `p` of the order of unit `id`: id+1, ..., n-1, 0, ..., id. */
  function Target(id: nat, n: nat, p: nat): (k: nat)
    requires id < n && p < n
    ensures k < n
  {
    if id + 1 + p < n then id + 1 + p else id + 1 + p - n
  }

  /** The position at which unit `id` reaches destination `k`. */
  function Rank(id: nat, n: nat, k: nat): (p: nat)
    requires id < n && k < n
    ensures p < n
    ensures Target(id, n, p) == k
    ensures forall q :: 0 <= q < n && Target(id, n, q) == k ==> q == p
  {
    if id < k then k - id - 1 else k + n - id - 1
  }

  /** The identity permutation is filled in, then rotated left. */
  method CreateSequence(id: nat, total: nat) returns (sequence: seq<nat>)
    requires id < total
    ensures |sequence| == total
    ensures forall p :: 0 <= p < total ==> sequence[p] == Target(id, total, p)
  {
    var firstId := if id != total - 1 then id + 1 else 0;
    sequence := seq(total, i => i);
    sequence := sequence[firstId..] + sequence[..firstId];
  }

  /** No two positions share a destination and no destination is left out; and at any one
      position no two units aim at the same destination, while every destination has a unit. */
  lemma RotationIsContentionFree(n: nat, p: nat, q: nat, id: nat, other: nat, k: nat)
    requires p < n && q < n && id < n && other < n && k < n
    ensures Target(id, n, p) == (id + 1 + p) % n
    ensures Target(id, n, p) == Target(id, n, q) ==> p == q
    ensures Target(id, n, Rank(id, n, k)) == k
    ensures Target(id, n, p) == Target(other, n, p) ==> id == other
    ensures Target((k + n - 1 - p) % n, n, p) == k
  {
    Wrap(id + 1 + p, n);
    Wrap(k + n - 1 - p, n);
  }

  lemma Wrap(x: nat, n: nat)
    requires 0 < n && x < 2 * n
    ensures x % n == if x < n then x else x - n
  {
    if n <= x {
      assert x == n + (x - n);
      assert (x - n) % n == x - n;
      assert x % n == (x - n) % n;
    }
  }

  /** Multievent number `j` of those that go to destination `k`. */
  function Mev(n: nat, k: nat, j: nat): nat {
    j * n + k
  }

  lemma MevInverse(n: nat, k: nat, j: nat)
    requires k < n
    ensures Mev(n, k, j) / n == j && Mev(n, k, j) % n == k
  {
    var t := Mev(n, k, j);
    var q, m := t / n, t % n;
    assert t == n * q + m;
    assert j * n + k == q * n + m;
    if j < q {
      MulMono(j, q, n);
    } else if q < j {
      MulMono(q, j, n);
    }
  }

  lemma MevSplit(n: nat, t: nat)
    requires 0 < n
    ensures t % n < n && Mev(n, t % n, t / n) == t
  {
  }

  /** A readout unit seen through counters that only grow: multievents `acquired` so far (they are
      numbered in that order), completed send cycles, the position in the current one, and the
      multievents whose send has completed. */
  datatype Ru = Ru(acquired: nat, cycle: nat, pos: nat, done: set<nat>)

  const FRESH_RU := Ru(0, 0, 0, {})

  /** Sends made to destination `k`. */
  function SentTo(id: nat, n: nat, s: Ru, k: nat): nat
    requires id < n && k < n
  {
    s.cycle + if Rank(id, n, k) < s.pos then 1 else 0
  }

  ghost predicate Sent(id: nat, n: nat, s: Ru, t: nat)
    requires id < n
  {
    t / n < SentTo(id, n, s, t % n)
  }

  /** The multievent the next send carries: entry `Target` of the current cycle. */
  function Next(id: nat, n: nat, s: Ru): nat
    requires id < n && s.pos < n
  {
    s.cycle * n + Target(id, n, s.pos)
  }

  /** Numbers, among the multievents sent to `k`, of those still in flight. */
  ghost function PendingOn(id: nat, n: nat, s: Ru, k: nat): set<nat>
    requires id < n && k < n
  {
    set j | 0 <= j < SentTo(id, n, s, k) && Mev(n, k, j) !in s.done
  }

  /** The guard of the acquisition loop, and room for one more multievent in memory. */
  ghost predicate CanAcquire(id: nat, n: nat, credits: nat, s: Ru)
    requires id < n && s.pos < n
  {
    s.acquired <= Next(id, n, s) && s.acquired < Mex(s.done) + 2 * credits
  }

  /** The next destination has a credit left and its multievent has been acquired. */
  ghost predicate CanSend(id: nat, n: nat, credits: nat, s: Ru)
    requires id < n && s.pos < n
  {
    Next(id, n, s) < s.acquired && |PendingOn(id, n, s, Target(id, n, s.pos))| < credits
  }

  function Acquire(s: Ru): Ru {
    s.(acquired := s.acquired + 1)
  }

  function AcquireMany(s: Ru, got: nat): Ru {
    s.(acquired := s.acquired + got)
  }

  /** The unit may take `got` multievents one after the other. */
  ghost predicate CanAcquireMany(id: nat, n: nat, credits: nat, s: Ru, got: nat)
    requires id < n && s.pos < n
  {
    forall i :: 0 <= i < got ==> CanAcquire(id, n, credits, AcquireMany(s, i))
  }

  /** Readings of the clock, taken one after the other. */
  ghost predicate Ordered(dues: seq<nat>) {
    forall i, j :: 0 <= i <= j < |dues| ==> dues[i] <= dues[j]
  }

  /** What the clock asks for when the unit tries to take the next multievent of its cycle. */
  function DueAt(n: nat, s: Ru, dues: seq<nat>): nat {
    var entry := s.acquired - s.cycle * n;
    if 0 <= entry < |dues| then dues[entry] else 0
  }

  /** The unit wants one more multievent, and memory and clock allow it. */
  ghost predicate MayAcquire(id: nat, n: nat, credits: nat, bulk: nat, s: Ru, dues: seq<nat>)
    requires id < n && s.pos < n
  {
    CanAcquire(id, n, credits, s) && bulk * (s.acquired + 1) <= DueAt(n, s, dues)
  }

  /** The unit takes `got` multievents, and then could not take another: there is one such number. */
  ghost predicate TakesAll(id: nat, n: nat, credits: nat, bulk: nat, s: Ru, dues: seq<nat>, got: nat)
    requires id < n && s.pos < n
  {
    && TakesSoFar(id, n, credits, bulk, s, dues, got)
    && !MayAcquire(id, n, credits, bulk, AcquireMany(s, got), dues)
  }

  ghost predicate TakesSoFar(id: nat, n: nat, credits: nat, bulk: nat, s: Ru, dues: seq<nat>, got: nat)
    requires id < n && s.pos < n
  {
    forall i :: 0 <= i < got ==> MayAcquire(id, n, credits, bulk, AcquireMany(s, i), dues)
  }

  function Complete(s: Ru, ts: set<nat>): Ru {
    s.(done := s.done + ts)
  }

  function Send(n: nat, s: Ru): Ru {
    if s.pos + 1 == n then s.(cycle := s.cycle + 1, pos := 0) else s.(pos := s.pos + 1)
  }

  ghost predicate RuInv(id: nat, n: nat, credits: nat, s: Ru) {
    && id < n && s.pos < n
    && s.cycle * n <= s.acquired <= s.cycle * n + n
    && (forall k :: 0 <= k < n && Rank(id, n, k) < s.pos ==> s.cycle * n + k < s.acquired)
    && (forall t :: t in s.done ==> Sent(id, n, s, t))
    && s.acquired <= Mex(s.done) + 2 * credits
    && (forall k :: 0 <= k < n ==> |PendingOn(id, n, s, k)| <= credits)
  }

  lemma TakesOneMore(id: nat, n: nat, credits: nat, bulk: nat, s: Ru, dues: seq<nat>, got: nat)
    requires id < n && s.pos < n && TakesSoFar(id, n, credits, bulk, s, dues, got)
    requires MayAcquire(id, n, credits, bulk, AcquireMany(s, got), dues)
    ensures TakesSoFar(id, n, credits, bulk, s, dues, got + 1)
    ensures AcquireMany(s, got + 1) == Acquire(AcquireMany(s, got))
  {
  }

  lemma TakenIsAllowed(id: nat, n: nat, credits: nat, bulk: nat, s: Ru, dues: seq<nat>, got: nat)
    requires id < n && s.pos < n && TakesSoFar(id, n, credits, bulk, s, dues, got)
    ensures CanAcquireMany(id, n, credits, s, got)
  {
    forall i | 0 <= i < got
      ensures CanAcquire(id, n, credits, AcquireMany(s, i))
    {
      assert MayAcquire(id, n, credits, bulk, AcquireMany(s, i), dues);
    }
  }

  /** Where memory allows one more multievent and the clock has asked for it, it is taken. */
  lemma DueIsReached(id: nat, n: nat, credits: nat, bulk: nat, s: Ru, dues: seq<nat>, got: nat)
    requires RuInv(id, n, credits, s) && CanAcquire(id, n, credits, s) && TakesAll(id, n, credits, bulk, s, dues, got)
    requires |dues| == n && forall x :: 0 <= x < n ==> bulk * (s.acquired + 1) <= dues[x]
    ensures 0 < got
  {
    assert AcquireMany(s, 0) == s;
    assert 0 <= s.acquired - s.cycle * n < n;
  }

  /** A connection takes `credits` sends before any of them has to complete. */
  lemma CreditsCanBeUsed(id: nat, n: nat, credits: nat, s: Ru)
    requires id < n && s.pos < n && Next(id, n, s) < s.acquired
    requires SentTo(id, n, s, Target(id, n, s.pos)) < credits
    ensures CanSend(id, n, credits, s)
  {
    var k := Target(id, n, s.pos);
    SubsetCard(PendingOn(id, n, s, k), Below(SentTo(id, n, s, k)));
  }

  /** More multievents and more completions do not take away the right to send. */
  lemma CanStillSend(id: nat, n: nat, credits: nat, s: Ru, s': Ru)
    requires id < n && s.pos < n && CanSend(id, n, credits, s)
    requires s'.cycle == s.cycle && s'.pos == s.pos && s.acquired <= s'.acquired && s.done <= s'.done
    ensures CanSend(id, n, credits, s')
  {
    var k := Target(id, n, s.pos);
    SubsetCard(PendingOn(id, n, s', k), PendingOn(id, n, s, k));
  }

  lemma FreshRuInv(id: nat, n: nat, credits: nat)
    requires id < n
    ensures RuInv(id, n, credits, FRESH_RU)
  {
  }

  /** The rotated order notwithstanding, the q-th send to a destination carries the q-th
      multievent that belongs to it, and a send counts for its destination only. */
  lemma SendIsNth(id: nat, n: nat, s: Ru)
    requires id < n && s.pos < n
    ensures var k := Target(id, n, s.pos);
            && Next(id, n, s) == Mev(n, k, SentTo(id, n, s, k))
            && Next(id, n, s) % n == k
            && !Sent(id, n, s, Next(id, n, s))
            && Sent(id, n, Send(n, s), Next(id, n, s))
            && forall m :: 0 <= m < n ==>
                 SentTo(id, n, Send(n, s), m) == SentTo(id, n, s, m) + if m == k then 1 else 0
  {
    var k := Target(id, n, s.pos);
    assert Rank(id, n, k) == s.pos;
    MevInverse(n, k, s.cycle);
  }

  lemma SentIsAcquired(id: nat, n: nat, credits: nat, s: Ru, t: nat)
    requires RuInv(id, n, credits, s) && Sent(id, n, s, t)
    ensures t < s.acquired
  {
    MevSplit(n, t);
    var k, j := t % n, t / n;
    if j < s.cycle {
      MulMono(j, s.cycle, n);
    } else {
      assert Rank(id, n, k) < s.pos && j == s.cycle;
    }
  }

  lemma AcquireKeeps(id: nat, n: nat, credits: nat, s: Ru)
    requires RuInv(id, n, credits, s) && CanAcquire(id, n, credits, s)
    ensures RuInv(id, n, credits, Acquire(s))
  {
    var s' := Acquire(s);
    forall t | t in s'.done
      ensures Sent(id, n, s', t)
    {
      assert Sent(id, n, s, t);
    }
    forall k | 0 <= k < n
      ensures |PendingOn(id, n, s', k)| <= credits
    {
      assert PendingOn(id, n, s', k) == PendingOn(id, n, s, k);
    }
  }

  lemma CompleteKeeps(id: nat, n: nat, credits: nat, s: Ru, ts: set<nat>)
    requires RuInv(id, n, credits, s) && forall t :: t in ts ==> Sent(id, n, s, t)
    ensures RuInv(id, n, credits, Complete(s, ts))
  {
    var s' := Complete(s, ts);
    MexGrows(s.done, s'.done);
    forall t | t in s'.done
      ensures Sent(id, n, s', t)
    {
      assert Sent(id, n, s, t);
    }
    forall k | 0 <= k < n
      ensures |PendingOn(id, n, s', k)| <= credits
    {
      SubsetCard(PendingOn(id, n, s', k), PendingOn(id, n, s, k));
    }
  }

  /** When the last position of a cycle is sent, the cycle's `n` entries have all been acquired. */
  lemma CycleIsFull(id: nat, n: nat, credits: nat, s: Ru)
    requires RuInv(id, n, credits, s) && Next(id, n, s) < s.acquired && s.pos + 1 == n
    ensures s.acquired == s.cycle * n + n
  {
    if id != n - 1 {
      assert Rank(id, n, n - 1) < s.pos;
    }
  }

  lemma PendingAfterSend(id: nat, n: nat, credits: nat, s: Ru, k: nat)
    requires RuInv(id, n, credits, s) && CanSend(id, n, credits, s) && k < n
    ensures PendingOn(id, n, Send(n, s), k)
         == PendingOn(id, n, s, k) + if k == Target(id, n, s.pos) then {SentTo(id, n, s, k)} else {}
  {
    SendIsNth(id, n, s);
    assert Next(id, n, s) !in s.done;
  }

  lemma SendKeepsBuffer(id: nat, n: nat, credits: nat, s: Ru)
    requires RuInv(id, n, credits, s) && CanSend(id, n, credits, s)
    ensures var s' := Send(n, s);
            && s'.cycle * n <= s'.acquired <= s'.cycle * n + n
            && forall k :: 0 <= k < n && Rank(id, n, k) < s'.pos ==> s'.cycle * n + k < s'.acquired
  {
    var s' := Send(n, s);
    if s.pos + 1 == n {
      CycleIsFull(id, n, credits, s);
      MulMono(s.cycle, s.cycle + 1, n);
    } else {
      forall k | 0 <= k < n && Rank(id, n, k) < s'.pos
        ensures s'.cycle * n + k < s'.acquired
      {
        assert Rank(id, n, k) == s.pos ==> k == Target(id, n, s.pos);
      }
    }
  }

  lemma SendKeeps(id: nat, n: nat, credits: nat, s: Ru)
    requires RuInv(id, n, credits, s) && CanSend(id, n, credits, s)
    ensures RuInv(id, n, credits, Send(n, s))
  {
    var s' := Send(n, s);
    SendIsNth(id, n, s);
    SendKeepsBuffer(id, n, credits, s);
    forall t | t in s'.done
      ensures Sent(id, n, s', t)
    {
      assert Sent(id, n, s, t);
      assert t % n < n;
    }
    forall k | 0 <= k < n
      ensures |PendingOn(id, n, s', k)| <= credits
    {
      PendingAfterSend(id, n, credits, s, k);
    }
  }

  /** A unit that cannot acquire the multievent it waits for because its memory is full has
      already sent the oldest one it holds, if a cycle fits in memory. */
  lemma OldestIsSent(id: nat, n: nat, credits: nat, s: Ru)
    requires id < n <= 2 * credits && s.pos < n
    requires s.acquired <= Next(id, n, s) && Mex(s.done) + 2 * credits <= s.acquired
    ensures Sent(id, n, s, Mex(s.done))
  {
    var oldest := Mex(s.done);
    MevSplit(n, oldest);
    if s.cycle <= oldest / n {
      MulMono(s.cycle, oldest / n, n);
    }
  }

  lemma UnfinishedIsPending(id: nat, n: nat, s: Ru, t: nat)
    requires id < n && Sent(id, n, s, t) && t !in s.done
    ensures t % n < n && t / n in PendingOn(id, n, s, t % n)
  {
    MevSplit(n, t);
  }

  lemma FullMemoryIsInFlight(id: nat, n: nat, credits: nat, s: Ru) returns (k: nat)
    requires id < n <= 2 * credits && s.pos < n
    requires s.acquired <= Next(id, n, s) && Mex(s.done) + 2 * credits <= s.acquired
    ensures k < n && PendingOn(id, n, s, k) != {}
  {
    OldestIsSent(id, n, credits, s);
    UnfinishedIsPending(id, n, s, Mex(s.done));
    k := Mex(s.done) % n;
  }

  /** In its first cycle a unit needs all `n` multievents in memory to serve destination n-1
      before the first of them, entry 0, can be sent. */
  lemma LastIsOutOfReach(id: nat, n: nat, credits: nat, s: Ru)
    requires RuInv(id, n, credits, s) && 2 * credits < n && id < n - 1
    requires s.cycle == 0 && s.pos <= Rank(id, n, n - 1)
    ensures CanSend(id, n, credits, s) ==> s.pos < Rank(id, n, n - 1)
  {
  }
}
