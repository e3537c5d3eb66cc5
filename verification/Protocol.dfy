/** The whole system: `n` nodes, each a readout unit connected to every builder unit.

    The network delivers what is sent on a connection in order and without loss, into a receive
    buffer that was posted for it; a send completes after its delivery, completions being
    reported in any order and in any batches. */
module Protocol {
  import opened Bundles
  import opened DataFormat
  import opened Prefix
  import opened Schedule

  /** `memories[r]` is the event table of node `r`, with room for 2 * credits + 1 bundles; `peer[k][i]`
      is the readout unit behind connection `i` of builder unit `k`, in the order of acceptance. */
  datatype Config = Config(
    n: nat, bulk: nat, credits: nat, maxFragment: nat,
    memories: seq<Memory>, peer: seq<seq<nat>>)

  ghost predicate IsPermutation(p: seq<nat>, n: nat) {
    && |p| == n
    && (forall i :: 0 <= i < n ==> p[i] < n)
    && (forall i, j :: 0 <= i < j < n ==> p[i] != p[j])
    && (forall r :: 0 <= r < n ==> r in p)
  }

  ghost predicate ValidConfig(cfg: Config) {
    && 0 < cfg.n && 0 < cfg.bulk && 0 < cfg.credits
    && |cfg.memories| == cfg.n == |cfg.peer|
    && (forall r :: 0 <= r < cfg.n ==> var m := cfg.memories[r];
          m.Ok() && m.bulk == cfg.bulk && m.slots == 2 * cfg.credits + 1 && m.maxFragment == cfg.maxFragment)
    && (forall k :: 0 <= k < cfg.n ==> IsPermutation(cfg.peer[k], cfg.n))
  }

  /** What multievent `t` of node `r` looks like on the wire: the header of its first event. */
  function Message(cfg: Config, r: nat, t: nat): EventHeader
    requires ValidConfig(cfg) && r < cfg.n
  {
    var m := cfg.memories[r];
    var first := m.table[m.First(t)];
    EventHeader(first.id, first.length, r)
  }

  /** The receiving end of a connection. Chunks are numbered 0..credits-1; each is either
      `posted` to the network, `arrived` (filled, waiting in the completion queue) or in the
      `queue` of the builder unit. `memory` holds what was last delivered into each chunk. */
  datatype Conn = Conn(
    wire: seq<EventHeader>, posted: set<nat>, arrived: seq<nat>, queue: seq<nat>, memory: map<nat, EventHeader>)

  datatype Bu = Bu(rows: nat, conns: seq<Conn>)

  datatype State = State(rus: seq<Ru>, bus: seq<Bu>)

  function FreshConn(credits: nat): Conn {
    Conn([], Below(credits), [], [], map[])
  }

  function Init(cfg: Config): State {
    State(
      seq(cfg.n, _ => FRESH_RU),
      seq(cfg.n, _ => Bu(0, seq(cfg.n, _ => FreshConn(cfg.credits)))))
  }

  /** How many rows the builder unit takes at once: at most `credits`, and at most the shortest queue. */
  function MinRows(conns: seq<Conn>, credits: nat): (m: nat)
    ensures m <= credits
    ensures forall i :: 0 <= i < |conns| ==> m <= |conns[i].queue|
    ensures m == credits || exists i :: 0 <= i < |conns| && |conns[i].queue| == m
  {
    var sizes := seq(|conns|, i requires 0 <= i < |conns| => |conns[i].queue|);
    assert forall i :: 0 <= i < |conns| ==> sizes[i] == |conns[i].queue|;
    Shortest(sizes, credits)
  }

  /** The header in the chunk at place `j` of the queue. */
  function QueuedHeader(c: Conn, j: nat): EventHeader
    requires j < |c.queue|
  {
    if c.queue[j] in c.memory then c.memory[c.queue[j]] else EventHeader(0, 0, 0)
  }

  /** All front fragments carry the id found on connection 0, and none is empty. */
  ghost predicate CheckData(conns: seq<Conn>)
    requires 0 < |conns| && forall i :: 0 <= i < |conns| ==> 0 < |conns[i].queue|
  {
    SameEvent(seq(|conns|, i requires 0 <= i < |conns| && 0 < |conns[i].queue| => QueuedHeader(conns[i], 0)))
  }

  function Release(c: Conn, m: nat): Conn
    requires m <= |c.queue|
  {
    c.(queue := c.queue[m..], posted := c.posted + Elements(c.queue[..m]))
  }

  /** Fragments delivered on a connection since the start. */
  function Delivered(rows: nat, c: Conn): nat {
    rows + |c.queue| + |c.arrived|
  }

  datatype Step =
    | AcquireStep(r: nat)
    | CompleteStep(r: nat, ts: set<nat>)
    | SendStep(r: nat, i: nat)
    | DeliverStep(k: nat, i: nat, chunk: nat)
    | PollStep(k: nat, i: nat, m: nat)
    | BuildStep(k: nat)

  ghost predicate Shaped(cfg: Config, s: State) {
    && ValidConfig(cfg)
    && |s.rus| == cfg.n == |s.bus|
    && (forall r :: 0 <= r < cfg.n ==> s.rus[r].pos < cfg.n)
    && (forall k :: 0 <= k < cfg.n ==> |s.bus[k].conns| == cfg.n)
  }

  /** Multievent `t` of node `r` has reached the builder unit it belongs to. */
  ghost predicate HasArrived(cfg: Config, s: State, r: nat, t: nat)
    requires Shaped(cfg, s) && r < cfg.n
  {
    var k := t % cfg.n;
    exists i :: 0 <= i < cfg.n && cfg.peer[k][i] == r && t / cfg.n < Delivered(s.bus[k].rows, s.bus[k].conns[i])
  }

  ghost predicate Enabled(cfg: Config, s: State, step: Step)
    requires Shaped(cfg, s)
  {
    match step
    case AcquireStep(r) =>
      r < cfg.n && CanAcquire(r, cfg.n, cfg.credits, s.rus[r])
    case CompleteStep(r, ts) =>
      r < cfg.n && ts != {} && forall t :: t in ts ==>
        Sent(r, cfg.n, s.rus[r], t) && t !in s.rus[r].done && HasArrived(cfg, s, r, t)
    case SendStep(r, i) =>
      && r < cfg.n && i < cfg.n
      && CanSend(r, cfg.n, cfg.credits, s.rus[r])
      && cfg.peer[Target(r, cfg.n, s.rus[r].pos)][i] == r
    case DeliverStep(k, i, chunk) =>
      k < cfg.n && i < cfg.n && s.bus[k].conns[i].wire != [] && chunk in s.bus[k].conns[i].posted
    case PollStep(k, i, m) =>
      k < cfg.n && i < cfg.n && 0 < m <= |s.bus[k].conns[i].arrived|
    case BuildStep(k) =>
      k < cfg.n && 0 < MinRows(s.bus[k].conns, cfg.credits) && CheckData(s.bus[k].conns)
  }

  function WithConn(s: State, k: nat, i: nat, c: Conn): State
    requires k < |s.bus| && i < |s.bus[k].conns|
  {
    s.(bus := s.bus[k := s.bus[k].(conns := s.bus[k].conns[i := c])])
  }

  function Deliver(c: Conn, chunk: nat): Conn
    requires c.wire != []
  {
    c.(wire := c.wire[1..],
       posted := c.posted - {chunk},
       arrived := c.arrived + [chunk],
       memory := c.memory[chunk := c.wire[0]])
  }

  function Poll(c: Conn, m: nat): Conn
    requires m <= |c.arrived|
  {
    c.(arrived := c.arrived[m..], queue := c.queue + c.arrived[..m])
  }

  function Build(b: Bu, m: nat): Bu
    requires forall i :: 0 <= i < |b.conns| ==> m <= |b.conns[i].queue|
  {
    Bu(b.rows + m, seq(|b.conns|, i requires 0 <= i < |b.conns| => Release(b.conns[i], m)))
  }

  ghost function Apply(cfg: Config, s: State, step: Step): State
    requires Shaped(cfg, s) && Enabled(cfg, s, step)
  {
    match step
    case AcquireStep(r) =>
      s.(rus := s.rus[r := Acquire(s.rus[r])])
    case CompleteStep(r, ts) =>
      s.(rus := s.rus[r := Complete(s.rus[r], ts)])
    case SendStep(r, i) =>
      var k := Target(r, cfg.n, s.rus[r].pos);
      var c := s.bus[k].conns[i];
      var sent := c.(wire := c.wire + [Message(cfg, r, Next(r, cfg.n, s.rus[r]))]);
      WithConn(s, k, i, sent).(rus := s.rus[r := Send(cfg.n, s.rus[r])])
    case DeliverStep(k, i, chunk) =>
      WithConn(s, k, i, Deliver(s.bus[k].conns[i], chunk))
    case PollStep(k, i, m) =>
      WithConn(s, k, i, Poll(s.bus[k].conns[i], m))
    case BuildStep(k) =>
      s.(bus := s.bus[k := Build(s.bus[k], MinRows(s.bus[k].conns, cfg.credits))])
  }

  /** A delivery delivers one fragment on its connection; no other step delivers or forgets any. */
  lemma StepDelivers(cfg: Config, s: State, step: Step, k: nat, i: nat)
    requires Shaped(cfg, s) && Enabled(cfg, s, step) && k < cfg.n && i < cfg.n
    ensures var before, after := s.bus[k], Apply(cfg, s, step).bus[k];
            && |after.conns| == cfg.n
            && Delivered(after.rows, after.conns[i])
               == Delivered(before.rows, before.conns[i])
                  + if step.DeliverStep? && step.k == k && step.i == i then 1 else 0
  {
  }

  /** The chunks in use, oldest fragment first. */
  function InUse(c: Conn): seq<nat> {
    c.queue + c.arrived
  }

  /** Every chunk of the connection is in exactly one place. */
  ghost predicate ChunksConserved(credits: nat, c: Conn) {
    && Distinct(InUse(c))
    && (forall j :: 0 <= j < |InUse(c)| ==> InUse(c)[j] !in c.posted)
    && (forall x :: x in c.posted || x in InUse(c) <==> 0 <= x < credits)
  }

  /** The `x`-th message node `r` sends to builder unit `k`. */
  function Nth(cfg: Config, k: nat, r: nat, x: nat): EventHeader
    requires ValidConfig(cfg) && r < cfg.n
  {
    Message(cfg, r, Mev(cfg.n, k, x))
  }

  /** The `x`-th message of the connection is in its memory. */
  ghost predicate Holds(cfg: Config, k: nat, r: nat, rows: nat, c: Conn, x: nat)
    requires ValidConfig(cfg) && r < cfg.n && rows <= x < Delivered(rows, c)
  {
    var chunk := InUse(c)[x - rows];
    chunk in c.memory && c.memory[chunk] == Nth(cfg, k, r, x)
  }

  /** Connection `i` of builder unit `k`, seen with the unit `r` behind it. */
  ghost predicate LinkInv(cfg: Config, k: nat, r: nat, ru: Ru, rows: nat, c: Conn)
    requires ValidConfig(cfg) && k < cfg.n && r < cfg.n
  {
    var arrived := Delivered(rows, c);
    && ChunksConserved(cfg.credits, c)
    && SentTo(r, cfg.n, ru, k) == arrived + |c.wire|
    && (forall x :: rows <= x < arrived ==> Holds(cfg, k, r, rows, c, x))
    && (forall x :: arrived <= x < arrived + |c.wire| ==> c.wire[x - arrived] == Nth(cfg, k, r, x))
    && (forall x :: 0 <= x && Mev(cfg.n, k, x) in ru.done ==> x < arrived)
  }

  ghost predicate Inv(cfg: Config, s: State) {
    && Shaped(cfg, s)
    && (forall r :: 0 <= r < cfg.n ==> RuInv(r, cfg.n, cfg.credits, s.rus[r]))
    && (forall k, i :: 0 <= k < cfg.n && 0 <= i < cfg.n ==> LinkOk(cfg, s, k, i))
  }

  ghost predicate LinkOk(cfg: Config, s: State, k: nat, i: nat)
    requires Shaped(cfg, s) && k < cfg.n && i < cfg.n
  {
    var r := cfg.peer[k][i];
    LinkInv(cfg, k, r, s.rus[r], s.bus[k].rows, s.bus[k].conns[i])
  }

  lemma InitInv(cfg: Config)
    requires ValidConfig(cfg)
    ensures Inv(cfg, Init(cfg))
  {
    forall r | 0 <= r < cfg.n
      ensures RuInv(r, cfg.n, cfg.credits, Init(cfg).rus[r])
    {
      FreshRuInv(r, cfg.n, cfg.credits);
    }
  }

  lemma DeliverChunks(credits: nat, c: Conn, chunk: nat)
    requires ChunksConserved(credits, c) && c.wire != [] && chunk in c.posted
    ensures ChunksConserved(credits, Deliver(c, chunk))
  {
    var d := Deliver(c, chunk);
    assert InUse(d) == InUse(c) + [chunk];
  }

  lemma DeliverLink(cfg: Config, k: nat, r: nat, ru: Ru, rows: nat, c: Conn, chunk: nat)
    requires ValidConfig(cfg) && k < cfg.n && r < cfg.n
    requires LinkInv(cfg, k, r, ru, rows, c) && c.wire != [] && chunk in c.posted
    ensures LinkInv(cfg, k, r, ru, rows, Deliver(c, chunk))
  {
    var d := Deliver(c, chunk);
    DeliverChunks(cfg.credits, c, chunk);
    assert InUse(d) == InUse(c) + [chunk];
    var arrived := Delivered(rows, c);
    forall x | rows <= x < arrived + 1
      ensures Holds(cfg, k, r, rows, d, x)
    {
      if x < arrived {
        assert Holds(cfg, k, r, rows, c, x);
      } else {
        assert c.wire[x - arrived] == Nth(cfg, k, r, x);
      }
    }
  }

  lemma PollLink(cfg: Config, k: nat, r: nat, ru: Ru, rows: nat, c: Conn, m: nat)
    requires ValidConfig(cfg) && k < cfg.n && r < cfg.n
    requires LinkInv(cfg, k, r, ru, rows, c) && m <= |c.arrived|
    ensures LinkInv(cfg, k, r, ru, rows, Poll(c, m))
  {
    var d := Poll(c, m);
    assert InUse(d) == InUse(c);
    forall x | rows <= x < Delivered(rows, d)
      ensures Holds(cfg, k, r, rows, d, x)
    {
      assert Holds(cfg, k, r, rows, c, x);
    }
  }

  lemma ReleaseChunks(credits: nat, c: Conn, m: nat)
    requires ChunksConserved(credits, c) && m <= |c.queue|
    ensures ChunksConserved(credits, Release(c, m))
    ensures InUse(Release(c, m)) == InUse(c)[m..]
  {
    var d := Release(c, m);
    assert InUse(d) == InUse(c)[m..];
    assert c.queue[..m] == InUse(c)[..m];
    assert InUse(c) == InUse(c)[..m] + InUse(c)[m..];
  }

  lemma ReleaseLink(cfg: Config, k: nat, r: nat, ru: Ru, rows: nat, c: Conn, m: nat)
    requires ValidConfig(cfg) && k < cfg.n && r < cfg.n
    requires LinkInv(cfg, k, r, ru, rows, c) && m <= |c.queue|
    ensures LinkInv(cfg, k, r, ru, rows + m, Release(c, m))
  {
    var d := Release(c, m);
    ReleaseChunks(cfg.credits, c, m);
    var rows' := rows + m;
    forall x | rows' <= x < Delivered(rows', d)
      ensures Holds(cfg, k, r, rows', d, x)
    {
      assert Holds(cfg, k, r, rows, c, x);
    }
  }

  /** A connection does not notice steps of a unit that leave its own traffic alone. */
  lemma OtherLink(cfg: Config, k: nat, r: nat, ru: Ru, ru': Ru, rows: nat, c: Conn)
    requires ValidConfig(cfg) && k < cfg.n && r < cfg.n
    requires LinkInv(cfg, k, r, ru, rows, c)
    requires SentTo(r, cfg.n, ru', k) == SentTo(r, cfg.n, ru, k)
    requires forall x :: 0 <= x && Mev(cfg.n, k, x) in ru'.done ==>
               Mev(cfg.n, k, x) in ru.done || x < Delivered(rows, c)
    ensures LinkInv(cfg, k, r, ru', rows, c)
  {
  }

  lemma SendLink(cfg: Config, k: nat, r: nat, ru: Ru, rows: nat, c: Conn)
    requires ValidConfig(cfg) && k < cfg.n && r < cfg.n && ru.pos < cfg.n
    requires LinkInv(cfg, k, r, ru, rows, c)
    requires Target(r, cfg.n, ru.pos) == k
    ensures LinkInv(cfg, k, r, Send(cfg.n, ru), rows, c.(wire := c.wire + [Message(cfg, r, Next(r, cfg.n, ru))]))
  {
    SendIsNth(r, cfg.n, ru);
    var d := c.(wire := c.wire + [Message(cfg, r, Next(r, cfg.n, ru))]);
    assert InUse(d) == InUse(c);
    forall x | rows <= x < Delivered(rows, d)
      ensures Holds(cfg, k, r, rows, d, x)
    {
      assert Holds(cfg, k, r, rows, c, x);
    }
  }

  lemma StepKeepsInv(cfg: Config, s: State, step: Step)
    requires Inv(cfg, s) && Enabled(cfg, s, step)
    ensures Inv(cfg, Apply(cfg, s, step))
  {
    match step
    case AcquireStep(r) => AcquireStepKeeps(cfg, s, r);
    case CompleteStep(r, ts) => CompleteStepKeeps(cfg, s, r, ts);
    case SendStep(r, i) => SendStepKeeps(cfg, s, r, i);
    case DeliverStep(k, i, chunk) => ConnStepKeeps(cfg, s, step, k, i, Deliver(s.bus[k].conns[i], chunk));
    case PollStep(k, i, m) => ConnStepKeeps(cfg, s, step, k, i, Poll(s.bus[k].conns[i], m));
    case BuildStep(k) => BuildStepKeeps(cfg, s, k);
  }

  lemma AcquireStepKeeps(cfg: Config, s: State, r: nat)
    requires Inv(cfg, s) && Enabled(cfg, s, AcquireStep(r))
    ensures Inv(cfg, Apply(cfg, s, AcquireStep(r)))
  {
    var s' := Apply(cfg, s, AcquireStep(r));
    AcquireKeeps(r, cfg.n, cfg.credits, s.rus[r]);
    forall k, i | 0 <= k < cfg.n && 0 <= i < cfg.n
      ensures LinkOk(cfg, s', k, i)
    {
      assert LinkOk(cfg, s, k, i);
      var p := cfg.peer[k][i];
      OtherLink(cfg, k, p, s.rus[p], s'.rus[p], s.bus[k].rows, s.bus[k].conns[i]);
    }
  }

  /** What completes has arrived. */
  lemma CompleteLink(cfg: Config, s: State, r: nat, ts: set<nat>, k: nat, i: nat)
    requires Inv(cfg, s) && Enabled(cfg, s, CompleteStep(r, ts)) && k < cfg.n && i < cfg.n
    ensures LinkOk(cfg, Apply(cfg, s, CompleteStep(r, ts)), k, i)
  {
    assert LinkOk(cfg, s, k, i);
    var ru := s.rus[cfg.peer[k][i]];
    var ru' := Apply(cfg, s, CompleteStep(r, ts)).rus[cfg.peer[k][i]];
    var rows, c := s.bus[k].rows, s.bus[k].conns[i];
    forall x | 0 <= x && Mev(cfg.n, k, x) in ru'.done
      ensures Mev(cfg.n, k, x) in ru.done || x < Delivered(rows, c)
    {
      MevInverse(cfg.n, k, x);
      if Mev(cfg.n, k, x) !in ru.done {
        assert HasArrived(cfg, s, r, Mev(cfg.n, k, x));
      }
    }
    OtherLink(cfg, k, cfg.peer[k][i], ru, ru', rows, c);
  }

  lemma CompleteStepKeeps(cfg: Config, s: State, r: nat, ts: set<nat>)
    requires Inv(cfg, s) && Enabled(cfg, s, CompleteStep(r, ts))
    ensures Inv(cfg, Apply(cfg, s, CompleteStep(r, ts)))
  {
    CompleteKeeps(r, cfg.n, cfg.credits, s.rus[r], ts);
    forall k, i | 0 <= k < cfg.n && 0 <= i < cfg.n
      ensures LinkOk(cfg, Apply(cfg, s, CompleteStep(r, ts)), k, i)
    {
      CompleteLink(cfg, s, r, ts, k, i);
    }
  }

  lemma SendStepKeeps(cfg: Config, s: State, r: nat, i: nat)
    requires Inv(cfg, s) && Enabled(cfg, s, SendStep(r, i))
    ensures Inv(cfg, Apply(cfg, s, SendStep(r, i)))
  {
    SendKeeps(r, cfg.n, cfg.credits, s.rus[r]);
    forall l, j | 0 <= l < cfg.n && 0 <= j < cfg.n
      ensures LinkOk(cfg, Apply(cfg, s, SendStep(r, i)), l, j)
    {
      if l == Target(r, cfg.n, s.rus[r].pos) && j == i {
        SendOwnLink(cfg, s, r, i);
      } else {
        SendOtherLink(cfg, s, r, i, l, j);
      }
    }
  }

  lemma SendOwnLink(cfg: Config, s: State, r: nat, i: nat)
    requires Inv(cfg, s) && Enabled(cfg, s, SendStep(r, i))
    ensures LinkOk(cfg, Apply(cfg, s, SendStep(r, i)), Target(r, cfg.n, s.rus[r].pos), i)
  {
    var k := Target(r, cfg.n, s.rus[r].pos);
    assert LinkOk(cfg, s, k, i);
    SendLink(cfg, k, r, s.rus[r], s.bus[k].rows, s.bus[k].conns[i]);
  }

  lemma SendOtherLink(cfg: Config, s: State, r: nat, i: nat, l: nat, j: nat)
    requires Inv(cfg, s) && Enabled(cfg, s, SendStep(r, i)) && l < cfg.n && j < cfg.n
    requires l != Target(r, cfg.n, s.rus[r].pos) || j != i
    ensures LinkOk(cfg, Apply(cfg, s, SendStep(r, i)), l, j)
  {
    var s', p := Apply(cfg, s, SendStep(r, i)), cfg.peer[l][j];
    assert LinkOk(cfg, s, l, j);
    SendIsNth(r, cfg.n, s.rus[r]);
    assert s'.bus[l].rows == s.bus[l].rows && s'.bus[l].conns[j] == s.bus[l].conns[j];
    OtherLink(cfg, l, p, s.rus[p], s'.rus[p], s.bus[l].rows, s.bus[l].conns[j]);
  }

  lemma ConnStepKeeps(cfg: Config, s: State, step: Step, k: nat, i: nat, c: Conn)
    requires Inv(cfg, s) && Enabled(cfg, s, step) && k < cfg.n && i < cfg.n
    requires
      || (step.DeliverStep? && step.k == k && step.i == i && c == Deliver(s.bus[k].conns[i], step.chunk))
      || (step.PollStep? && step.k == k && step.i == i && c == Poll(s.bus[k].conns[i], step.m))
    ensures Inv(cfg, Apply(cfg, s, step))
  {
    var s' := WithConn(s, k, i, c);
    forall l, j | 0 <= l < cfg.n && 0 <= j < cfg.n
      ensures LinkOk(cfg, s', l, j)
    {
      assert LinkOk(cfg, s, l, j);
      if l == k && j == i {
        var p := cfg.peer[k][i];
        if step.DeliverStep? {
          DeliverLink(cfg, k, p, s.rus[p], s.bus[k].rows, s.bus[k].conns[i], step.chunk);
        } else {
          PollLink(cfg, k, p, s.rus[p], s.bus[k].rows, s.bus[k].conns[i], step.m);
        }
      }
    }
  }

  lemma BuildLink(cfg: Config, s: State, k: nat, l: nat, j: nat)
    requires Inv(cfg, s) && Enabled(cfg, s, BuildStep(k)) && l < cfg.n && j < cfg.n
    ensures LinkOk(cfg, Apply(cfg, s, BuildStep(k)), l, j)
  {
    assert LinkOk(cfg, s, l, j);
    if l == k {
      BuildOwnLink(cfg, s, k, j);
    } else {
      var s' := Apply(cfg, s, BuildStep(k));
      assert s'.rus == s.rus && s'.bus[l] == s.bus[l];
    }
  }

  lemma BuildOwnLink(cfg: Config, s: State, k: nat, j: nat)
    requires Inv(cfg, s) && Enabled(cfg, s, BuildStep(k)) && j < cfg.n
    ensures LinkOk(cfg, Apply(cfg, s, BuildStep(k)), k, j)
  {
    assert LinkOk(cfg, s, k, j);
    var p := cfg.peer[k][j];
    var b, m := s.bus[k], MinRows(s.bus[k].conns, cfg.credits);
    ReleaseLink(cfg, k, p, s.rus[p], b.rows, b.conns[j], m);
    assert Build(b, m).rows == b.rows + m && Build(b, m).conns[j] == Release(b.conns[j], m);
  }

  lemma BuildStepKeeps(cfg: Config, s: State, k: nat)
    requires Inv(cfg, s) && Enabled(cfg, s, BuildStep(k))
    ensures Inv(cfg, Apply(cfg, s, BuildStep(k)))
  {
    forall l, j | 0 <= l < cfg.n && 0 <= j < cfg.n
      ensures LinkOk(cfg, Apply(cfg, s, BuildStep(k)), l, j)
    {
      BuildLink(cfg, s, k, l, j);
    }
  }

  /** Runs of the system: every state but the first is one step away from the one before. */
  ghost predicate IsRun(cfg: Config, run: seq<State>) {
    && ValidConfig(cfg)
    && 0 < |run| && run[0] == Init(cfg)
    && forall x :: 0 <= x < |run| - 1 ==> IsStep(cfg, run, x)
  }

  ghost predicate IsStep(cfg: Config, run: seq<State>, x: nat)
    requires x + 1 < |run|
  {
    Shaped(cfg, run[x]) && exists step :: Enabled(cfg, run[x], step) && run[x + 1] == Apply(cfg, run[x], step)
  }

  lemma RunGoesOn(cfg: Config, run: seq<State>, step: Step)
    requires IsRun(cfg, run) && Shaped(cfg, run[|run| - 1]) && Enabled(cfg, run[|run| - 1], step)
    ensures IsRun(cfg, run + [Apply(cfg, run[|run| - 1], step)])
  {
    var longer := run + [Apply(cfg, run[|run| - 1], step)];
    forall x | 0 <= x < |longer| - 1
      ensures IsStep(cfg, longer, x)
    {
      assert x < |run| - 1 ==> IsStep(cfg, run, x);
    }
  }

  lemma {:induction false} RunKeepsInv(cfg: Config, run: seq<State>, x: nat)
    requires IsRun(cfg, run) && x < |run|
    ensures Inv(cfg, run[x])
  {
    if x == 0 {
      InitInv(cfg);
    } else {
      RunKeepsInv(cfg, run, x - 1);
      assert IsStep(cfg, run, x - 1);
      var step :| Enabled(cfg, run[x - 1], step) && run[x] == Apply(cfg, run[x - 1], step);
      StepKeepsInv(cfg, run[x - 1], step);
    }
  }

  /** The fragments of row `j` all start with the event the schedule assigns to it, whichever
      connection they came on, and none is empty. */
  ghost predicate RowsAgree(cfg: Config, s: State)
    requires Shaped(cfg, s)
  {
    forall k, i, j :: 0 <= k < cfg.n && 0 <= i < cfg.n && 0 <= j < |s.bus[k].conns[i].queue| ==>
      RowAgrees(cfg, s, k, i, j)
  }

  ghost predicate RowAgrees(cfg: Config, s: State, k: nat, i: nat, j: nat)
    requires Shaped(cfg, s) && k < cfg.n && i < cfg.n && j < |s.bus[k].conns[i].queue|
  {
    var h := QueuedHeader(s.bus[k].conns[i], j);
    && h.id == cfg.bulk * (((s.bus[k].rows + j) * cfg.n + k) % (2 * cfg.credits + 1))
    && h.flags == cfg.peer[k][i]
    && 0 < h.length <= cfg.bulk * cfg.maxFragment
  }

  /** Row by row, a builder unit only ever sees fragments of one event, not just in the front row
      that it checks; so the check it makes before building a row cannot fail. */
  lemma EventAgreement(cfg: Config, run: seq<State>, x: nat)
    requires IsRun(cfg, run) && x < |run|
    ensures Shaped(cfg, run[x]) && RowsAgree(cfg, run[x])
    ensures forall k :: 0 <= k < cfg.n && 0 < MinRows(run[x].bus[k].conns, cfg.credits) ==>
              CheckData(run[x].bus[k].conns)
  {
    RunKeepsInv(cfg, run, x);
    InvRowsAgree(cfg, run[x]);
    forall k | 0 <= k < cfg.n && 0 < MinRows(run[x].bus[k].conns, cfg.credits)
      ensures CheckData(run[x].bus[k].conns)
    {
      CheckNeverFails(cfg, run[x], k);
    }
  }

  /** Which event a message starts with depends on the schedule alone, not on the node it is from. */
  lemma MessageFacts(cfg: Config, r: nat, t: nat)
    requires ValidConfig(cfg) && r < cfg.n
    ensures Message(cfg, r, t).id == cfg.bulk * (t % (2 * cfg.credits + 1))
    ensures 0 < Message(cfg, r, t).length <= cfg.bulk * cfg.maxFragment
  {
    BundleFits(cfg.memories[r], t, t);
  }

  lemma QueuedIsMessage(cfg: Config, s: State, k: nat, i: nat, j: nat)
    requires Inv(cfg, s) && k < cfg.n && i < cfg.n && j < |s.bus[k].conns[i].queue|
    ensures QueuedHeader(s.bus[k].conns[i], j) == Message(cfg, cfg.peer[k][i], (s.bus[k].rows + j) * cfg.n + k)
  {
    var rows := s.bus[k].rows;
    assert LinkOk(cfg, s, k, i);
    assert Holds(cfg, k, cfg.peer[k][i], rows, s.bus[k].conns[i], rows + j);
  }

  lemma InvRowsAgree(cfg: Config, s: State)
    requires Inv(cfg, s)
    ensures RowsAgree(cfg, s)
  {
    forall k, i, j | 0 <= k < cfg.n && 0 <= i < cfg.n && 0 <= j < |s.bus[k].conns[i].queue|
      ensures RowAgrees(cfg, s, k, i, j)
    {
      QueuedIsMessage(cfg, s, k, i, j);
      MessageFacts(cfg, cfg.peer[k][i], (s.bus[k].rows + j) * cfg.n + k);
    }
  }

  lemma CheckNeverFails(cfg: Config, s: State, k: nat)
    requires Inv(cfg, s) && k < cfg.n && 0 < MinRows(s.bus[k].conns, cfg.credits)
    ensures CheckData(s.bus[k].conns)
  {
    InvRowsAgree(cfg, s);
    assert RowAgrees(cfg, s, k, 0, 0);
    forall i | 0 <= i < cfg.n
      ensures QueuedHeader(s.bus[k].conns[i], 0).id == QueuedHeader(s.bus[k].conns[0], 0).id
      ensures QueuedHeader(s.bus[k].conns[i], 0).length != 0
    {
      assert RowAgrees(cfg, s, k, i, 0);
    }
  }

  /** A connection holds at most `credits` fragments, and exactly that many when no chunk is posted. */
  lemma HeldBound(credits: nat, c: Conn)
    requires ChunksConserved(credits, c)
    ensures |InUse(c)| <= credits
    ensures |InUse(c)| == credits <==> c.posted == {}
  {
    var held := Elements(InUse(c));
    DistinctCard(InUse(c));
    assert held <= Below(credits);
    SubsetCard(held, Below(credits));
    if c.posted == {} {
      assert forall x :: x in Below(credits) ==> x in c.posted || x in InUse(c);
      assert held == Below(credits);
    } else {
      var chunk :| chunk in c.posted;
      assert chunk in Below(credits) && chunk !in held;
    }
  }

  /** Numbers of the fragments still on the wire of a connection. */
  function Interval(lo: nat, hi: nat): (r: set<nat>)
    requires lo <= hi
    ensures forall x :: x in r <==> lo <= x < hi
    ensures |r| == hi - lo
    decreases hi
  {
    if lo == hi then {} else Interval(lo, hi - 1) + {hi - 1}
  }

  /** At most `credits` fragments of a connection are on the wire. */
  lemma WireBound(cfg: Config, s: State, k: nat, i: nat)
    requires Inv(cfg, s) && k < cfg.n && i < cfg.n
    ensures |s.bus[k].conns[i].wire| <= cfg.credits
  {
    var c, r := s.bus[k].conns[i], cfg.peer[k][i];
    assert LinkOk(cfg, s, k, i);
    var arrived := Delivered(s.bus[k].rows, c);
    assert RuInv(r, cfg.n, cfg.credits, s.rus[r]);
    SubsetCard(Interval(arrived, arrived + |c.wire|), PendingOn(r, cfg.n, s.rus[r], k));
  }

  lemma ConnectionOf(cfg: Config, k: nat, r: nat) returns (i: nat)
    requires ValidConfig(cfg) && k < cfg.n && r < cfg.n
    ensures i < cfg.n && cfg.peer[k][i] == r
  {
    assert IsPermutation(cfg.peer[k], cfg.n);
    assert r in cfg.peer[k];
    i :| 0 <= i < |cfg.peer[k]| && cfg.peer[k][i] == r;
  }

  /** Two readout units are never more than `2 * credits` sends apart at any builder unit. */
  lemma BoundedSkew(cfg: Config, run: seq<State>, x: nat, k: nat, r: nat, r': nat)
    requires IsRun(cfg, run) && x < |run| && k < cfg.n && r < cfg.n && r' < cfg.n
    ensures |run[x].rus| == cfg.n
    ensures SentTo(r, cfg.n, run[x].rus[r], k) <= SentTo(r', cfg.n, run[x].rus[r'], k) + 2 * cfg.credits
  {
    RunKeepsInv(cfg, run, x);
    SendsAboveRows(cfg, run[x], k, r);
    SendsAboveRows(cfg, run[x], k, r');
  }

  lemma SendsAboveRows(cfg: Config, s: State, k: nat, r: nat)
    requires Inv(cfg, s) && k < cfg.n && r < cfg.n
    ensures s.bus[k].rows <= SentTo(r, cfg.n, s.rus[r], k) <= s.bus[k].rows + 2 * cfg.credits
  {
    var i := ConnectionOf(cfg, k, r);
    assert LinkOk(cfg, s, k, i);
    WireBound(cfg, s, k, i);
    HeldBound(cfg.credits, s.bus[k].conns[i]);
  }
}
