/** The loop of a builder unit, turn by turn, as steps of the protocol. */
module BuilderTurns {
  import opened BuilderUnits
  import opened DataFormat
  import opened Prefix
  import opened Protocol
  import opened Sockets
  import opened Turns

  /** How a builder unit lays out its receive buffer. */
  datatype Layout = Layout(chunkSize: nat, credits: nat) {
    function Base(i: nat, chunk: nat): nat {
      ChunkBase(chunkSize, credits, i, chunk)
    }
  }

  /** The fragments in a queue of the program are those in the chunks of the protocol's queue. */
  ghost predicate SameQueue(l: Layout, i: nat, chunks: seq<nat>, queue: seq<Iovec>) {
    |queue| == |chunks| && forall j :: 0 <= j < |queue| ==> queue[j] == Iovec(l.Base(i, chunks[j]), l.chunkSize)
  }

  /** What the network has written is what was delivered. */
  ghost predicate SameMemory(l: Layout, i: nat, c: Conn, memory: seq<EventHeader>) {
    forall chunk :: chunk in InUse(c) && chunk in c.memory ==>
      l.Base(i, chunk) < |memory| && memory[l.Base(i, chunk)] == c.memory[chunk]
  }

  ghost predicate Mirrors(l: Layout, i: nat, c: Conn, queue: seq<Iovec>, memory: seq<EventHeader>) {
    SameQueue(l, i, c.queue, queue) && SameMemory(l, i, c, memory)
  }

  /** The network reports arrivals in the order in which they happened. */
  ghost predicate Reports(l: Layout, i: nat, c: Conn, keys: seq<nat>) {
    |keys| <= |c.arrived| && forall j :: 0 <= j < |keys| ==> keys[j] == l.Base(i, c.arrived[j])
  }

  lemma BasesAreDistinct(l: Layout, i: nat, x: nat, y: nat)
    requires 0 < l.chunkSize && x < l.credits && y < l.credits && x != y
    ensures l.Base(i, x) != l.Base(i, y)
  {
    if x < y {
      ChunksApart(l.chunkSize, l.credits, i, x, i, y);
    } else {
      ChunksApart(l.chunkSize, l.credits, i, y, i, x);
    }
  }

  /** A chunk that has arrived is one the program has posted and not received yet. */
  lemma ArrivedIsPending(l: Layout, i: nat, c: Conn, queue: seq<Iovec>, pending: map<nat, nat>, j: nat)
    requires 0 < l.chunkSize && ChunksConserved(l.credits, c) && SameQueue(l, i, c.queue, queue) && j < |c.arrived|
    requires RecvOk(Chunks(l.chunkSize, l.credits, i, l.credits), l.chunkSize, pending, queue)
    ensures c.arrived[j] < l.credits && l.Base(i, c.arrived[j]) in pending
  {
    var chunk, bases := c.arrived[j], Bases(queue);
    assert InUse(c)[|c.queue| + j] == chunk;
    assert chunk in InUse(c);
    ChunkMembers(l.chunkSize, l.credits, i, l.credits, l.Base(i, chunk));
    forall x | 0 <= x < |bases|
      ensures bases[x] != l.Base(i, chunk)
    {
      assert InUse(c)[x] == c.queue[x] && InUse(c)[x] in InUse(c);
      BasesAreDistinct(l, i, c.queue[x], chunk);
    }
  }

  lemma ReportIsPending(l: Layout, i: nat, c: Conn, queue: seq<Iovec>, pending: map<nat, nat>, keys: seq<nat>)
    requires 0 < l.chunkSize && ChunksConserved(l.credits, c) && SameQueue(l, i, c.queue, queue)
    requires Reports(l, i, c, keys)
    requires RecvOk(Chunks(l.chunkSize, l.credits, i, l.credits), l.chunkSize, pending, queue)
    ensures AllPending(pending, keys)
  {
    forall j | 0 <= j < |keys|
      ensures keys[j] in pending
    {
      ArrivedIsPending(l, i, c, queue, pending, j);
    }
    forall x, y | 0 <= x < y < |keys|
      ensures keys[x] != keys[y]
    {
      ArrivedIsPending(l, i, c, queue, pending, x);
      ArrivedIsPending(l, i, c, queue, pending, y);
      assert InUse(c)[|c.queue| + x] != InUse(c)[|c.queue| + y];
      BasesAreDistinct(l, i, c.arrived[x], c.arrived[y]);
    }
  }

  /** What arrived joins the queue. */
  lemma ReportedFragments(l: Layout, i: nat, c: Conn, pending: map<nat, nat>, keys: seq<nat>)
    requires Reports(l, i, c, keys) && AllPending(pending, keys)
    requires forall key :: key in pending ==> pending[key] == l.chunkSize
    ensures SameQueue(l, i, c.arrived[..|keys|], Arrived(pending, keys))
  {
  }

  lemma JoinQueues(l: Layout, i: nat, a: seq<nat>, b: seq<nat>, p: seq<Iovec>, q: seq<Iovec>)
    requires SameQueue(l, i, a, p) && SameQueue(l, i, b, q)
    ensures SameQueue(l, i, a + b, p + q)
  {
  }

  lemma ReadMirrors(l: Layout, i: nat, c: Conn, queue: seq<Iovec>, pending: map<nat, nat>, keys: seq<nat>,
                    memory: seq<EventHeader>)
    requires 0 < l.chunkSize && ChunksConserved(l.credits, c) && Mirrors(l, i, c, queue, memory)
    requires Reports(l, i, c, keys)
    requires RecvOk(Chunks(l.chunkSize, l.credits, i, l.credits), l.chunkSize, pending, queue)
    ensures Mirrors(l, i, Poll(c, |keys|), queue + Arrived(pending, keys), memory)
  {
    ReportIsPending(l, i, c, queue, pending, keys);
    ReportedFragments(l, i, c, pending, keys);
    JoinQueues(l, i, c.queue, c.arrived[..|keys|], queue, Arrived(pending, keys));
    PollKeepsMemory(l, i, c, |keys|, memory);
  }

  lemma PollKeepsMemory(l: Layout, i: nat, c: Conn, m: nat, memory: seq<EventHeader>)
    requires SameMemory(l, i, c, memory) && m <= |c.arrived|
    ensures SameMemory(l, i, Poll(c, m), memory)
  {
    assert InUse(Poll(c, m)) == InUse(c);
  }

  lemma ReleaseMirrors(l: Layout, i: nat, c: Conn, queue: seq<Iovec>, rows: nat, memory: seq<EventHeader>)
    requires ChunksConserved(l.credits, c) && Mirrors(l, i, c, queue, memory) && rows <= |queue|
    ensures Mirrors(l, i, Release(c, rows), queue[rows..], memory)
  {
    ReleaseChunks(l.credits, c, rows);
    assert forall chunk :: chunk in InUse(c)[rows..] ==> chunk in InUse(c);
  }

  /** The connections of a builder unit once the first `x` have been polled. */
  function PolledConns(conns: seq<Conn>, counts: seq<nat>, x: nat): (p: seq<Conn>)
    requires |conns| == |counts| && forall i :: 0 <= i < |conns| ==> counts[i] <= |conns[i].arrived|
    ensures |p| == |conns|
    ensures forall i :: 0 <= i < |p| ==> p[i] == if i < x then Poll(conns[i], counts[i]) else conns[i]
  {
    seq(|conns|, i requires 0 <= i < |conns| => if i < x then Poll(conns[i], counts[i]) else conns[i])
  }

  function WithConns(s: State, k: nat, conns: seq<Conn>): State
    requires k < |s.bus|
  {
    s.(bus := s.bus[k := s.bus[k].(conns := conns)])
  }

  lemma PollNone(c: Conn)
    ensures Poll(c, 0) == c
  {
    assert c.queue + [] == c.queue;
  }

  lemma PolledNext(conns: seq<Conn>, counts: seq<nat>, x: nat)
    requires |conns| == |counts| && x < |conns|
    requires forall i :: 0 <= i < |conns| ==> counts[i] <= |conns[i].arrived|
    ensures var p, p' := PolledConns(conns, counts, x), PolledConns(conns, counts, x + 1);
            p' == if counts[x] == 0 then p else p[x := Poll(p[x], counts[x])]
  {
    PollNone(conns[x]);
    assert PolledConns(conns, counts, x + 1) == PolledConns(conns, counts, x)[x := Poll(conns[x], counts[x])];
    assert counts[x] == 0 ==> PolledConns(conns, counts, x)[x := conns[x]] == PolledConns(conns, counts, x);
  }

  lemma PollsNext(cfg: Config, s: State, k: nat, counts: seq<nat>, x: nat) returns (more: seq<Step>)
    requires Shaped(cfg, s) && k < cfg.n && x < cfg.n == |counts|
    requires forall i :: 0 <= i < cfg.n ==> counts[i] <= |s.bus[k].conns[i].arrived|
    ensures var t := WithConns(s, k, PolledConns(s.bus[k].conns, counts, x));
            var u := WithConns(s, k, PolledConns(s.bus[k].conns, counts, x + 1));
            Performs(cfg, t, more, u)
    ensures more == [] <==> counts[x] == 0
  {
    PolledNext(s.bus[k].conns, counts, x);
    if counts[x] == 0 {
      more := [];
    } else {
      more := [PollStep(k, x, counts[x])];
      OneStep(cfg, WithConns(s, k, PolledConns(s.bus[k].conns, counts, x)), more[0]);
    }
  }

  lemma {:induction false} Polls(cfg: Config, s: State, k: nat, counts: seq<nat>, x: nat) returns (steps: seq<Step>)
    requires Shaped(cfg, s) && k < cfg.n && x <= cfg.n == |counts|
    requires forall i :: 0 <= i < cfg.n ==> counts[i] <= |s.bus[k].conns[i].arrived|
    ensures Performs(cfg, s, steps, WithConns(s, k, PolledConns(s.bus[k].conns, counts, x)))
    ensures steps == [] <==> forall i :: 0 <= i < x ==> counts[i] == 0
  {
    var conns := s.bus[k].conns;
    if x == 0 {
      steps := [];
      assert PolledConns(conns, counts, 0) == conns;
      assert WithConns(s, k, conns) == s;
    } else {
      var t := WithConns(s, k, PolledConns(conns, counts, x - 1));
      var u := WithConns(s, k, PolledConns(conns, counts, x));
      var more := PollsNext(cfg, s, k, counts, x - 1);
      steps := Polls(cfg, s, k, counts, x - 1);
      ThenPerforms(cfg, s, steps, t, more, u);
      steps := steps + more;
    }
  }

  /** No more is reported than has arrived. */
  ghost predicate WithinArrived(b: Bu, completions: seq<seq<nat>>) {
    |b.conns| == |completions| && forall i :: 0 <= i < |completions| ==> |completions[i]| <= |b.conns[i].arrived|
  }

  /** A builder unit once everything that is reported has been polled. */
  ghost function PolledBu(b: Bu, completions: seq<seq<nat>>): (p: Bu)
    requires WithinArrived(b, completions)
    ensures p.rows == b.rows && |p.conns| == |b.conns|
    ensures forall i :: 0 <= i < |p.conns| ==> p.conns[i] == Poll(b.conns[i], |completions[i]|)
  {
    b.(conns := PolledConns(b.conns, Sizes(completions), |b.conns|))
  }

  /** A builder unit after its turn: all rows that are complete then have been built. */
  ghost function TurnedBu(b: Bu, completions: seq<seq<nat>>, credits: nat): Bu
    requires WithinArrived(b, completions)
  {
    var polled := PolledBu(b, completions);
    Build(polled, MinRows(polled.conns, credits))
  }

  ghost function WithBu(s: State, k: nat, b: Bu): State
    requires k < |s.bus|
  {
    s.(bus := s.bus[k := b])
  }

  lemma WithBuTwice(s: State, k: nat, b: Bu, b': Bu)
    requires k < |s.bus|
    ensures WithBu(WithBu(s, k, b), k, b') == WithBu(s, k, b')
  {
  }

  lemma BuildNothing(b: Bu)
    ensures Build(b, 0) == b
  {
    forall i | 0 <= i < |b.conns|
      ensures Release(b.conns[i], 0) == b.conns[i]
    {
      assert b.conns[i].queue[..0] == [] && b.conns[i].queue[0..] == b.conns[i].queue;
    }
    assert Build(b, 0).conns == b.conns;
  }

  lemma SameRows(conns: seq<Conn>, queues: seq<seq<Iovec>>, credits: nat)
    requires |queues| == |conns| && forall i :: 0 <= i < |conns| ==> |queues[i]| == |conns[i].queue|
    ensures MinRows(conns, credits) == Shortest(Sizes(queues), credits)
  {
  }

  ghost predicate AllMirror(l: Layout, conns: seq<Conn>, queues: seq<seq<Iovec>>, memory: seq<EventHeader>) {
    |queues| == |conns| && forall i :: 0 <= i < |conns| ==> Mirrors(l, i, conns[i], queues[i], memory)
  }

  /** The check of the program reads the headers that the protocol has delivered. */
  lemma SameCheck(l: Layout, conns: seq<Conn>, queues: seq<seq<Iovec>>, memory: seq<EventHeader>)
    requires 0 < |conns| && AllMirror(l, conns, queues, memory)
    requires forall i :: 0 <= i < |conns| ==> 0 < |conns[i].queue| && conns[i].queue[0] in conns[i].memory
    ensures CheckData(conns) <==> SameEvent(FrontsOf(queues, memory))
  {
    var fronts := FrontsOf(queues, memory);
    forall i | 0 <= i < |conns|
      ensures fronts[i] == QueuedHeader(conns[i], 0)
    {
      assert Mirrors(l, i, conns[i], queues[i], memory);
      assert InUse(conns[i])[0] == conns[i].queue[0];
    }
    assert fronts == seq(|conns|, i requires 0 <= i < |conns| && 0 < |conns[i].queue| => QueuedHeader(conns[i], 0));
  }

  lemma FrontIsWritten(cfg: Config, s: State, k: nat, i: nat)
    requires Inv(cfg, s) && k < cfg.n && i < cfg.n && s.bus[k].conns[i].queue != []
    ensures s.bus[k].conns[i].queue[0] in s.bus[k].conns[i].memory
  {
    assert LinkOk(cfg, s, k, i);
    assert Holds(cfg, k, cfg.peer[k][i], s.bus[k].rows, s.bus[k].conns[i], s.bus[k].rows);
  }

  /** The queues of the program before and after the rows are built. */
  ghost function Rest(queues: seq<seq<Iovec>>, rows: nat): seq<seq<Iovec>>
    requires RowsComplete(queues, rows)
  {
    if rows != 0 then Released(queues, rows) else queues
  }

  /** Building: the check of the front row succeeds, and what the program keeps is what the protocol
      keeps. */
  lemma BuildPerforms(cfg: Config, s: State, k: nat, l: Layout, queues: seq<seq<Iovec>>, memory: seq<EventHeader>)
    returns (steps: seq<Step>)
    requires Inv(cfg, s) && k < cfg.n && l.credits == cfg.credits && AllMirror(l, s.bus[k].conns, queues, memory)
    ensures var rows := MinRows(s.bus[k].conns, cfg.credits);
            && rows == Shortest(Sizes(queues), cfg.credits)
            && RowsComplete(queues, rows) && (rows == 0 || SameEvent(FrontsOf(queues, memory)))
            && Performs(cfg, s, steps, WithBu(s, k, Build(s.bus[k], rows))) && (steps == [] <==> rows == 0)
            && AllMirror(l, Build(s.bus[k], rows).conns, Rest(queues, rows), memory)
  {
    var conns := s.bus[k].conns;
    var rows := MinRows(conns, cfg.credits);
    SameRows(conns, queues, cfg.credits);
    ShortestFits(queues, cfg.credits);
    if rows == 0 {
      BuildNothing(s.bus[k]);
      assert WithBu(s, k, s.bus[k]) == s;
      steps := [];
    } else {
      CheckSucceeds(cfg, s, k, l, queues, memory);
      BuildMirrors(cfg, s, k, l, queues, memory, rows);
      steps := [BuildStep(k)];
      OneStep(cfg, s, steps[0]);
    }
  }

  lemma CheckSucceeds(cfg: Config, s: State, k: nat, l: Layout, queues: seq<seq<Iovec>>, memory: seq<EventHeader>)
    requires Inv(cfg, s) && k < cfg.n && 0 < MinRows(s.bus[k].conns, cfg.credits)
    requires AllMirror(l, s.bus[k].conns, queues, memory)
    ensures CheckData(s.bus[k].conns) && SameEvent(FrontsOf(queues, memory))
  {
    var conns := s.bus[k].conns;
    CheckNeverFails(cfg, s, k);
    forall i | 0 <= i < |conns|
      ensures 0 < |conns[i].queue| && conns[i].queue[0] in conns[i].memory
    {
      FrontIsWritten(cfg, s, k, i);
    }
    SameCheck(l, conns, queues, memory);
  }

  lemma BuildMirrors(cfg: Config, s: State, k: nat, l: Layout, queues: seq<seq<Iovec>>, memory: seq<EventHeader>,
                     rows: nat)
    requires Inv(cfg, s) && k < cfg.n && l.credits == cfg.credits && AllMirror(l, s.bus[k].conns, queues, memory)
    requires RowsComplete(queues, rows) && forall i :: 0 <= i < cfg.n ==> rows <= |s.bus[k].conns[i].queue|
    ensures AllMirror(l, Build(s.bus[k], rows).conns, Released(queues, rows), memory)
  {
    var conns := s.bus[k].conns;
    forall i | 0 <= i < |conns|
      ensures Mirrors(l, i, Release(conns[i], rows), queues[i][rows..], memory)
    {
      assert LinkOk(cfg, s, k, i);
      ReleaseMirrors(l, i, conns[i], queues[i], rows, memory);
    }
  }

  /** What a turn of the program starts from and is given. */
  ghost predicate Ready(cfg: Config, s: State, k: nat, l: Layout, queues: seq<seq<Iovec>>, posted: seq<map<nat, nat>>,
                        memory: seq<EventHeader>, completions: seq<seq<nat>>)
  {
    && Inv(cfg, s) && k < cfg.n && l.credits == cfg.credits && 0 < l.chunkSize
    && AllMirror(l, s.bus[k].conns, queues, memory) && |posted| == cfg.n == |completions|
    && forall i :: 0 <= i < cfg.n ==>
         && RecvOk(Chunks(l.chunkSize, l.credits, i, l.credits), l.chunkSize, posted[i], queues[i])
         && Reports(l, i, s.bus[k].conns[i], completions[i])
  }

  lemma ReadyIsPending(cfg: Config, s: State, k: nat, l: Layout, queues: seq<seq<Iovec>>, posted: seq<map<nat, nat>>,
                       memory: seq<EventHeader>, completions: seq<seq<nat>>, i: nat)
    requires Ready(cfg, s, k, l, queues, posted, memory, completions) && i < cfg.n
    ensures AllPending(posted[i], completions[i])
    ensures var c, queue := s.bus[k].conns[i], queues[i] + Arrived(posted[i], completions[i]);
              Mirrors(l, i, Poll(c, |completions[i]|), queue, memory)
  {
    assert LinkOk(cfg, s, k, i);
    assert Mirrors(l, i, s.bus[k].conns[i], queues[i], memory);
    ReportIsPending(l, i, s.bus[k].conns[i], queues[i], posted[i], completions[i]);
    ReadMirrors(l, i, s.bus[k].conns[i], queues[i], posted[i], completions[i], memory);
  }

  lemma PollsPerform(cfg: Config, s: State, k: nat, l: Layout, queues: seq<seq<Iovec>>, posted: seq<map<nat, nat>>,
                     memory: seq<EventHeader>, completions: seq<seq<nat>>)
    returns (steps: seq<Step>)
    requires Ready(cfg, s, k, l, queues, posted, memory, completions)
    ensures WithinArrived(s.bus[k], completions)
    ensures Performs(cfg, s, steps, WithBu(s, k, PolledBu(s.bus[k], completions)))
    ensures steps == [] <==> forall i :: 0 <= i < cfg.n ==> completions[i] == []
    ensures AllMirror(l, PolledBu(s.bus[k], completions).conns, ArrivedAll(queues, posted, completions), memory)
  {
    steps := Polls(cfg, s, k, Sizes(completions), cfg.n);
    assert forall i :: 0 <= i < cfg.n ==> (completions[i] == [] <==> Sizes(completions)[i] == 0);
    forall i | 0 <= i < cfg.n
      ensures var c, queue := s.bus[k].conns[i], queues[i] + Arrived(posted[i], completions[i]);
              Mirrors(l, i, Poll(c, |completions[i]|), queue, memory)
    {
      ReadyIsPending(cfg, s, k, l, queues, posted, memory, completions, i);
    }
  }

  lemma ReportsArePending(cfg: Config, s: State, k: nat, l: Layout, queues: seq<seq<Iovec>>, posted: seq<map<nat, nat>>,
                          memory: seq<EventHeader>, completions: seq<seq<nat>>)
    requires Ready(cfg, s, k, l, queues, posted, memory, completions)
    ensures Answers(posted, completions)
  {
    forall i | 0 <= i < cfg.n
      ensures AllPending(posted[i], completions[i])
    {
      ReadyIsPending(cfg, s, k, l, queues, posted, memory, completions, i);
    }
  }

  /** What a turn of the program leaves is what the protocol's turn leaves, and the check of the event
      ids succeeds. */
  ghost predicate TurnsAlike(cfg: Config, b: Bu, l: Layout, queues: seq<seq<Iovec>>, memory: seq<EventHeader>,
                             completions: seq<seq<nat>>)
    requires WithinArrived(b, completions)
  {
    var rows := MinRows(PolledBu(b, completions).conns, cfg.credits);
    && rows == Shortest(Sizes(queues), cfg.credits)
    && RowsComplete(queues, rows) && (rows == 0 || SameEvent(FrontsOf(queues, memory)))
    && AllMirror(l, TurnedBu(b, completions, cfg.credits).conns, Rest(queues, rows), memory)
  }

  /** A turn of the builder unit of a node is a sequence of steps of the system: everything that is
      reported is polled, and all rows that are complete then are built. */
  lemma TurnPerforms(cfg: Config, s: State, k: nat, l: Layout, queues: seq<seq<Iovec>>, posted: seq<map<nat, nat>>,
                     memory: seq<EventHeader>, completions: seq<seq<nat>>)
    returns (steps: seq<Step>)
    requires Ready(cfg, s, k, l, queues, posted, memory, completions)
    ensures WithinArrived(s.bus[k], completions)
    ensures TurnsAlike(cfg, s.bus[k], l, ArrivedAll(queues, posted, completions), memory, completions)
    ensures Performs(cfg, s, steps, WithBu(s, k, TurnedBu(s.bus[k], completions, cfg.credits)))
    ensures steps == [] <==> MinRows(PolledBu(s.bus[k], completions).conns, cfg.credits) == 0
                             && forall i :: 0 <= i < cfg.n ==> completions[i] == []
  {
    steps := PollsPerform(cfg, s, k, l, queues, posted, memory, completions);
    var b := PolledBu(s.bus[k], completions);
    var polled := WithBu(s, k, b);
    PerformingKeepsInv(cfg, s, steps, polled);
    var more := BuildPerforms(cfg, polled, k, l, ArrivedAll(queues, posted, completions), memory);
    var built := Build(b, MinRows(b.conns, cfg.credits));
    WithBuTwice(s, k, b, built);
    ThenPerforms(cfg, s, steps, polled, more, WithBu(s, k, built));
    steps := steps + more;
  }

  /** Everything that has arrived is reported. */
  ghost predicate ReportsAll(b: Bu, completions: seq<seq<nat>>) {
    |b.conns| == |completions| && forall i :: 0 <= i < |completions| ==> |completions[i]| == |b.conns[i].arrived|
  }

  /** If a step of the unit is possible, its turn takes one. */
  lemma BuilderMoves(cfg: Config, s: State, k: nat, completions: seq<seq<nat>>)
    requires Inv(cfg, s) && k < cfg.n && CanBuild(cfg, s, k) && ReportsAll(s.bus[k], completions)
    ensures 0 < MinRows(PolledBu(s.bus[k], completions).conns, cfg.credits)
            || exists i :: 0 <= i < cfg.n && completions[i] != []
  {
    if i: nat, m: nat :| Enabled(cfg, s, PollStep(k, i, m)) {
      assert completions[i] != [];
    } else {
      var polled := PolledBu(s.bus[k], completions);
      forall i | 0 <= i < cfg.n
        ensures 0 < |polled.conns[i].queue|
      {
        assert |s.bus[k].conns[i].queue| <= |polled.conns[i].queue|;
      }
    }
  }

  /** One turn of the loop of a builder unit, with what the network reports. */
  method BuilderTurn(bu: BuilderUnit, completions: seq<seq<nat>>, ghost cfg: Config, ghost s: State, ghost k: nat)
    returns (rows: nat, ghost steps: seq<Step>)
    requires bu.Valid() && bu.InMemory()
    requires Ready(cfg, s, k, Layout(bu.chunkSize, bu.credits), bu.dataVect, bu.Posted(), bu.memory[..], completions)
    modifies bu`dataVect, bu.conns
    ensures bu.Valid() && WithinArrived(s.bus[k], completions)
    ensures rows == MinRows(PolledBu(s.bus[k], completions).conns, cfg.credits)
    ensures var after := ArrivedAll(old(bu.dataVect), old(bu.Posted()), completions);
            RowsComplete(after, rows) && bu.dataVect == Rest(after, rows)
    ensures LeadsOn(cfg, s, k, completions, steps)
    ensures AllMirror(Layout(bu.chunkSize, bu.credits), TurnedBu(s.bus[k], completions, cfg.credits).conns,
                      bu.dataVect, bu.memory[..])
    ensures CanBuild(cfg, s, k) && ReportsAll(s.bus[k], completions) ==> steps != []
  {
    ghost var l, queues, posted, memory := Layout(bu.chunkSize, bu.credits), bu.dataVect, bu.Posted(), bu.memory[..];
    steps := TurnFacts(cfg, s, k, l, queues, posted, memory, completions);
    ghost var after := ArrivedAll(queues, posted, completions);
    var ok;
    ok, rows := bu.Iterate(completions);
    assert ok;
    assert bu.dataVect == Rest(after, rows) && bu.memory[..] == memory;
  }

  lemma TurnFacts(cfg: Config, s: State, k: nat, l: Layout, queues: seq<seq<Iovec>>, posted: seq<map<nat, nat>>,
                  memory: seq<EventHeader>, completions: seq<seq<nat>>)
    returns (steps: seq<Step>)
    requires Ready(cfg, s, k, l, queues, posted, memory, completions)
    ensures Answers(posted, completions) && WithinArrived(s.bus[k], completions)
    ensures TurnsAlike(cfg, s.bus[k], l, ArrivedAll(queues, posted, completions), memory, completions)
    ensures LeadsOn(cfg, s, k, completions, steps)
    ensures CanBuild(cfg, s, k) && ReportsAll(s.bus[k], completions) ==> steps != []
  {
    ReportsArePending(cfg, s, k, l, queues, posted, memory, completions);
    steps := TurnPerforms(cfg, s, k, l, queues, posted, memory, completions);
    PerformingKeepsInv(cfg, s, steps, WithBu(s, k, TurnedBu(s.bus[k], completions, cfg.credits)));
    if CanBuild(cfg, s, k) && ReportsAll(s.bus[k], completions) {
      BuilderMoves(cfg, s, k, completions);
    }
  }

  /** The steps of a turn lead to the state after it. */
  ghost predicate LeadsOn(cfg: Config, s: State, k: nat, completions: seq<seq<nat>>, steps: seq<Step>)
    requires k < |s.bus| && WithinArrived(s.bus[k], completions)
  {
    var s' := WithBu(s, k, TurnedBu(s.bus[k], completions, cfg.credits));
    Performs(cfg, s, steps, s') && Inv(cfg, s')
  }

  // ---- what the network and the other units do to a builder unit

  /** A delivery writes a header to the start of a chunk that is in no queue. */
  lemma DeliverMirrors(l: Layout, i: nat, c: Conn, chunk: nat, queue: seq<Iovec>, memory: seq<EventHeader>)
    requires 0 < l.chunkSize && ChunksConserved(l.credits, c) && Mirrors(l, i, c, queue, memory)
    requires c.wire != [] && chunk in c.posted && l.Base(i, chunk) < |memory|
    ensures Mirrors(l, i, Deliver(c, chunk), queue, memory[l.Base(i, chunk) := c.wire[0]])
  {
    forall other | other in InUse(c)
      ensures l.Base(i, other) != l.Base(i, chunk)
    {
      BasesAreDistinct(l, i, other, chunk);
    }
    assert InUse(Deliver(c, chunk)) == InUse(c) + [chunk];
  }

  /** It leaves the other connections alone. */
  lemma DeliverElsewhere(l: Layout, i: nat, c: Conn, queue: seq<Iovec>, memory: seq<EventHeader>, i': nat, chunk: nat,
                         h: EventHeader)
    requires 0 < l.chunkSize && ChunksConserved(l.credits, c) && Mirrors(l, i, c, queue, memory)
    requires i' != i && chunk < l.credits && l.Base(i', chunk) < |memory|
    ensures Mirrors(l, i, c, queue, memory[l.Base(i', chunk) := h])
  {
    forall other | other in InUse(c)
      ensures l.Base(i, other) != l.Base(i', chunk)
    {
      if i < i' {
        ChunksApart(l.chunkSize, l.credits, i, other, i', chunk);
      } else {
        ChunksApart(l.chunkSize, l.credits, i', chunk, i, other);
      }
    }
  }

  /** After a delivery, the queues and the memory of the builder unit are again those of the system. */
  lemma DeliverPreserves(cfg: Config, s: State, k: nat, i: nat, chunk: nat, l: Layout, queues: seq<seq<Iovec>>,
                         memory: seq<EventHeader>)
    requires Inv(cfg, s) && Enabled(cfg, s, DeliverStep(k, i, chunk))
    requires l.credits == cfg.credits && 0 < l.chunkSize && AllMirror(l, s.bus[k].conns, queues, memory)
    requires l.Base(i, chunk) < |memory|
    ensures AllMirror(l, Apply(cfg, s, DeliverStep(k, i, chunk)).bus[k].conns, queues,
                      memory[l.Base(i, chunk) := s.bus[k].conns[i].wire[0]])
  {
    var conns := s.bus[k].conns;
    assert LinkOk(cfg, s, k, i);
    forall x | 0 <= x < cfg.n
      ensures Mirrors(l, x, if x == i then Deliver(conns[i], chunk) else conns[x], queues[x],
                      memory[l.Base(i, chunk) := conns[i].wire[0]])
    {
      assert LinkOk(cfg, s, k, x);
      if x == i {
        DeliverMirrors(l, i, conns[i], chunk, queues[i], memory);
      } else {
        DeliverElsewhere(l, x, conns[x], queues[x], memory, i, chunk, conns[i].wire[0]);
      }
    }
  }

  /** At most what is on its way to the builder units has changed. */
  ghost predicate OnlyWires(s: State, s': State) {
    |s.bus| == |s'.bus| && forall k :: 0 <= k < |s.bus| ==> SameButWires(s.bus[k].conns, s'.bus[k].conns)
  }

  ghost predicate SameButWires(conns: seq<Conn>, conns': seq<Conn>) {
    |conns| == |conns'| && forall i :: 0 <= i < |conns| ==> conns'[i] == conns[i].(wire := conns'[i].wire)
  }

  lemma WiresAreUnseen(l: Layout, conns: seq<Conn>, conns': seq<Conn>, queues: seq<seq<Iovec>>,
                       memory: seq<EventHeader>)
    requires SameButWires(conns, conns') && AllMirror(l, conns, queues, memory)
    ensures AllMirror(l, conns', queues, memory)
  {
    forall i | 0 <= i < |conns|
      ensures Mirrors(l, i, conns'[i], queues[i], memory)
    {
      assert Mirrors(l, i, conns[i], queues[i], memory);
      assert InUse(conns'[i]) == InUse(conns[i]);
    }
  }

  lemma SendIsOnWire(cfg: Config, s: State, r: nat, s': State)
    requires Shaped(cfg, s) && r < cfg.n && SendsNext(cfg, s, r, s')
    ensures OnlyWires(s, s')
  {
  }

  /** A unit that has just connected. */
  lemma FreshMirrors(cfg: Config, k: nat, l: Layout, queues: seq<seq<Iovec>>, memory: seq<EventHeader>)
    requires ValidConfig(cfg) && k < cfg.n && |queues| == cfg.n && forall i :: 0 <= i < cfg.n ==> queues[i] == []
    ensures AllMirror(l, Init(cfg).bus[k].conns, queues, memory)
  {
  }
}
