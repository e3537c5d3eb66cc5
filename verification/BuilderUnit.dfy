/** One builder unit: a queue of fragments per connection, rows taken off the front, buffers posted again. */
module BuilderUnits {
  import opened DataFormat
  import opened Prefix
  import opened Ring
  import opened Sockets

  function Bases(iovs: seq<Iovec>): (b: seq<nat>)
    ensures |b| == |iovs| && forall j :: 0 <= j < |b| ==> b[j] == iovs[j].base
  {
    seq(|iovs|, j requires 0 <= j < |iovs| => iovs[j].base)
  }

  /** Where chunk `j` of connection `i` starts. */
  function ChunkBase(chunkSize: nat, credits: nat, i: nat, j: nat): nat {
    i * (chunkSize * credits) + j * chunkSize
  }

  /** The first `count` chunks of connection `i`. */
  ghost function Chunks(chunkSize: nat, credits: nat, i: nat, count: nat): (s: set<nat>)
    ensures |s| <= count
  {
    if count == 0 then {} else Chunks(chunkSize, credits, i, count - 1) + {ChunkBase(chunkSize, credits, i, count - 1)}
  }

  lemma {:induction false} ChunkMembers(chunkSize: nat, credits: nat, i: nat, count: nat, base: nat)
    ensures base in Chunks(chunkSize, credits, i, count) <==>
              exists j :: 0 <= j < count && base == ChunkBase(chunkSize, credits, i, j)
  {
    if 0 < count {
      ChunkMembers(chunkSize, credits, i, count - 1, base);
      assert base == ChunkBase(chunkSize, credits, i, count - 1) ==> base in Chunks(chunkSize, credits, i, count);
    }
  }

  /** Different chunks, of one connection or of two, do not overlap. */
  lemma ChunksApart(chunkSize: nat, credits: nat, i: nat, j: nat, i': nat, j': nat)
    requires j < credits && j' < credits && (i < i' || (i == i' && j < j'))
    ensures ChunkBase(chunkSize, credits, i, j) + chunkSize <= ChunkBase(chunkSize, credits, i', j')
  {
    if i < i' {
      ChunkEnds(chunkSize, credits, i, j);
      MulMono(i, i', chunkSize * credits);
    } else {
      MulMono(j, j', chunkSize);
    }
  }

  /** The chunks of a connection end before those of the next one begin. */
  lemma ChunkEnds(chunkSize: nat, credits: nat, i: nat, j: nat)
    requires j < credits
    ensures ChunkBase(chunkSize, credits, i, j) + chunkSize <= i * (chunkSize * credits) + chunkSize * credits
  {
    MulMono(j, credits, chunkSize);
    assert credits * chunkSize == chunkSize * credits;
  }

  lemma NewChunk(chunkSize: nat, credits: nat, i: nat, j: nat)
    requires 0 < chunkSize && j < credits
    ensures ChunkBase(chunkSize, credits, i, j) !in Chunks(chunkSize, credits, i, j)
  {
    var base := ChunkBase(chunkSize, credits, i, j);
    ChunkMembers(chunkSize, credits, i, j, base);
    if base in Chunks(chunkSize, credits, i, j) {
      var l :| 0 <= l < j && base == ChunkBase(chunkSize, credits, i, l);
      ChunksApart(chunkSize, credits, i, l, i, j);
    }
  }

  /** A receive buffer of `n` times `credits` chunks has room for the chunks of `n` connections. */
  lemma ChunkFits(chunkSize: nat, credits: nat, n: nat, i: nat, base: nat)
    requires i < n && 0 < chunkSize && base in Chunks(chunkSize, credits, i, credits)
    ensures base < n * (chunkSize * credits)
  {
    ChunkMembers(chunkSize, credits, i, credits, base);
    var j :| 0 <= j < credits && base == ChunkBase(chunkSize, credits, i, j);
    ChunkEnds(chunkSize, credits, i, j);
    MulMono(i, n, chunkSize * credits);
  }

  /** Every chunk of a connection is either posted to the network or in the queue, and in one place
      only; requests and fragments have the length of a chunk. */
  ghost predicate RecvOk(chunks: set<nat>, chunkSize: nat, pending: map<nat, nat>, queue: seq<Iovec>) {
    && Distinct(Bases(queue))
    && pending.Keys !! Elements(Bases(queue))
    && pending.Keys + Elements(Bases(queue)) == chunks
    && (forall key :: key in pending ==> pending[key] == chunkSize)
    && (forall j :: 0 <= j < |queue| ==> queue[j].len == chunkSize)
  }

  /** The fragments the completions with these keys stand for. */
  function Arrived(pending: map<nat, nat>, keys: seq<nat>): (iovs: seq<Iovec>)
    ensures |iovs| == |keys|
    ensures forall j :: 0 <= j < |iovs| && keys[j] in pending ==> iovs[j] == Iovec(keys[j], pending[keys[j]])
    ensures Bases(iovs) == keys
  {
    seq(|keys|, j requires 0 <= j < |keys| => Iovec(keys[j], if keys[j] in pending then pending[keys[j]] else 0))
  }

  /** All queues once the completions reported for each connection are in. */
  function ArrivedAll(queues: seq<seq<Iovec>>, posted: seq<map<nat, nat>>,
                      completions: seq<seq<nat>>): (q: seq<seq<Iovec>>)
    requires |queues| == |posted| == |completions|
    ensures |q| == |queues| && forall i :: 0 <= i < |q| ==> q[i] == queues[i] + Arrived(posted[i], completions[i])
  {
    seq(|queues|, i requires 0 <= i < |queues| => queues[i] + Arrived(posted[i], completions[i]))
  }

  lemma ReadConserves(chunks: set<nat>, chunkSize: nat, pending: map<nat, nat>, queue: seq<Iovec>, keys: seq<nat>)
    requires RecvOk(chunks, chunkSize, pending, queue) && AllPending(pending, keys)
    ensures RecvOk(chunks, chunkSize, pending - Elements(keys), queue + Arrived(pending, keys))
  {
    var queue' := queue + Arrived(pending, keys);
    assert Bases(queue') == Bases(queue) + keys;
    forall x | x in Bases(queue)
      ensures x !in keys
    {
      assert x in Elements(Bases(queue));
    }
    DistinctAppend(Bases(queue), keys);
    assert Elements(Bases(queue')) == Elements(Bases(queue)) + Elements(keys);
  }

  lemma TailBases(queue: seq<Iovec>)
    requires queue != [] && Distinct(Bases(queue))
    ensures Distinct(Bases(queue[1..]))
    ensures Elements(Bases(queue)) == Elements(Bases(queue[1..])) + {queue[0].base}
    ensures queue[0].base !in Elements(Bases(queue[1..]))
  {
  }

  /** A chunk that is not in use can be posted: there is a credit, and its key is free. */
  lemma PostRoom(chunks: set<nat>, chunkSize: nat, credits: nat, pending: map<nat, nat>, queue: seq<Iovec>, base: nat)
    requires RecvOk(chunks, chunkSize, pending, queue) && |chunks| <= credits
    requires base in chunks && base !in pending
    ensures |pending| < credits
  {
  }

  /** The oldest fragment can be posted again. */
  lemma PostConserves(chunks: set<nat>, chunkSize: nat, credits: nat, pending: map<nat, nat>, queue: seq<Iovec>)
    requires RecvOk(chunks, chunkSize, pending, queue) && queue != [] && |chunks| <= credits
    ensures |pending| < credits && queue[0].base !in pending
    ensures RecvOk(chunks, chunkSize, WithRequest(pending, Iovec(queue[0].base, chunkSize)), queue[1..])
  {
    var base := queue[0].base;
    TailBases(queue);
    Swap(chunks, pending.Keys, Elements(Bases(queue)), Elements(Bases(queue[1..])), base);
    PostRoom(chunks, chunkSize, credits, pending, queue, base);
    OneMoreRequest(pending, base, chunkSize);
  }

  lemma OneMoreRequest(pending: map<nat, nat>, base: nat, len: nat)
    ensures WithRequest(pending, Iovec(base, len)).Keys == pending.Keys + {base}
    ensures forall key :: key in pending && key != base ==> WithRequest(pending, Iovec(base, len))[key] == pending[key]
    ensures WithRequest(pending, Iovec(base, len))[base] == len
  {
  }

  /** An element moves from one part of a partition to the other. */
  lemma Swap(all: set<nat>, to: set<nat>, from: set<nat>, rest: set<nat>, x: nat)
    requires to !! from && to + from == all && from == rest + {x} && x !in rest
    ensures x in all && x !in to && (to + {x}) !! rest && (to + {x}) + rest == all
  {
  }

  lemma NothingPosted(chunkSize: nat, pending: map<nat, nat>)
    requires pending == map[]
    ensures RecvOk({}, chunkSize, pending, []) && |pending| == 0
  {
  }

  lemma PostNewConserves(chunks: set<nat>, chunkSize: nat, pending: map<nat, nat>, base: nat)
    requires RecvOk(chunks, chunkSize, pending, []) && base !in chunks
    ensures base !in pending
    ensures RecvOk(chunks + {base}, chunkSize, WithRequest(pending, Iovec(base, chunkSize)), [])
    ensures |WithRequest(pending, Iovec(base, chunkSize))| == |pending| + 1
  {
    OneMoreRequest(pending, base, chunkSize);
  }

  /** The first `i` elements are those of `after`, the others those of `before`. */
  ghost predicate Halfway<T>(now: seq<T>, before: seq<T>, after: seq<T>, i: nat) {
    |now| == |before| == |after| && forall l :: 0 <= l < |now| ==> now[l] == if l < i then after[l] else before[l]
  }

  ghost predicate SameFrom<T>(now: seq<T>, before: seq<T>, i: nat) {
    |now| == |before| && forall l :: i <= l < |now| ==> now[l] == before[l]
  }

  lemma ReadStep<T, U>(now: seq<T>, before: seq<T>, after: seq<T>, p: seq<U>, q: seq<U>, i: nat, x: U)
    requires Halfway(now, before, after, i) && SameFrom(p, q, i) && i < |now| == |p|
    ensures now[i] == before[i] && p[i] == q[i]
    ensures Halfway(now[i := after[i]], before, after, i + 1) && SameFrom(p[i := x], q, i + 1)
  {
  }

  lemma UpdateTwice<T>(s: seq<T>, i: nat, x: T, y: T)
    requires i < |s|
    ensures s[i := x][i := y] == s[i := y]
  {
  }

  /** Every queue holds at least `n` fragments. */
  ghost predicate RowsComplete(queues: seq<seq<Iovec>>, n: nat) {
    forall i :: 0 <= i < |queues| ==> n <= |queues[i]|
  }

  /** Every queue starts with a fragment whose header can be read. */
  ghost predicate FrontsReadable(queues: seq<seq<Iovec>>, size: nat) {
    forall i :: 0 <= i < |queues| ==> 0 < |queues[i]| && queues[i][0].base < size
  }

  /** The queues once `n` rows are built. */
  ghost function Released(queues: seq<seq<Iovec>>, n: nat): (q: seq<seq<Iovec>>)
    requires RowsComplete(queues, n)
    ensures |q| == |queues| && forall i :: 0 <= i < |q| ==> q[i] == queues[i][n..]
  {
    seq(|queues|, i requires 0 <= i < |queues| => queues[i][n..])
  }

  lemma ShortestFits(queues: seq<seq<Iovec>>, limit: nat)
    ensures RowsComplete(queues, Shortest(Sizes(queues), limit))
  {
  }

  function Sizes<T>(queues: seq<seq<T>>): (s: seq<nat>)
    ensures |s| == |queues| && forall i :: 0 <= i < |s| ==> s[i] == |queues[i]|
  {
    seq(|queues|, i requires 0 <= i < |queues| => |queues[i]|)
  }

  /** The headers at the front of the queues. */
  function FrontsOf(queues: seq<seq<Iovec>>, memory: seq<EventHeader>): (f: seq<EventHeader>)
    ensures |f| == |queues|
    ensures forall i :: 0 <= i < |f| && 0 < |queues[i]| && queues[i][0].base < |memory| ==>
              f[i] == memory[queues[i][0].base]
  {
    seq(|queues|, i requires 0 <= i < |queues| =>
      if 0 < |queues[i]| && queues[i][0].base < |memory| then memory[queues[i][0].base] else EventHeader(0, 0, 0))
  }

  function IovecLength(iovs: seq<Iovec>): nat {
    if iovs == [] then 0 else IovecLength(iovs[..|iovs| - 1]) + iovs[|iovs| - 1].len
  }

  /** All that is posted on connection `i` are its chunks, each for its whole length. */
  ghost predicate HasAllChunks(pending: map<nat, nat>, chunkSize: nat, credits: nat, i: nat) {
    && pending.Keys == (set j | 0 <= j < credits :: ChunkBase(chunkSize, credits, i, j))
    && forall base :: base in pending ==> pending[base] == chunkSize
  }

  lemma AllChunksPosted(pending: map<nat, nat>, chunkSize: nat, credits: nat, i: nat)
    requires RecvOk(Chunks(chunkSize, credits, i, credits), chunkSize, pending, [])
    ensures HasAllChunks(pending, chunkSize, credits, i)
  {
    assert Elements(Bases([])) == {};
    forall base | true
      ensures base in pending <==> base in set j | 0 <= j < credits :: ChunkBase(chunkSize, credits, i, j)
    {
      ChunkMembers(chunkSize, credits, i, credits, base);
    }
  }

  /** How many rows a turn builds and what it leaves in the queues, by their lengths before the turn and the number
      of fragments that came in. */
  ghost predicate RowsByLength(before: seq<seq<Iovec>>, completions: seq<seq<nat>>, credits: nat,
                               ok: bool, rows: nat, after: seq<seq<Iovec>>)
    requires |before| == |completions|
  {
    && |after| == |before| && rows <= credits
    && (forall i :: 0 <= i < |before| ==> rows <= |before[i]| + |completions[i]|)
    && (rows == credits || exists i :: 0 <= i < |before| && rows == |before[i]| + |completions[i]|)
    && forall i :: 0 <= i < |before| ==> |after[i]| == |before[i]| + |completions[i]| - if ok then rows else 0
  }

  lemma CompleteRows(before: seq<seq<Iovec>>, posted: seq<map<nat, nat>>, completions: seq<seq<nat>>, credits: nat,
                     memory: seq<EventHeader>, ok: bool, rows: nat, after: seq<seq<Iovec>>)
    requires |before| == |posted| == |completions|
    requires rows == Shortest(Sizes(ArrivedAll(before, posted, completions)), credits)
    requires Built(ArrivedAll(before, posted, completions), memory, ok, rows, after)
    ensures RowsByLength(before, completions, credits, ok, rows, after)
  {
    var arrived := ArrivedAll(before, posted, completions);
    forall i | 0 <= i < |before|
      ensures Sizes(arrived)[i] == |before[i]| + |completions[i]|
    {
      assert arrived[i] == before[i] + Arrived(posted[i], completions[i]);
    }
    if rows != credits {
      var i :| 0 <= i < |Sizes(arrived)| && Sizes(arrived)[i] == rows;
      assert rows == |before[i]| + |completions[i]|;
    }
  }

  /** Once all fragments are queued, `rows` rows are taken off if the check succeeds. */
  ghost predicate Built(queues: seq<seq<Iovec>>, memory: seq<EventHeader>, ok: bool, rows: nat,
                        queues': seq<seq<Iovec>>) {
    && RowsComplete(queues, rows)
    && (ok <==> rows == 0 || SameEvent(FrontsOf(queues, memory)))
    && queues' == if ok && rows != 0 then Released(queues, rows) else queues
  }

  lemma {:induction false} EqualLengths(iovs: seq<Iovec>, len: nat)
    requires forall j :: 0 <= j < |iovs| ==> iovs[j].len == len
    ensures IovecLength(iovs) == |iovs| * len
  {
    if iovs != [] {
      EqualLengths(iovs[..|iovs| - 1], len);
      MulMono(|iovs| - 1, |iovs|, len);
    }
  }

  /** The chunks of the fragments taken off a queue are the ones that are posted in addition. */
  lemma PostedAgain(chunks: set<nat>, chunkSize: nat, pending: map<nat, nat>, pending': map<nat, nat>,
                    queue: seq<Iovec>, n: nat)
    requires n <= |queue| && RecvOk(chunks, chunkSize, pending, queue)
    requires RecvOk(chunks, chunkSize, pending', queue[n..])
    ensures forall base :: base in pending' <==> base in pending || exists j :: 0 <= j < n && queue[j].base == base
  {
    var all, rest := Bases(queue), Bases(queue[n..]);
    assert forall j :: n <= j < |queue| ==> all[j] == rest[j - n];
    forall base
      ensures base in pending' <==> base in pending || exists j :: 0 <= j < n && queue[j].base == base
    {
      assert base in chunks <==> base in pending || base in Elements(all);
      assert base in chunks <==> base in pending' || base in Elements(rest);
      if base in Elements(all) {
        var j :| 0 <= j < |all| && all[j] == base;
        if j < n && base in Elements(rest) {
          var l :| 0 <= l < |rest| && rest[l] == base;
          assert all[n + l] == all[j];
        }
      }
    }
  }

  class BuilderUnit {
    const credits: nat
    const chunkSize: nat
    const conns: seq<Socket>
    /** The header found at each address of the receive buffer; the network writes here. */
    const memory: array<EventHeader>
    /** Fragments received and not built yet, by connection. */
    var dataVect: seq<seq<Iovec>>

    ghost predicate Wired()
      reads this
    {
      && 0 < |conns| == |dataVect|
      && (forall i, j :: 0 <= i < j < |conns| ==> conns[i] != conns[j])
      && (forall i :: 0 <= i < |conns| ==> conns[i].credits == credits)
    }

    ghost function Posted(): (p: seq<map<nat, nat>>)
      reads conns
      ensures |p| == |conns| && forall i :: 0 <= i < |conns| ==> p[i] == conns[i].pendingRecv
    {
      seq(|conns|, i requires 0 <= i < |conns| reads conns => conns[i].pendingRecv)
    }

    /** Every object that belongs to the unit. */
    ghost function Owned(): (objects: set<object>)
      ensures {this, memory} <= objects && forall c :: c in conns ==> c in objects
    {
      {this, memory} + set c | c in conns :: c
    }

    ghost predicate ConnOk(i: nat, pending: map<nat, nat>, queue: seq<Iovec>) {
      RecvOk(Chunks(chunkSize, credits, i, credits), chunkSize, pending, queue)
    }

    ghost predicate Valid()
      reads this, conns
    {
      Wired() && forall i :: 0 <= i < |conns| ==> ConnOk(i, Posted()[i], dataVect[i])
    }

    constructor (conns: seq<Socket>, memory: array<EventHeader>, chunkSize: nat, credits: nat)
      requires 0 < |conns| && 0 < chunkSize
      requires forall i, j :: 0 <= i < j < |conns| ==> conns[i] != conns[j]
      requires forall i :: 0 <= i < |conns| ==> conns[i].credits == credits && conns[i].pendingRecv == map[]
      modifies conns
      ensures Valid() && this.conns == conns && this.memory == memory
      ensures this.credits == credits && this.chunkSize == chunkSize
      ensures forall i :: 0 <= i < |conns| ==> dataVect[i] == []
      ensures forall i :: 0 <= i < |conns| ==> HasAllChunks(conns[i].pendingRecv, chunkSize, credits, i)
    {
      this.conns, this.memory, this.chunkSize, this.credits := conns, memory, chunkSize, credits;
      dataVect := seq(|conns|, _ => []);
      new;
      Connect();
      forall i | 0 <= i < |conns|
        ensures HasAllChunks(conns[i].pendingRecv, chunkSize, credits, i)
      {
        assert ConnOk(i, Posted()[i], []);
        AllChunksPosted(conns[i].pendingRecv, chunkSize, credits, i);
      }
    }

    /** The unit does not notice changes to objects that are not its own. */
    twostate lemma Untouched(others: set<object>)
      requires old(Valid()) && Owned() <= others && unchanged(others)
      ensures Valid() && dataVect == old(dataVect) && Posted() == old(Posted()) && memory[..] == old(memory[..])
    {
    }

    /** Posts the receive buffer of every connection. */
    method Connect()
      requires Wired() && 0 < chunkSize && forall l :: 0 <= l < |conns| ==> Posted()[l] == map[]
      modifies conns
      ensures forall l :: 0 <= l < |conns| ==> ConnOk(l, Posted()[l], [])
    {
      forall l | 0 <= l < |conns|
        ensures Begun(l, 0, Posted()[l])
      {
        NothingPosted(chunkSize, Posted()[l]);
      }
      for i := 0 to |conns|
        invariant forall l :: 0 <= l < i ==> ConnOk(l, Posted()[l], [])
        invariant forall l :: i <= l < |conns| ==> Begun(l, 0, Posted()[l])
      {
        PostChunks(i);
      }
    }

    /** Posts one receive. */
    method Post(i: nat, base: nat)
      requires Wired() && i < |conns| && |conns[i].pendingRecv| < credits && base !in conns[i].pendingRecv
      modifies conns
      ensures Posted() == old(Posted())[i := WithRequest(old(Posted())[i], Iovec(base, chunkSize))]
    {
      var outcome := conns[i].PostRecv(Iovec(base, chunkSize));
      assert outcome.Posted?;
    }

    /** Posts all chunks of a connection. */
    method PostChunks(i: nat)
      requires Wired() && i < |conns| && Begun(i, 0, Posted()[i]) && 0 < chunkSize
      modifies conns
      ensures ConnOk(i, Posted()[i], [])
      ensures Posted() == old(Posted())[i := Posted()[i]]
    {
      ghost var before := Posted();
      for j := 0 to credits
        invariant Begun(i, j, Posted()[i])
        invariant Posted() == before[i := Posted()[i]]
      {
        ghost var now := Posted();
        PostChunk(i, j);
        UpdateTwice(before, i, now[i], Posted()[i]);
      }
    }

    /** The first `j` chunks of a connection are posted. */
    ghost predicate Begun(i: nat, j: nat, pending: map<nat, nat>) {
      RecvOk(Chunks(chunkSize, credits, i, j), chunkSize, pending, []) && |pending| == j
    }

    method PostChunk(i: nat, j: nat)
      requires Wired() && i < |conns| && 0 < chunkSize
      requires Begun(i, j, Posted()[i]) && j < credits
      modifies conns
      ensures Posted() == old(Posted())[i := Posted()[i]]
      ensures Begun(i, j + 1, Posted()[i])
    {
      var base := ChunkBase(chunkSize, credits, i, j);
      NewChunk(chunkSize, credits, i, j);
      PostNewConserves(Chunks(chunkSize, credits, i, j), chunkSize, Posted()[i], base);
      Post(i, base);
    }

    /** Receives a fragment list for one connection; `keys` are the completions the network reports. */
    method ReadData(i: nat, keys: seq<nat>) returns (count: nat)
      requires Valid() && i < |conns| && AllPending(Posted()[i], keys)
      modifies this`dataVect, conns
      ensures Valid() && count == |keys|
      ensures dataVect == old(dataVect)[i := old(dataVect)[i] + Arrived(old(Posted())[i], keys)]
      ensures Posted() == old(Posted())[i := old(Posted())[i] - Elements(keys)]
    {
      ReadConserves(Chunks(chunkSize, credits, i, credits), chunkSize, Posted()[i], dataVect[i], keys);
      var newData := PollOne(i, keys);
      ghost var pending := Posted();
      count := |newData|;
      dataVect := dataVect[i := dataVect[i] + newData];
      assert Posted() == pending;
    }

    method PollOne(i: nat, keys: seq<nat>) returns (newData: seq<Iovec>)
      requires Wired() && i < |conns| && AllPending(Posted()[i], keys)
      modifies conns
      ensures newData == Arrived(old(Posted())[i], keys)
      ensures Posted() == old(Posted())[i := old(Posted())[i] - Elements(keys)]
    {
      var outcome := conns[i].PollCompletedRecv(keys);
      newData := outcome.completed;
      assert newData == Arrived(old(Posted())[i], keys);
    }

    /** Posts the chunks of the fragments taken off the front of a queue again, which cannot fail. */
    method PostAgain(i: nat, subVect: seq<Iovec>, ghost queue: seq<Iovec>)
      requires Wired() && i < |conns| && ConnOk(i, Posted()[i], queue)
      requires |subVect| <= |queue| && subVect == queue[..|subVect|]
      modifies conns
      ensures ConnOk(i, Posted()[i], queue[|subVect|..])
      ensures Posted() == old(Posted())[i := Posted()[i]]
    {
      ghost var before, pending := Posted(), Posted()[i];
      assert queue[0..] == queue;
      for j := 0 to |subVect|
        invariant ConnOk(i, pending, queue[j..])
        invariant Posted() == before[i := pending]
      {
        PostConserves(Chunks(chunkSize, credits, i, credits), chunkSize, credits, pending, queue[j..]);
        assert queue[j..][1..] == queue[j + 1..];
        Post(i, subVect[j].base);
        UpdateTwice(before, i, pending, WithRequest(pending, Iovec(subVect[j].base, chunkSize)));
        pending := WithRequest(pending, Iovec(subVect[j].base, chunkSize));
      }
    }

    method TakeOff(i: nat, n: nat) returns (bytes: nat)
      requires Valid() && i < |conns| && n <= |dataVect[i]|
      modifies this`dataVect, conns
      ensures Valid() && dataVect == old(dataVect)[i := old(dataVect)[i][n..]]
      ensures Posted() == old(Posted())[i := Posted()[i]]
      ensures bytes == IovecLength(old(dataVect)[i][..n])
    {
      var subVect := dataVect[i][..n];
      ghost var queues, posted := dataVect, Posted();
      dataVect := dataVect[i := dataVect[i][n..]];
      bytes := IovecLength(subVect);
      PostAgain(i, subVect, queues[i]);
      OneConnOk(i, posted, Posted(), queues, dataVect);
    }

    /** Takes `n` fragments off the front and posts their chunks again. */
    method ReleaseData(i: nat, n: nat) returns (bytes: nat)
      requires Valid() && i < |conns| && n <= |dataVect[i]|
      modifies this`dataVect, conns
      ensures Valid() && dataVect == old(dataVect)[i := old(dataVect)[i][n..]]
      ensures Posted() == old(Posted())[i := Posted()[i]]
      ensures bytes == n * chunkSize
      ensures forall base :: base in Posted()[i] <==>
                base in old(Posted())[i] || exists j :: 0 <= j < n && old(dataVect)[i][j].base == base
    {
      ghost var queue, posted := dataVect[i], Posted()[i];
      assert ConnOk(i, posted, queue);
      bytes := TakeOff(i, n);
      assert ConnOk(i, Posted()[i], queue[n..]);
      EqualLengths(queue[..n], chunkSize);
      PostedAgain(Chunks(chunkSize, credits, i, credits), chunkSize, posted, Posted()[i], queue, n);
    }

    lemma OneConnOk(i: nat, posted: seq<map<nat, nat>>, posted': seq<map<nat, nat>>,
                    queues: seq<seq<Iovec>>, queues': seq<seq<Iovec>>)
      requires i < |conns| == |posted| == |posted'| == |queues| == |queues'|
      requires forall l :: 0 <= l < |conns| ==> ConnOk(l, posted[l], queues[l])
      requires posted' == posted[i := posted'[i]] && queues' == queues[i := queues'[i]]
      requires ConnOk(i, posted'[i], queues'[i])
      ensures forall l :: 0 <= l < |conns| ==> ConnOk(l, posted'[l], queues'[l])
    {
      forall l | 0 <= l < |conns|
        ensures ConnOk(l, posted'[l], queues'[l])
      {
        assert l != i ==> posted'[l] == posted[l] && queues'[l] == queues[l];
      }
    }

    /** Compares the events the front fragments start with. */
    method CheckData() returns (ok: bool)
      requires 0 < |dataVect| && FrontsReadable(dataVect, memory.Length)
      ensures ok <==> SameEvent(FrontsOf(dataVect, memory[..]))
      ensures ok <==> forall i :: 0 <= i < |dataVect| ==>
                memory[dataVect[i][0].base].id == memory[dataVect[0][0].base].id
                && memory[dataVect[i][0].base].length != 0
    {
      ghost var fronts := FrontsOf(dataVect, memory[..]);
      var firstEvtId := memory[dataVect[0][0].base].id;
      assert firstEvtId == fronts[0].id;
      for i := 0 to |dataVect|
        invariant forall l :: 0 <= l < i ==> fronts[l].id == firstEvtId && fronts[l].length != 0
      {
        var header := memory[dataVect[i][0].base];
        assert header == fronts[i];
        if header.id != firstEvtId {
          return false;
        }
        if header.length == 0 {
          return false;
        }
      }
      ok := true;
    }

    /** Reads from every connection; returns how many rows are complete, at most `credits`. */
    method ReadAll(completions: seq<seq<nat>>) returns (minWrs: nat)
      requires Valid()
      requires Answers(Posted(), completions)
      modifies this`dataVect, conns
      ensures Valid() && dataVect == ArrivedAll(old(dataVect), old(Posted()), completions)
      ensures minWrs == Shortest(Sizes(dataVect), credits)
    {
      ghost var posted, before := Posted(), dataVect;
      ghost var after := ArrivedAll(before, posted, completions);
      minWrs := credits;
      for i := 0 to |conns|
        invariant Valid() && Halfway(dataVect, before, after, i) && SameFrom(Posted(), posted, i)
        invariant minWrs == Shortest(Sizes(after)[..i], credits)
      {
        ghost var now, pending := dataVect, Posted();
        var readWrs := ReadData(i, completions[i]);
        ReadStep(now, before, after, pending, posted, i, Posted()[i]);
        var currentWrs := |dataVect[i]|;
        ShortestStep(Sizes(after), credits, i);
        minWrs := if minWrs < currentWrs then minWrs else currentWrs;
      }
      assert dataVect == after;
      assert Sizes(after)[..|conns|] == Sizes(after);
    }

    method ReleaseAll(n: nat)
      requires Valid() && RowsComplete(dataVect, n)
      modifies this`dataVect, conns
      ensures Valid() && dataVect == Released(old(dataVect), n)
    {
      for i := 0 to |conns|
        invariant Valid()
        invariant forall l :: 0 <= l < |conns| ==>
                    dataVect[l] == if l < i then old(dataVect)[l][n..] else old(dataVect)[l]
      {
        var bytes := ReleaseData(i, n);
      }
    }

    /** The receive buffer is large enough for all chunks. */
    ghost predicate InMemory() {
      forall i, base :: 0 <= i < |conns| && base in Chunks(chunkSize, credits, i, credits) ==> base < memory.Length
    }

    /** Checks the front row and takes `rows` rows off, if there are any. */
    method BuildRows(rows: nat) returns (ok: bool)
      requires Valid() && RowsComplete(dataVect, rows) && (0 < rows ==> FrontsReadable(dataVect, memory.Length))
      modifies this`dataVect, conns
      ensures Valid()
      ensures ok <==> rows == 0 || SameEvent(FrontsOf(old(dataVect), memory[..]))
      ensures dataVect == if ok && rows != 0 then Released(old(dataVect), rows) else old(dataVect)
    {
      ok := true;
      if rows != 0 {
        ok := CheckData();
        if ok {
          ReleaseAll(rows);
        }
      }
    }

    method ReadAndBuild(completions: seq<seq<nat>>) returns (ok: bool, rows: nat)
      requires Valid() && InMemory()
      requires Answers(Posted(), completions)
      modifies this`dataVect, conns
      ensures Valid() && rows == Shortest(Sizes(ArrivedAll(old(dataVect), old(Posted()), completions)), credits)
      ensures Built(ArrivedAll(old(dataVect), old(Posted()), completions), memory[..], ok, rows, dataVect)
    {
      rows := ReadAll(completions);
      ShortestFits(dataVect, credits);
      if 0 < rows {
        FrontsInMemory(rows);
      }
      ok := BuildRows(rows);
    }

    /** One turn of the loop: fragments come in, and as many rows as are complete are built and
        released, once the front row has been checked. `ok` is false when the check fails, which
        ends the program. */
    method Iterate(completions: seq<seq<nat>>) returns (ok: bool, rows: nat)
      requires Valid() && InMemory()
      requires Answers(Posted(), completions)
      modifies this`dataVect, conns
      ensures Valid() && rows == Shortest(Sizes(ArrivedAll(old(dataVect), old(Posted()), completions)), credits)
      ensures Built(ArrivedAll(old(dataVect), old(Posted()), completions), memory[..], ok, rows, dataVect)
      ensures RowsByLength(old(dataVect), completions, credits, ok, rows, dataVect)
    {
      ghost var queues, posted := dataVect, Posted();
      ok, rows := ReadAndBuild(completions);
      CompleteRows(queues, posted, completions, credits, memory[..], ok, rows, dataVect);
    }

    lemma FrontsInMemory(rows: nat)
      requires Valid() && 0 < rows == Shortest(Sizes(dataVect), credits)
      requires InMemory()
      ensures FrontsReadable(dataVect, memory.Length)
    {
      forall i | 0 <= i < |dataVect|
        ensures 0 < |dataVect[i]| && dataVect[i][0].base < memory.Length
      {
        assert rows <= Sizes(dataVect)[i];
        assert dataVect[i][0].base in Elements(Bases(dataVect[i]));
      }
    }
  }
}
