/** Setting up a node: sizes of the buffers, and the parts that share them. */
module Nodes {
  import opened Accumulators
  import opened BuilderUnits
  import opened Bundles
  import opened Controllers
  import opened DataFormat
  import opened Generators
  import opened Protocol
  import opened ReadoutUnits
  import opened Ring
  import opened Schedule
  import opened Sockets
  import opened Tables

  /** The sizes that a program is configured with. */
  datatype Sizes = Sizes(bulk: nat, credits: nat, maxFragment: nat) {

    /** How many multievents the event table holds. */
    function Slots(): nat {
      2 * credits + 1
    }

    /** How many events the data buffer is made for. */
    function Events(): nat {
      bulk * Slots()
    }

    /** What the program checks of its configuration, and what the generator asserts of the data buffer. */
    predicate Accepted() {
      && 0 < bulk && 0 < credits && 0 < maxFragment && maxFragment % RECORD_SIZE == 0
      && (maxFragment * Events()) % DATA_PADDING == 0
    }

    /** Lengths that the generator may draw. */
    ghost predicate Draws(payloads: seq<nat>) {
      |payloads| == Events() && Drawn(payloads, maxFragment)
    }

    /** Of those, the ones that lead to a table in which every multievent can be sent as intended. */
    predicate Suits(payloads: seq<nat>) {
      |payloads| == Events() && Suitable(payloads, bulk, Slots(), maxFragment)
    }
  }

  /** A table of these sizes as the generator of node `id` leaves it. */
  ghost predicate LeftBy(m: Memory, sizes: Sizes, payloads: seq<nat>, data: seq<EventHeader>, id: nat) {
    && m.bulk == sizes.bulk && m.slots == sizes.Slots() && m.maxFragment == sizes.maxFragment
    && Generated(Filling(m, payloads, data, id))
  }

  lemma TableFits(maxFragment: nat, events: nat)
    requires 0 < maxFragment && maxFragment % RECORD_SIZE == 0 && 0 < events
    ensures RECORD_SIZE <= maxFragment && RECORD_SIZE * events <= maxFragment * events
  {
    MulMono(RECORD_SIZE, maxFragment, events);
  }

  /** Connections as they are when both ends have just been set up. */
  ghost predicate FreshConns(conns: seq<Socket>, credits: nat)
    reads conns
  {
    && (forall k, l :: 0 <= k < l < |conns| ==> conns[k] != conns[l])
    && (forall k :: 0 <= k < |conns| ==>
          conns[k].credits == credits && conns[k].pendingSend == map[] && conns[k].pendingRecv == map[])
  }

  /** The memory of a node and everything that manages it. */
  method MakeAccumulator(id: nat, sizes: Sizes, payloads: seq<nat>)
    returns (accumulator: Accumulator, data: array<EventHeader>)
    requires sizes.Accepted() && sizes.Draws(payloads)
    ensures fresh(data) && fresh(accumulator) && fresh(accumulator.metadata) && fresh(accumulator.controller)
    ensures fresh(accumulator.controller.generator) && fresh(accumulator.controller.generator.buffer)
    ensures accumulator.Store().Ok() ==> accumulator.Valid()
    ensures accumulator.acquired == 0 && accumulator.done == {}
    ensures LeftBy(accumulator.Store(), sizes, payloads, data[..], id)
  {
    var events := sizes.Events();
    MulMono(1, sizes.Slots(), sizes.bulk);
    TableFits(sizes.maxFragment, events);
    var metadata := new EventMetaData[events](_ => EventMetaData(0, 0, 0));
    data := new EventHeader[sizes.maxFragment * events](_ => EventHeader(0, 0, 0));
    var generator := new Generator(payloads, metadata, data, id);
    var controller := new Controller(generator);
    accumulator := new Accumulator(controller, metadata, sizes.bulk, sizes.Slots(), sizes.maxFragment);
  }

  /** The parts of a node fit together: what each constructor asks for is what the one before it
      leaves. The unit can do its work exactly when the payloads are suitable. */
  method MakeReadoutUnit(id: nat, sizes: Sizes, payloads: seq<nat>, conns: seq<Socket>)
    returns (ru: ReadoutUnit, data: array<EventHeader>)
    requires sizes.Accepted() && sizes.Draws(payloads)
    requires id < |conns| && FreshConns(conns, sizes.credits)
    ensures fresh(data) && fresh(ru.Owned() - set c | c in conns) && data !in ru.Owned()
    ensures ru.id == id && ru.conns == conns && ru.credits == sizes.credits && ru.View() == FRESH_RU
    ensures LeftBy(ru.Store(), sizes, payloads, data[..], id)
    ensures ru.Valid() <==> sizes.Suits(payloads)
  {
    var accumulator;
    accumulator, data := MakeAccumulator(id, sizes, payloads);
    ru := new ReadoutUnit(accumulator, conns, id, sizes.credits);
    TableIsReady(Filling(ru.Store(), payloads, data[..], id));
  }

  /** The builder unit of a node, with room for all chunks of all connections. */
  method MakeBuilderUnit(sizes: Sizes, conns: seq<Socket>) returns (bu: BuilderUnit)
    requires sizes.Accepted() && 0 < |conns| && FreshConns(conns, sizes.credits)
    modifies conns
    ensures fresh(bu.Owned() - set c | c in conns) && bu.Valid() && bu.InMemory()
    ensures bu.conns == conns && bu.credits == sizes.credits && bu.chunkSize == sizes.maxFragment * sizes.bulk
    ensures bu.memory.Length == |conns| * (sizes.maxFragment * sizes.bulk * sizes.credits)
    ensures forall i :: 0 <= i < |conns| ==> bu.dataVect[i] == []
  {
    var chunkSize, credits := sizes.maxFragment * sizes.bulk, sizes.credits;
    MulMono(1, sizes.maxFragment, sizes.bulk);
    var memory := new EventHeader[|conns| * (chunkSize * credits)](_ => EventHeader(0, 0, 0));
    bu := new BuilderUnit(conns, memory, chunkSize, credits);
    forall i, base | 0 <= i < |conns| && base in Chunks(chunkSize, credits, i, credits)
      ensures base < memory.Length
    {
      ChunkFits(chunkSize, credits, |conns|, i, base);
    }
  }

  function SizesOf(cfg: Config): Sizes {
    Sizes(cfg.bulk, cfg.credits, cfg.maxFragment)
  }

  /** The table and the data buffer of node `r` after its generator has been constructed. */
  ghost predicate SetUp(cfg: Config, r: nat, payloads: seq<nat>, data: seq<EventHeader>)
    requires r < |cfg.memories|
  {
    LeftBy(cfg.memories[r], SizesOf(cfg), payloads, data, r)
  }

  /** `n` such nodes are a system whose runs the protocol describes exactly when the payloads of all of
      them are suitable. */
  lemma SetupIsValid(cfg: Config, payloads: seq<seq<nat>>, data: seq<seq<EventHeader>>)
    requires 0 < cfg.n && 0 < cfg.bulk && 0 < cfg.credits
    requires |cfg.memories| == |payloads| == |data| == |cfg.peer| == cfg.n
    requires forall k :: 0 <= k < cfg.n ==> IsPermutation(cfg.peer[k], cfg.n)
    requires forall r :: 0 <= r < cfg.n ==> SetUp(cfg, r, payloads[r], data[r])
    ensures ValidConfig(cfg) <==> forall r :: 0 <= r < cfg.n ==> SizesOf(cfg).Suits(payloads[r])
  {
    forall r | 0 <= r < cfg.n
      ensures cfg.memories[r].Ok() <==> SizesOf(cfg).Suits(payloads[r])
    {
      assert SetUp(cfg, r, payloads[r], data[r]);
      TableIsReady(Filling(cfg.memories[r], payloads[r], data[r], r));
    }
    assert forall r :: 0 <= r < cfg.n ==> SetUp(cfg, r, payloads[r], data[r]);
  }

  /** The message of the protocol is what lies in the data buffer at the address that is sent: which
      event it starts with depends on the schedule alone, not on the node it is from. */
  lemma MessageIsInData(cfg: Config, r: nat, payloads: seq<nat>, data: seq<EventHeader>, t: nat)
    requires ValidConfig(cfg) && r < cfg.n && SetUp(cfg, r, payloads, data)
    ensures var m := cfg.memories[r];
            && m.Base(t) < |data| && data[m.Base(t)] == Message(cfg, r, t)
            && data[m.Base(t)].id == cfg.bulk * (t % (2 * cfg.credits + 1))
            && data[m.Base(t)].flags == r && 0 < data[m.Base(t)].length <= cfg.bulk * cfg.maxFragment
  {
    var m := cfg.memories[r];
    HeaderIsSent(Filling(m, payloads, data, r), t);
    MessageFacts(cfg, r, t);
    assert m.table[m.First(t)].id == m.First(t);
  }
}
