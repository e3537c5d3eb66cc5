/** Starting all nodes. */
module Launches {
  import opened BuilderTurns
  import opened BuilderUnits
  import opened DataFormat
  import opened Nodes
  import opened Progress
  import opened Protocol
  import opened ReadoutUnits
  import opened Schedule
  import opened Sockets
  import opened Systems

  method MakeConns(n: nat, credits: nat) returns (conns: seq<Socket>)
    ensures |conns| == n && FreshConns(conns, credits) && fresh(set c | c in conns)
  {
    conns := [];
    while |conns| < n
      invariant |conns| <= n && FreshConns(conns, credits) && fresh(set c | c in conns)
    {
      var conn := new Socket(credits);
      conns := conns + [conn];
    }
  }

  /** The readout unit of node `r` as it is constructed. It is ready to run if its payloads are suitable,
      and then its data buffer holds what it will send. */
  ghost predicate RuStarts(ru: ReadoutUnit, r: nat, n: nat, sizes: Sizes, payloads: seq<nat>, data: array<EventHeader>)
    reads ru.Owned(), data
  {
    && ru.id == r && |ru.conns| == n && ru.credits == sizes.credits && ru.View() == FRESH_RU
    && LeftBy(ru.Store(), sizes, payloads, data[..], r)
    && (ru.Valid() <==> sizes.Suits(payloads))
  }

  method ConnectReadoutUnit(r: nat, n: nat, sizes: Sizes, payloads: seq<nat>)
    returns (ru: ReadoutUnit, data: array<EventHeader>)
    requires sizes.Accepted() && sizes.Draws(payloads) && r < n
    ensures fresh(ru.Owned() + {data}) && data !in ru.Owned() && RuStarts(ru, r, n, sizes, payloads, data)
  {
    var conns := MakeConns(n, sizes.credits);
    ru, data := MakeReadoutUnit(r, sizes, payloads, conns);
  }

  /** Disjoint sets, all within `used`. */
  ghost predicate Separate(parts: seq<set<object>>, used: set<object>) {
    && (forall x :: 0 <= x < |parts| ==> parts[x] <= used)
    && (forall x, y :: 0 <= x < y < |parts| ==> parts[x] !! parts[y])
  }

  lemma OneMorePart(parts: seq<set<object>>, used: set<object>, part: set<object>, more: set<object>)
    requires Separate(parts, used) && part !! used
    ensures Separate(parts + [part], used + part + more)
  {
    var longer := parts + [part];
    forall x, y | 0 <= x < y < |longer|
      ensures longer[x] !! longer[y]
    {
      if y == |parts| {
        assert longer[x] <= used;
      }
    }
  }

  ghost function RuParts(rus: seq<ReadoutUnit>): (parts: seq<set<object>>)
    ensures |parts| == |rus| && forall r :: 0 <= r < |rus| ==> parts[r] == rus[r].Owned()
  {
    seq(|rus|, r requires 0 <= r < |rus| => rus[r].Owned())
  }

  ghost function BuParts(bus: seq<BuilderUnit>): (parts: seq<set<object>>)
    ensures |parts| == |bus| && forall k :: 0 <= k < |bus| ==> parts[k] == bus[k].Owned()
  {
    seq(|bus|, k requires 0 <= k < |bus| => bus[k].Owned())
  }

  /** The data buffers are among the objects used and belong to no unit. */
  ghost predicate DataApart(parts: seq<set<object>>, datas: seq<array<EventHeader>>, used: set<object>) {
    && (forall d :: d in datas ==> d in used)
    && (forall d, x :: d in datas && 0 <= x < |parts| ==> d !in parts[x])
  }

  lemma OneMoreData(parts: seq<set<object>>, datas: seq<array<EventHeader>>, used: set<object>, part: set<object>,
                    data: array<EventHeader>)
    requires Separate(parts, used) && DataApart(parts, datas, used)
    requires part !! used && data !in used && data !in part
    ensures DataApart(parts + [part], datas + [data], used + part + {data})
  {
    forall d, x | d in datas + [data] && 0 <= x < |parts + [part]|
      ensures d !in (parts + [part])[x]
    {
      if x < |parts| {
        assert parts[x] <= used;
      }
    }
  }

  ghost predicate AllRusStart(rus: seq<ReadoutUnit>, datas: seq<array<EventHeader>>, n: nat, sizes: Sizes,
                              payloads: seq<seq<nat>>, used: set<object>)
    reads used
  {
    && Separate(RuParts(rus), used) && DataApart(RuParts(rus), datas, used)
    && |rus| == |datas| <= |payloads|
    && forall r :: 0 <= r < |rus| ==>
         RuParts(rus)[r] <= used && datas[r] in used && RuStarts(rus[r], r, n, sizes, payloads[r], datas[r])
  }

  lemma OneMoreRu(rus: seq<ReadoutUnit>, datas: seq<array<EventHeader>>, n: nat, sizes: Sizes,
                  payloads: seq<seq<nat>>, used: set<object>, ru: ReadoutUnit, data: array<EventHeader>)
    requires AllRusStart(rus, datas, n, sizes, payloads, used)
    requires |rus| < |payloads| && ru.Owned() !! used && data !in used && data !in ru.Owned()
    requires RuStarts(ru, |rus|, n, sizes, payloads[|rus|], data)
    ensures AllRusStart(rus + [ru], datas + [data], n, sizes, payloads, used + ru.Owned() + {data})
  {
    OneMorePart(RuParts(rus), used, ru.Owned(), {data});
    OneMoreData(RuParts(rus), datas, used, ru.Owned(), data);
    assert RuParts(rus + [ru]) == RuParts(rus) + [ru.Owned()];
  }

  /** The readout units of all nodes. `used` holds their objects and the data buffers. */
  method MakeReadoutUnits(sizes: Sizes, payloads: seq<seq<nat>>)
    returns (rus: seq<ReadoutUnit>, datas: seq<array<EventHeader>>, ghost used: set<object>)
    requires sizes.Accepted() && forall r :: 0 <= r < |payloads| ==> sizes.Draws(payloads[r])
    ensures |rus| == |payloads| && fresh(used) && AllRusStart(rus, datas, |payloads|, sizes, payloads, used)
  {
    rus, datas, used := [], [], {};
    for r := 0 to |payloads|
      invariant |rus| == r && fresh(used) && AllRusStart(rus, datas, |payloads|, sizes, payloads, used)
    {
      var ru, data := ConnectReadoutUnit(r, |payloads|, sizes, payloads[r]);
      OneMoreRu(rus, datas, |payloads|, sizes, payloads, used, ru, data);
      rus, datas, used := rus + [ru], datas + [data], used + ru.Owned() + {data};
    }
  }

  ghost predicate BuStarts(bu: BuilderUnit, n: nat, sizes: Sizes)
    reads bu.Owned()
  {
    && bu.Valid() && bu.InMemory() && |bu.conns| == n
    && bu.credits == sizes.credits && bu.chunkSize == sizes.maxFragment * sizes.bulk
    && forall i :: 0 <= i < n ==> bu.dataVect[i] == []
  }

  method ConnectBuilderUnit(n: nat, sizes: Sizes) returns (bu: BuilderUnit)
    requires 0 < n && sizes.Accepted()
    ensures fresh(bu.Owned()) && BuStarts(bu, n, sizes)
  {
    var conns := MakeConns(n, sizes.credits);
    bu := MakeBuilderUnit(sizes, conns);
  }

  ghost predicate AllBusStart(bus: seq<BuilderUnit>, n: nat, sizes: Sizes, used: set<object>)
    reads used
  {
    && Separate(BuParts(bus), used)
    && forall k :: 0 <= k < |bus| ==> BuParts(bus)[k] <= used && BuStarts(bus[k], n, sizes)
  }

  lemma OneMoreBu(bus: seq<BuilderUnit>, n: nat, sizes: Sizes, used: set<object>, bu: BuilderUnit)
    requires AllBusStart(bus, n, sizes, used) && bu.Owned() !! used && BuStarts(bu, n, sizes)
    ensures AllBusStart(bus + [bu], n, sizes, used + bu.Owned())
  {
    OneMorePart(BuParts(bus), used, bu.Owned(), {});
    assert BuParts(bus + [bu]) == BuParts(bus) + [bu.Owned()] && used + bu.Owned() + {} == used + bu.Owned();
  }

  method MakeBuilderUnits(n: nat, sizes: Sizes) returns (bus: seq<BuilderUnit>, ghost used: set<object>)
    requires 0 < n && sizes.Accepted()
    ensures |bus| == n && fresh(used) && AllBusStart(bus, n, sizes, used)
  {
    bus, used := [], {};
    for k := 0 to n
      invariant |bus| == k && fresh(used) && AllBusStart(bus, n, sizes, used)
    {
      var bu := ConnectBuilderUnit(n, sizes);
      OneMoreBu(bus, n, sizes, used, bu);
      bus, used := bus + [bu], used + bu.Owned();
    }
  }

  lemma PartsAreApart(units: Units, used: set<object>, used': set<object>)
    requires Separate(RuParts(units.rus), used) && DataApart(RuParts(units.rus), units.datas, used)
    requires Separate(BuParts(units.bus), used') && used !! used'
    ensures Apart(units)
  {
    var rus, bus := RuParts(units.rus), BuParts(units.bus);
    forall r, r' | 0 <= r < r' < |units.rus|
      ensures units.rus[r].Owned() !! units.rus[r'].Owned()
    {
      assert rus[r] !! rus[r'];
    }
    forall k, k' | 0 <= k < k' < |units.bus|
      ensures units.bus[k].Owned() !! units.bus[k'].Owned()
    {
      assert bus[k] !! bus[k'];
    }
    forall r, k | 0 <= r < |units.rus| && 0 <= k < |units.bus|
      ensures units.rus[r].Owned() !! units.bus[k].Owned()
    {
      assert rus[r] <= used && bus[k] <= used';
    }
    forall d, r | d in units.datas && 0 <= r < |units.rus|
      ensures d !in units.rus[r].Owned()
    {
      assert d !in rus[r];
    }
    forall d, k | d in units.datas && 0 <= k < |units.bus|
      ensures d !in units.bus[k].Owned()
    {
      assert d in used && bus[k] <= used';
    }
  }

  /** The configuration that the nodes make up; `peer` is the order in which connections are accepted. */
  ghost function ConfigOf(rus: seq<ReadoutUnit>, sizes: Sizes, peer: seq<seq<nat>>): Config
    reads set r | r in rus :: r.accumulator.metadata
  {
    Config(|rus|, sizes.bulk, sizes.credits, sizes.maxFragment,
           seq(|rus|, r requires 0 <= r < |rus| reads (set x | x in rus :: x.accumulator.metadata) =>
                 rus[r].Store()),
           peer)
  }

  /** All nodes of a system, constructed and connected, whatever lengths their generators have drawn. The
      protocol is in its initial state, and the data buffers hold what it will send, exactly when all
      payloads are suitable. */
  method Launch(sizes: Sizes, payloads: seq<seq<nat>>, ghost peer: seq<seq<nat>>)
    returns (units: Units, ghost cfg: Config)
    requires sizes.Accepted() && 0 < |payloads| == |peer|
    requires forall k :: 0 <= k < |peer| ==> IsPermutation(peer[k], |peer|)
    requires forall r :: 0 <= r < |payloads| ==> sizes.Draws(payloads[r])
    ensures cfg.n == |payloads| == |cfg.memories| == |units.datas| && SizesOf(cfg) == sizes && cfg.peer == peer
    ensures forall r :: 0 <= r < cfg.n ==> SetUp(cfg, r, payloads[r], units.datas[r][..])
    ensures Apart(units) && fresh(Objects(units)) && fresh(set d | d in units.datas)
    ensures Runs(cfg, [Init(cfg)], units) <==> forall r :: 0 <= r < cfg.n ==> sizes.Suits(payloads[r])
  {
    ghost var used, used';
    units, used, used' := MakeUnits(sizes, payloads);
    cfg := ConfigOf(units.rus, sizes, peer);
    LaunchIsInit(units, cfg, sizes, payloads, used, used');
  }

  method MakeUnits(sizes: Sizes, payloads: seq<seq<nat>>)
    returns (units: Units, ghost used: set<object>, ghost used': set<object>)
    requires sizes.Accepted() && 0 < |payloads|
    requires forall r :: 0 <= r < |payloads| ==> sizes.Draws(payloads[r])
    ensures |units.rus| == |units.bus| == |payloads| && Apart(units)
    ensures AllRusStart(units.rus, units.datas, |payloads|, sizes, payloads, used)
    ensures AllBusStart(units.bus, |payloads|, sizes, used')
    ensures fresh(Objects(units)) && fresh(set d | d in units.datas)
  {
    var rus, bus, datas;
    rus, datas, used := MakeReadoutUnits(sizes, payloads);
    bus, used' := MakeBuilderUnits(|payloads|, sizes);
    units := Units(rus, bus, datas);
    PartsAreApart(units, used, used');
    ObjectsAreUsed(units, used, used');
  }

  lemma ObjectsAreUsed(units: Units, used: set<object>, used': set<object>)
    requires Separate(RuParts(units.rus), used) && Separate(BuParts(units.bus), used')
    requires forall d :: d in units.datas ==> d in used
    ensures Objects(units) <= used + used' && (set d: object | d in units.datas) <= used
  {
    forall o | o in Objects(units)
      ensures o in used + used'
    {
      if r :| 0 <= r < |units.rus| && o in units.rus[r].Owned() {
        assert o in RuParts(units.rus)[r];
      } else {
        var k :| 0 <= k < |units.bus| && o in units.bus[k].Owned();
        assert o in BuParts(units.bus)[k];
      }
    }
  }

  /** What the construction leaves of the readout units, for a configuration made of it. */
  lemma RusStart(units: Units, cfg: Config, sizes: Sizes, payloads: seq<seq<nat>>, used: set<object>)
    requires 0 < cfg.n == |units.rus| == |payloads| == |cfg.peer| && sizes.Accepted()
    requires cfg == ConfigOf(units.rus, sizes, cfg.peer)
    requires forall k :: 0 <= k < cfg.n ==> IsPermutation(cfg.peer[k], cfg.n)
    requires AllRusStart(units.rus, units.datas, cfg.n, sizes, payloads, used)
    ensures forall r :: 0 <= r < cfg.n ==> SetUp(cfg, r, payloads[r], units.datas[r][..])
    ensures ValidConfig(cfg) <==> forall r :: 0 <= r < cfg.n ==> sizes.Suits(payloads[r])
    ensures ValidConfig(cfg) ==> forall r :: 0 <= r < cfg.n ==> RuAgrees(cfg, Init(cfg), r, units.rus[r])
    ensures ValidConfig(cfg) ==> AllStocked(cfg, units)
  {
    forall r | 0 <= r < cfg.n
      ensures SetUp(cfg, r, payloads[r], units.datas[r][..])
      ensures units.rus[r].Valid() <==> sizes.Suits(payloads[r])
    {
      assert RuStarts(units.rus[r], r, cfg.n, sizes, payloads[r], units.datas[r]);
    }
    var stored := seq(cfg.n, r requires 0 <= r < cfg.n reads (set d | d in units.datas) => units.datas[r][..]);
    SetupIsValid(cfg, payloads, stored);
    if ValidConfig(cfg) {
      forall r | 0 <= r < cfg.n
        ensures RuAgrees(cfg, Init(cfg), r, units.rus[r]) && Stocked(cfg, r, units.datas[r][..])
      {
        assert RuStarts(units.rus[r], r, cfg.n, sizes, payloads[r], units.datas[r]);
        IsStocked(cfg, r, payloads[r], units.datas[r][..]);
      }
    }
  }

  lemma IsStocked(cfg: Config, r: nat, payloads: seq<nat>, data: seq<EventHeader>)
    requires ValidConfig(cfg) && r < cfg.n && SetUp(cfg, r, payloads, data)
    ensures Stocked(cfg, r, data)
  {
    forall t: nat
      ensures cfg.memories[r].Base(t) < |data| && data[cfg.memories[r].Base(t)] == Message(cfg, r, t)
    {
      MessageIsInData(cfg, r, payloads, data, t);
    }
  }

  lemma BusStart(units: Units, cfg: Config, sizes: Sizes, used: set<object>)
    requires ValidConfig(cfg) && cfg.n == |units.bus| && SizesOf(cfg) == sizes && sizes.Accepted()
    requires AllBusStart(units.bus, cfg.n, sizes, used)
    ensures forall k :: 0 <= k < cfg.n ==> BuAgrees(cfg, Init(cfg), k, units.bus[k])
  {
    forall k | 0 <= k < cfg.n
      ensures BuAgrees(cfg, Init(cfg), k, units.bus[k])
    {
      var bu := units.bus[k];
      assert BuStarts(bu, cfg.n, sizes);
      ChunksAreNotEmpty(sizes);
      FreshMirrors(cfg, k, Layout(bu.chunkSize, bu.credits), bu.dataVect, bu.memory[..]);
    }
  }

  lemma ChunksAreNotEmpty(sizes: Sizes)
    requires sizes.Accepted()
    ensures 0 < sizes.maxFragment * sizes.bulk
  {
  }

  lemma LaunchIsInit(units: Units, cfg: Config, sizes: Sizes, payloads: seq<seq<nat>>,
                     used: set<object>, used': set<object>)
    requires 0 < cfg.n == |units.rus| == |units.bus| == |units.datas| == |payloads| == |cfg.peer| && sizes.Accepted()
    requires cfg == ConfigOf(units.rus, sizes, cfg.peer) && Apart(units)
    requires forall k :: 0 <= k < cfg.n ==> IsPermutation(cfg.peer[k], cfg.n)
    requires AllRusStart(units.rus, units.datas, cfg.n, sizes, payloads, used)
    requires AllBusStart(units.bus, cfg.n, sizes, used')
    ensures forall r :: 0 <= r < cfg.n ==> SetUp(cfg, r, payloads[r], units.datas[r][..])
    ensures Runs(cfg, [Init(cfg)], units) <==> forall r :: 0 <= r < cfg.n ==> sizes.Suits(payloads[r])
  {
    RusStart(units, cfg, sizes, payloads, used);
    if ValidConfig(cfg) {
      BusStart(units, cfg, sizes, used');
      InitInv(cfg);
    }
  }

  lemma SuitsInExample()
    ensures Sizes(1, 1, 96).Accepted() && Sizes(1, 1, 96).Draws([8, 8, 8]) && Sizes(1, 1, 96).Suits([8, 8, 8])
  {
  }

  lemma RunsEnd(cfg: Config)
    requires 2 * cfg.credits < cfg.n
    ensures forall run :: IsRun(cfg, run) ==> |run| <= Bound(cfg, 1) + 1
  {
    forall run | IsRun(cfg, run)
      ensures |run| <= Bound(cfg, 1) + 1
    {
      LastBuilderStarves(cfg, run, |run| - 1);
    }
  }

  /** Three nodes with one credit start up, and come to a standstill whatever they do. */
  method StandstillExample() returns (units: Units, ghost cfg: Config)
    ensures cfg.n == 3 && cfg.credits == 1 && Runs(cfg, [Init(cfg)], units)
    ensures forall run :: IsRun(cfg, run) ==> |run| <= Bound(cfg, 1) + 1
  {
    var sizes, payloads := Sizes(1, 1, 96), seq(3, _ => [8, 8, 8]);
    ghost var peer := seq(3, _ => [0, 1, 2]);
    assert IsPermutation([0, 1, 2], 3);
    SuitsInExample();
    assert forall r :: 0 <= r < 3 ==> sizes.Suits(payloads[r]);
    units, cfg := Launch(sizes, payloads, peer);
    RunsEnd(cfg);
  }
}
