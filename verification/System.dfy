/** All nodes together, as the program runs them: whatever turns the units take and whatever the
    network delivers, in whatever order, is a run of the protocol. */
module Systems {
  import opened BuilderTurns
  import opened BuilderUnits
  import opened DataFormat
  import opened Protocol
  import opened ReadoutUnits
  import opened Schedule
  import opened Sockets
  import opened Turns

  /** The fields of the readout unit of node `r` are those of the system's state. */
  ghost predicate RuAgrees(cfg: Config, s: State, r: nat, ru: ReadoutUnit)
    reads ru.Owned()
  {
    && ValidConfig(cfg) && r < cfg.n == |s.rus|
    && ru.Valid() && ru.id == r && |ru.conns| == cfg.n && ru.credits == cfg.credits
    && ru.Store() == cfg.memories[r] && ru.View() == s.rus[r]
  }

  ghost predicate BuAgrees(cfg: Config, s: State, k: nat, bu: BuilderUnit)
    reads bu.Owned()
  {
    && k < cfg.n == |s.bus|
    && bu.Valid() && bu.InMemory() && |bu.conns| == cfg.n && bu.credits == cfg.credits && 0 < bu.chunkSize
    && SameQueues(s, k, bu)
  }

  /** The two units of each node, and its data buffer. */
  datatype Units = Units(rus: seq<ReadoutUnit>, bus: seq<BuilderUnit>, datas: seq<array<EventHeader>>)

  ghost function Objects(units: Units): set<object> {
    (set r, o | 0 <= r < |units.rus| && o in units.rus[r].Owned() :: o)
    + (set k, o | 0 <= k < |units.bus| && o in units.bus[k].Owned() :: o)
  }

  /** No two units share an object, and none owns a data buffer. */
  ghost predicate Apart(units: Units) {
    && (forall r, r' :: 0 <= r < r' < |units.rus| ==> units.rus[r].Owned() !! units.rus[r'].Owned())
    && (forall k, k' :: 0 <= k < k' < |units.bus| ==> units.bus[k].Owned() !! units.bus[k'].Owned())
    && (forall r, k :: 0 <= r < |units.rus| && 0 <= k < |units.bus| ==> units.rus[r].Owned() !! units.bus[k].Owned())
    && (forall d, r :: d in units.datas && 0 <= r < |units.rus| ==> d !in units.rus[r].Owned())
    && (forall d, k :: d in units.datas && 0 <= k < |units.bus| ==> d !in units.bus[k].Owned())
  }

  /** What lies in a data buffer is what the protocol sends from there. */
  ghost predicate Stocked(cfg: Config, r: nat, data: seq<EventHeader>)
    requires ValidConfig(cfg) && r < cfg.n
  {
    var m := cfg.memories[r];
    forall t: nat :: m.Base(t) < |data| && data[m.Base(t)] == Message(cfg, r, t)
  }

  ghost predicate AllStocked(cfg: Config, units: Units)
    requires ValidConfig(cfg)
    reads set d | d in units.datas
  {
    |units.datas| == cfg.n && forall r :: 0 <= r < cfg.n ==> Stocked(cfg, r, units.datas[r][..])
  }

  ghost predicate AllAgree(cfg: Config, s: State, units: Units)
    reads Objects(units)
  {
    && |units.rus| == |units.bus| == cfg.n && Apart(units)
    && (forall r :: 0 <= r < |units.rus| ==> RuAgrees(cfg, s, r, units.rus[r]))
    && (forall k :: 0 <= k < |units.bus| ==> BuAgrees(cfg, s, k, units.bus[k]))
  }

  /** The units have run so far as the protocol has; the fields of all of them are those of its last
      state, and the data buffers hold what will be sent. */
  ghost predicate Runs(cfg: Config, run: seq<State>, units: Units)
    reads Objects(units), set d | d in units.datas
  {
    IsRun(cfg, run) && Inv(cfg, Last(run)) && AllAgree(cfg, Last(run), units) && AllStocked(cfg, units)
  }

  function Last(run: seq<State>): State
    requires run != []
  {
    run[|run| - 1]
  }

  /** The data buffers, and what belongs to neither the readout unit of node `r` nor the builder unit of
      node `k`, where there are such nodes. */
  ghost function Others(units: Units, r: nat, k: nat): (others: set<object>) {
    (set x, o | 0 <= x < |units.rus| && x != r && o in units.rus[x].Owned() :: o)
    + (set x, o | 0 <= x < |units.bus| && x != k && o in units.bus[x].Owned() :: o)
    + (set d | d in units.datas)
  }

  /** Where the units of nodes `r` and `k` agree with a further state, all do: the others do not notice. */
  twostate lemma OthersStay(units: Units, new cfg: Config, new run: seq<State>, new longer: seq<State>,
                            new r: nat, new k: nat)
    requires old(Runs(cfg, run, units)) && unchanged(Others(units, r, k))
    requires IsRun(cfg, longer) && Inv(cfg, Last(longer))
    requires forall x :: 0 <= x < cfg.n && x != r ==> Last(longer).rus[x] == Last(run).rus[x]
    requires forall x :: 0 <= x < cfg.n && x != k ==> SameButWires(Last(run).bus[x].conns, Last(longer).bus[x].conns)
    requires r < cfg.n ==> RuAgrees(cfg, Last(longer), r, units.rus[r])
    requires k < cfg.n ==> BuAgrees(cfg, Last(longer), k, units.bus[k])
    ensures Runs(cfg, longer, units)
  {
    forall x | 0 <= x < cfg.n && x != r
      ensures RuAgrees(cfg, Last(longer), x, units.rus[x])
    {
      RuStays(units, cfg, Last(run), Last(longer), r, k, x);
    }
    forall x | 0 <= x < cfg.n && x != k
      ensures BuAgrees(cfg, Last(longer), x, units.bus[x])
    {
      BuStays(units, cfg, Last(run), Last(longer), r, k, x);
    }
  }

  ghost predicate SameQueues(s: State, k: nat, bu: BuilderUnit)
    requires k < |s.bus|
    reads bu.Owned()
  {
    AllMirror(Layout(bu.chunkSize, bu.credits), s.bus[k].conns, bu.dataVect, bu.memory[..])
  }

  twostate lemma RuStays(units: Units, new cfg: Config, new s: State, new s': State, new r: nat, new k: nat, new x: nat)
    requires x < |units.rus| && x != r && old(RuAgrees(cfg, s, x, units.rus[x])) && unchanged(Others(units, r, k))
    requires |s'.rus| == |s.rus| && s'.rus[x] == s.rus[x]
    ensures RuAgrees(cfg, s', x, units.rus[x])
  {
    units.rus[x].Untouched(Others(units, r, k));
  }

  twostate lemma BuStays(units: Units, new cfg: Config, new s: State, new s': State, new r: nat, new k: nat, new x: nat)
    requires x < |units.bus| && x != k && old(BuAgrees(cfg, s, x, units.bus[x])) && unchanged(Others(units, r, k))
    requires |s'.bus| == |s.bus| && SameButWires(s.bus[x].conns, s'.bus[x].conns)
    ensures BuAgrees(cfg, s', x, units.bus[x])
  {
    var bu := units.bus[x];
    bu.Untouched(Others(units, r, k));
    WiresAreUnseen(Layout(bu.chunkSize, bu.credits), s.bus[x].conns, s'.bus[x].conns, bu.dataVect, bu.memory[..]);
  }

  // ---- turns of readout units

  /** How a turn of a readout unit changes the state of the system. */
  ghost predicate ReadoutTurned(cfg: Config, s: State, r: nat, dues: seq<nat>, completions: seq<seq<nat>>,
                                got: nat, sent: bool, steps: seq<Step>, s': State)
  {
    && Inv(cfg, s) && Inv(cfg, s') && r < cfg.n == |completions| && |dues| == cfg.n
    && Round(SiteOf(cfg, r), s.rus[r], dues, completions, got, sent, s'.rus[r])
    && Performs(cfg, s, steps, s') && |steps| == Moves(s.rus[r], got, sent, s'.rus[r])
    && s'.rus == s.rus[r := s'.rus[r]]
    && (var received := WithRu(s, r, Completed(cfg, s, r, got, completions));
        if sent then SendsNext(cfg, received, r, s') else s' == received)
    && (CanMove(cfg, s, r) && ClockIsDue(cfg, s, r, dues) && Exhaustive(cfg, s, r, completions) ==> steps != [])
  }

  lemma OnlyWiresChange(cfg: Config, s: State, r: nat, dues: seq<nat>, completions: seq<seq<nat>>,
                        got: nat, sent: bool, steps: seq<Step>, s': State)
    requires ReadoutTurned(cfg, s, r, dues, completions, got, sent, steps, s')
    ensures OnlyWires(s, s')
  {
    if sent {
      SendIsOnWire(cfg, WithRu(s, r, Completed(cfg, s, r, got, completions)), r, s');
    }
  }

  /** A turn of a readout unit, seen from outside. */
  method TakeReadoutTurn(ru: ReadoutUnit, dues: seq<nat>, completions: seq<seq<nat>>, ghost cfg: Config, ghost s: State,
                         ghost others: set<object>)
    returns (sent: bool, ghost got: nat, ghost steps: seq<Step>, ghost s': State)
    requires Inv(cfg, s) && RuAgrees(cfg, s, ru.id, ru) && ru.Owned() !! others
    requires |dues| == cfg.n && Ordered(dues) && ru.accumulator.controller.lastDue <= dues[0]
    requires Answers(ru.Pending(), completions) && Trustworthy(cfg, s, ru.id, completions)
    modifies ru.Owned()
    ensures unchanged(others) && RuAgrees(cfg, s', ru.id, ru)
    ensures ru.accumulator.controller.lastDue <= dues[cfg.n - 1]
    ensures ReadoutTurned(cfg, s, ru.id, dues, completions, got, sent, steps, s')
  {
    sent, got, steps, s' := ReadoutTurn(ru, dues, completions, cfg, s);
  }

  /** The readout unit of node `r` takes a turn. */
  method RuTurn(units: Units, r: nat, dues: seq<nat>, completions: seq<seq<nat>>, ghost cfg: Config,
                ghost run: seq<State>)
    returns (sent: bool, ghost got: nat, ghost steps: seq<Step>, ghost longer: seq<State>)
    requires Runs(cfg, run, units) && r < |units.rus|
    requires |dues| == |units.rus| && Ordered(dues) && units.rus[r].accumulator.controller.lastDue <= dues[0]
    requires Answers(units.rus[r].Pending(), completions) && Trustworthy(cfg, Last(run), r, completions)
    modifies units.rus[r].Owned()
    ensures Runs(cfg, longer, units) && run <= longer && |longer| == |run| + |steps|
    ensures units.rus[r].accumulator.controller.lastDue <= dues[cfg.n - 1]
    ensures ReadoutTurned(cfg, Last(run), r, dues, completions, got, sent, steps, Last(longer))
  {
    ghost var s, others := Last(run), Others(units, r, cfg.n);
    ghost var s';
    RuIsApart(units, r);
    sent, got, steps, s' := TakeReadoutTurn(units.rus[r], dues, completions, cfg, s, others);
    longer := Continue(cfg, run, steps, s');
    OnlyWiresChange(cfg, s, r, dues, completions, got, sent, steps, s');
    OthersStay(units, cfg, run, longer, r, cfg.n);
  }

  // ---- turns of builder units

  /** How a turn of a builder unit changes the state of the system: everything that is reported is
      polled, and then all complete rows are built. */
  ghost predicate BuilderTurned(cfg: Config, s: State, k: nat, completions: seq<seq<nat>>, rows: nat, steps: seq<Step>,
                                s': State)
  {
    && Inv(cfg, s) && k < cfg.n && WithinArrived(s.bus[k], completions)
    && s' == WithBu(s, k, TurnedBu(s.bus[k], completions, cfg.credits)) && LeadsOn(cfg, s, k, completions, steps)
    && rows == MinRows(PolledBu(s.bus[k], completions).conns, cfg.credits)
    && (CanBuild(cfg, s, k) && ReportsAll(s.bus[k], completions) ==> steps != [])
  }

  /** The network reports arrivals on every connection in the order in which they happened. */
  ghost predicate AllReport(cfg: Config, s: State, k: nat, bu: BuilderUnit, completions: seq<seq<nat>>)
    requires Shaped(cfg, s) && k < cfg.n
  {
    && |completions| == cfg.n
    && forall i :: 0 <= i < cfg.n ==> Reports(Layout(bu.chunkSize, bu.credits), i, s.bus[k].conns[i], completions[i])
  }

  /** A turn of a builder unit, seen from outside. */
  method TakeBuilderTurn(bu: BuilderUnit, completions: seq<seq<nat>>, ghost cfg: Config, ghost s: State, ghost k: nat,
                         ghost others: set<object>)
    returns (rows: nat, ghost steps: seq<Step>)
    requires Inv(cfg, s) && BuAgrees(cfg, s, k, bu) && AllReport(cfg, s, k, bu, completions) && bu.Owned() !! others
    modifies bu.Owned()
    ensures WithinArrived(s.bus[k], completions)
    ensures var s' := WithBu(s, k, TurnedBu(s.bus[k], completions, cfg.credits));
            BuilderTurned(cfg, s, k, completions, rows, steps, s') && unchanged(others) && BuAgrees(cfg, s', k, bu)
  {
    rows, steps := BuilderTurn(bu, completions, cfg, s, k);
  }

  /** The builder unit of node `k` takes a turn. Its check of the event ids succeeds. */
  method BuTurn(units: Units, k: nat, completions: seq<seq<nat>>, ghost cfg: Config, ghost run: seq<State>)
    returns (rows: nat, ghost steps: seq<Step>, ghost longer: seq<State>)
    requires Runs(cfg, run, units) && k < |units.bus| && AllReport(cfg, Last(run), k, units.bus[k], completions)
    modifies units.bus[k].Owned()
    ensures Runs(cfg, longer, units) && run <= longer && |longer| == |run| + |steps|
    ensures BuilderTurned(cfg, Last(run), k, completions, rows, steps, Last(longer))
  {
    ghost var s, others := Last(run), Others(units, cfg.n, k);
    BuIsApart(units, k);
    rows, steps := TakeBuilderTurn(units.bus[k], completions, cfg, s, k, others);
    ghost var s' := WithBu(s, k, TurnedBu(s.bus[k], completions, cfg.credits));
    longer := Continue(cfg, run, steps, s');
    OthersStay(units, cfg, run, longer, cfg.n, k);
  }

  // ---- deliveries

  lemma RuIsApart(units: Units, r: nat)
    requires Apart(units) && r < |units.rus|
    ensures units.rus[r].Owned() !! Others(units, r, |units.bus|)
  {
  }

  lemma BuIsApart(units: Units, k: nat)
    requires Apart(units) && k < |units.bus|
    ensures units.bus[k].Owned() !! Others(units, |units.rus|, k)
  {
  }

  /** How a delivery changes the state of the system. */
  ghost predicate Arrives(cfg: Config, s: State, k: nat, i: nat, chunk: nat, message: EventHeader, s': State) {
    && Inv(cfg, s) && Enabled(cfg, s, DeliverStep(k, i, chunk)) && s' == Apply(cfg, s, DeliverStep(k, i, chunk))
    && message == s.bus[k].conns[i].wire[0]
  }

  lemma DeliveryGoesOn(cfg: Config, run: seq<State>, k: nat, i: nat, chunk: nat, message: EventHeader, s': State)
    requires IsRun(cfg, run) && Arrives(cfg, Last(run), k, i, chunk, message, s')
    ensures var s := Last(run);
            && IsRun(cfg, run + [s']) && Inv(cfg, s') && s'.rus == s.rus && |s'.bus| == |s.bus|
            && forall x :: 0 <= x < cfg.n && x != k ==> SameButWires(s.bus[x].conns, s'.bus[x].conns)
  {
    StepKeepsInv(cfg, Last(run), DeliverStep(k, i, chunk));
    RunGoesOn(cfg, run, DeliverStep(k, i, chunk));
  }

  /** The network writes the oldest message on a connection into a receive buffer that is posted. */
  method NetworkDelivers(units: Units, k: nat, i: nat, chunk: nat, message: EventHeader, ghost cfg: Config,
                         ghost run: seq<State>, ghost s': State)
    returns (ghost longer: seq<State>)
    requires Runs(cfg, run, units) && k < |units.bus| && Arrives(cfg, Last(run), k, i, chunk, message, s')
    modifies units.bus[k].memory
    ensures Runs(cfg, longer, units) && longer == run + [s']
  {
    ghost var s, others := Last(run), Others(units, cfg.n, k);
    BuIsApart(units, k);
    DeliveryGoesOn(cfg, run, k, i, chunk, message, s');
    Receive(units.bus[k], i, chunk, message, cfg, s, k, s', others);
    longer := run + [s'];
    OthersStay(units, cfg, run, longer, cfg.n, k);
  }

  method Receive(bu: BuilderUnit, i: nat, chunk: nat, message: EventHeader, ghost cfg: Config, ghost s: State,
                 ghost k: nat, ghost s': State, ghost others: set<object>)
    requires BuAgrees(cfg, s, k, bu) && bu.Owned() !! others && Arrives(cfg, s, k, i, chunk, message, s')
    modifies bu.memory
    ensures unchanged(others) && BuAgrees(cfg, s', k, bu)
  {
    ghost var l, memory := Layout(bu.chunkSize, bu.credits), bu.memory[..];
    assert LinkOk(cfg, s, k, i);
    ChunkMembers(bu.chunkSize, bu.credits, i, bu.credits, l.Base(i, chunk));
    DeliverPreserves(cfg, s, k, i, chunk, l, bu.dataVect, memory);
    bu.memory[ChunkBase(bu.chunkSize, bu.credits, i, chunk)] := message;
    assert bu.memory[..] == memory[l.Base(i, chunk) := message];
  }
}
