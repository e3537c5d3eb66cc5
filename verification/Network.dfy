/** What the clock and the network can do next, and that the program goes on when they do. */
module Networks {
  import opened BuilderTurns
  import opened BuilderUnits
  import opened Bundles
  import opened DataFormat
  import opened Prefix
  import opened Progress
  import opened Protocol
  import opened ReadoutUnits
  import opened Schedule
  import opened Sockets
  import opened Systems
  import opened Turns

  // ---- reports to a readout unit

  lemma {:induction false} Enumerate(keys: set<nat>) returns (list: seq<nat>)
    ensures Distinct(list) && Elements(list) == keys
  {
    if keys == {} {
      list := [];
    } else {
      var key :| key in keys;
      var rest := Enumerate(keys - {key});
      list := rest + [key];
      assert Elements(list) == Elements(rest) + {key};
    }
  }

  /** The keys of one connection whose messages have arrived. */
  ghost function ArrivedKeys(cfg: Config, s: State, r: nat, k: nat): set<nat>
    requires Shaped(cfg, s) && r < cfg.n && k < cfg.n
  {
    set j | j in PendingOn(r, cfg.n, s.rus[r], k) && HasArrived(cfg, s, r, Mev(cfg.n, k, j)) ::
      cfg.memories[r].Base(Mev(cfg.n, k, j))
  }

  lemma {:induction false} ReportAll(cfg: Config, s: State, r: nat, x: nat) returns (completions: seq<seq<nat>>)
    requires Shaped(cfg, s) && r < cfg.n && x <= cfg.n
    ensures |completions| == x
    ensures forall k :: 0 <= k < x ==>
              Distinct(completions[k]) && Elements(completions[k]) == ArrivedKeys(cfg, s, r, k)
  {
    if x == 0 {
      completions := [];
    } else {
      var list := Enumerate(ArrivedKeys(cfg, s, r, x - 1));
      var before := ReportAll(cfg, s, r, x - 1);
      completions := before + [list];
    }
  }

  /** A multievent in flight is identified by its address. */
  lemma InFlightIsUnique(cfg: Config, s: State, r: nat, t: nat, u: nat)
    requires Inv(cfg, s) && r < cfg.n && Unfinished(cfg, s, r, t) && Unfinished(cfg, s, r, u)
    requires cfg.memories[r].Base(t) == cfg.memories[r].Base(u)
    ensures t == u
  {
    var ru := s.rus[r];
    SentIsAcquired(r, cfg.n, cfg.credits, ru, t);
    SentIsAcquired(r, cfg.n, cfg.credits, ru, u);
    if t < u {
      BasesDiffer(cfg.memories[r], t, u);
    } else if u < t {
      BasesDiffer(cfg.memories[r], u, t);
    }
  }

  /** The reports name the addresses of what has arrived. */
  ghost predicate Exact(cfg: Config, s: State, r: nat, completions: seq<seq<nat>>)
    requires Shaped(cfg, s) && r < cfg.n
  {
    |completions| == cfg.n && forall k :: 0 <= k < cfg.n ==> Elements(completions[k]) == ArrivedKeys(cfg, s, r, k)
  }

  lemma InFlightIsPending(r: nat, n: nat, ru: Ru, t: nat)
    requires r < n && Sent(r, n, ru, t) && t !in ru.done
    ensures t / n in PendingOn(r, n, ru, t % n) && Mev(n, t % n, t / n) == t
  {
    MevSplit(n, t);
  }

  lemma ArrivedIsReported(cfg: Config, s: State, r: nat, completions: seq<seq<nat>>, t: nat)
    requires Inv(cfg, s) && r < cfg.n && Exact(cfg, s, r, completions)
    requires Unfinished(cfg, s, r, t) && HasArrived(cfg, s, r, t)
    ensures IsReported(cfg, r, completions, t)
  {
    InFlightIsPending(r, cfg.n, s.rus[r], t);
    assert cfg.memories[r].Base(t) in Elements(completions[t % cfg.n]);
    GatherMembers(r, cfg.n, completions, cfg.n, cfg.memories[r].Base(t));
  }

  lemma ReportedHasArrived(cfg: Config, s: State, r: nat, completions: seq<seq<nat>>, t: nat)
    requires Inv(cfg, s) && r < cfg.n && Exact(cfg, s, r, completions)
    requires Unfinished(cfg, s, r, t) && IsReported(cfg, r, completions, t)
    ensures HasArrived(cfg, s, r, t)
  {
    var key := cfg.memories[r].Base(t);
    GatherMembers(r, cfg.n, completions, cfg.n, key);
    var k :| 0 <= k < cfg.n && key in completions[k];
    assert key in Elements(completions[k]);
    var u := ArrivedWith(cfg, s, r, k, key);
    InFlightIsUnique(cfg, s, r, t, u);
  }

  lemma ArrivedWith(cfg: Config, s: State, r: nat, k: nat, key: nat) returns (t: nat)
    requires Shaped(cfg, s) && r < cfg.n && k < cfg.n && key in ArrivedKeys(cfg, s, r, k)
    ensures Unfinished(cfg, s, r, t) && HasArrived(cfg, s, r, t) && cfg.memories[r].Base(t) == key
  {
    var j :| j in PendingOn(r, cfg.n, s.rus[r], k) && HasArrived(cfg, s, r, Mev(cfg.n, k, j))
             && key == cfg.memories[r].Base(Mev(cfg.n, k, j));
    MevInverse(cfg.n, k, j);
    t := Mev(cfg.n, k, j);
  }

  /** The clock and the network can always report exactly what has happened. */
  lemma RuReportsExist(ru: ReadoutUnit, cfg: Config, s: State) returns (dues: seq<nat>, completions: seq<seq<nat>>)
    requires Inv(cfg, s) && RuAgrees(cfg, s, ru.id, ru)
    ensures RuOffer(ru, cfg, s, dues, completions)
    ensures ClockIsDue(cfg, s, ru.id, dues) && Exhaustive(cfg, s, ru.id, completions)
  {
    var r, due, needed := ru.id, ru.accumulator.controller.lastDue, cfg.bulk * (s.rus[ru.id].acquired + 1);
    dues := seq(cfg.n, _ => if due < needed then needed else due);
    completions := ReportAll(cfg, s, r, cfg.n);
    forall k | 0 <= k < cfg.n
      ensures AllPending(ru.Pending()[k], completions[k])
    {
      ArrivedIsPending(ru, cfg, s, k, completions[k]);
    }
    forall t: nat | Unfinished(cfg, s, r, t) && IsReported(cfg, r, completions, t)
      ensures HasArrived(cfg, s, r, t)
    {
      ReportedHasArrived(cfg, s, r, completions, t);
    }
    forall t: nat | Unfinished(cfg, s, r, t) && HasArrived(cfg, s, r, t)
      ensures IsReported(cfg, r, completions, t)
    {
      ArrivedIsReported(cfg, s, r, completions, t);
    }
  }

  lemma ArrivedIsPending(ru: ReadoutUnit, cfg: Config, s: State, k: nat, list: seq<nat>)
    requires Shaped(cfg, s) && RuAgrees(cfg, s, ru.id, ru) && k < cfg.n
    requires Distinct(list) && Elements(list) == ArrivedKeys(cfg, s, ru.id, k)
    ensures AllPending(ru.Pending()[k], list)
  {
    forall i | 0 <= i < |list|
      ensures list[i] in ru.Pending()[k]
    {
      assert list[i] in Elements(list);
      assert list[i] in KeysOn(ru.Here(), ru.View(), k);
      assert KeysOf(ru.Pending())[k] == KeysOn(ru.Here(), ru.View(), k);
    }
  }

  // ---- reports to a builder unit

  lemma BuReportsExist(bu: BuilderUnit, cfg: Config, s: State, k: nat) returns (completions: seq<seq<nat>>)
    requires Shaped(cfg, s) && k < cfg.n
    ensures AllReport(cfg, s, k, bu, completions) && ReportsAll(s.bus[k], completions)
  {
    var conns, l := s.bus[k].conns, Layout(bu.chunkSize, bu.credits);
    completions := seq(cfg.n, i requires 0 <= i < |conns| =>
      seq(|conns[i].arrived|, j requires 0 <= j < |conns[i].arrived| => l.Base(i, conns[i].arrived[j])));
  }

  // ---- what can happen next

  /** A unit takes its turn, or a message is delivered. */
  datatype Event =
    | RuEvent(r: nat, dues: seq<nat>, completions: seq<seq<nat>>)
    | BuEvent(k: nat, completions: seq<seq<nat>>)
    | Arrival(k: nat, i: nat, chunk: nat, message: EventHeader)

  /** Clock readings and reports that a readout unit may be given. */
  ghost predicate RuOffer(ru: ReadoutUnit, cfg: Config, s: State, dues: seq<nat>, completions: seq<seq<nat>>)
    requires Shaped(cfg, s) && ru.id < cfg.n
    reads ru.Owned()
  {
    && |dues| == cfg.n == |completions| && Ordered(dues) && ru.accumulator.controller.lastDue <= dues[0]
    && Answers(ru.Pending(), completions) && Trustworthy(cfg, s, ru.id, completions)
  }

  /** The event can happen now; if it is a turn, its unit has something to do and is told so. */
  ghost predicate Possible(units: Units, cfg: Config, s: State, e: Event)
    requires Shaped(cfg, s) && |units.rus| == |units.bus| == cfg.n
    requires forall r :: 0 <= r < cfg.n ==> units.rus[r].id == r
    reads Objects(units)
  {
    match e
    case RuEvent(r, dues, completions) =>
      && r < cfg.n && RuOffer(units.rus[r], cfg, s, dues, completions)
      && CanMove(cfg, s, r) && ClockIsDue(cfg, s, r, dues) && Exhaustive(cfg, s, r, completions)
    case BuEvent(k, completions) =>
      && k < cfg.n && AllReport(cfg, s, k, units.bus[k], completions)
      && CanBuild(cfg, s, k) && ReportsAll(s.bus[k], completions)
    case Arrival(k, i, chunk, message) =>
      Enabled(cfg, s, DeliverStep(k, i, chunk)) && message == s.bus[k].conns[i].wire[0]
  }

  /** What the predicates above ask for. */
  lemma RunsAreShaped(units: Units, cfg: Config, run: seq<State>)
    requires Runs(cfg, run, units)
    ensures Shaped(cfg, Last(run)) && |units.rus| == |units.bus| == cfg.n
    ensures forall r :: 0 <= r < cfg.n ==> units.rus[r].id == r && RuAgrees(cfg, Last(run), r, units.rus[r])
  {
  }

  /** The program does not come to a standstill: something can always happen next. */
  lemma KeepsGoing(units: Units, cfg: Config, run: seq<State>) returns (e: Event)
    requires Runs(cfg, run, units) && cfg.n <= 2 * cfg.credits
    ensures Shaped(cfg, Last(run)) && |units.rus| == |units.bus| == cfg.n
    ensures forall r :: 0 <= r < cfg.n ==> units.rus[r].id == r
    ensures Possible(units, cfg, Last(run), e)
  {
    var s := Last(run);
    RunsAreShaped(units, cfg, run);
    NoStandstill(cfg, s);
    if k: nat, i: nat, chunk: nat :| Enabled(cfg, s, DeliverStep(k, i, chunk)) {
      e := Arrival(k, i, chunk, s.bus[k].conns[i].wire[0]);
    } else if r :| 0 <= r < cfg.n && CanMove(cfg, s, r) {
      var dues, completions := RuReportsExist(units.rus[r], cfg, s);
      e := RuEvent(r, dues, completions);
    } else {
      var k :| 0 <= k < cfg.n && CanBuild(cfg, s, k);
      var completions := BuReportsExist(units.bus[k], cfg, s, k);
      e := BuEvent(k, completions);
    }
  }

  lemma OwnedAreObjects(units: Units)
    ensures forall r :: 0 <= r < |units.rus| ==> units.rus[r].Owned() <= Objects(units)
    ensures forall k :: 0 <= k < |units.bus| ==> units.bus[k].Owned() <= Objects(units)
  {
  }

  /** Whatever happens next takes the program further. */
  method Proceed(units: Units, e: Event, ghost cfg: Config, ghost run: seq<State>) returns (ghost longer: seq<State>)
    requires Runs(cfg, run, units) && Possible(units, cfg, Last(run), e)
    modifies Objects(units)
    ensures Runs(cfg, longer, units) && run <= longer && |run| < |longer|
  {
    OwnedAreObjects(units);
    match e
    case RuEvent(r, dues, completions) =>
      var _, _, _, more := RuTurn(units, r, dues, completions, cfg, run);
      longer := more;
    case BuEvent(k, completions) =>
      var _, _, more := BuTurn(units, k, completions, cfg, run);
      longer := more;
    case Arrival(k, i, chunk, message) =>
      longer := NetworkDelivers(units, k, i, chunk, message, cfg, run, Apply(cfg, Last(run), DeliverStep(k, i, chunk)));
  }

  /** Once the run is long enough, every builder unit has built the rows. */
  lemma BuildsRows(units: Units, cfg: Config, run: seq<State>, rows: nat, k: nat)
    requires Runs(cfg, run, units) && k < cfg.n && Bound(cfg, rows) + 1 < |run|
    ensures rows <= Last(run).bus[k].rows
  {
    EveryBuilderAdvances(cfg, run, rows, k);
  }
}
