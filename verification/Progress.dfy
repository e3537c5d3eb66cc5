/** When the system keeps going: never stuck if `n <= 2 * credits`, always stuck in the end if not. */
module Progress {
  import opened Prefix
  import opened Ring
  import opened Schedule
  import opened Protocol

  ghost predicate Stuck(cfg: Config, s: State) {
    Inv(cfg, s) && forall step :: !Enabled(cfg, s, step)
  }

  /** With nothing to deliver or poll, a fragment stays on the wire only in front of a full queue. */
  lemma StuckLink(cfg: Config, s: State, k: nat, i: nat)
    requires Stuck(cfg, s) && k < cfg.n && i < cfg.n
    ensures s.bus[k].conns[i].arrived == []
    ensures s.bus[k].conns[i].wire != [] ==> |s.bus[k].conns[i].queue| == cfg.credits
  {
    var c := s.bus[k].conns[i];
    assert LinkOk(cfg, s, k, i);
    HeldBound(cfg.credits, c);
    assert !Enabled(cfg, s, PollStep(k, i, 1));
    if c.wire != [] && c.posted != {} {
      var chunk :| chunk in c.posted;
      assert Enabled(cfg, s, DeliverStep(k, i, chunk));
    }
  }

  /** Some unit has nothing more under way to `k` than the rows already built there. */
  lemma StuckRow(cfg: Config, s: State, k: nat) returns (r: nat)
    requires Stuck(cfg, s) && k < cfg.n
    ensures r < cfg.n && SentTo(r, cfg.n, s.rus[r], k) == s.bus[k].rows
  {
    var conns := s.bus[k].conns;
    if 0 < MinRows(conns, cfg.credits) {
      CheckNeverFails(cfg, s, k);
      assert Enabled(cfg, s, BuildStep(k));
    }
    var i :| 0 <= i < cfg.n && |conns[i].queue| == 0;
    StuckLink(cfg, s, k, i);
    assert LinkOk(cfg, s, k, i);
    r := cfg.peer[k][i];
  }

  /** What a unit still has in flight to `k` is exactly what is on the wire. */
  lemma StuckPending(cfg: Config, s: State, r: nat, k: nat) returns (i: nat)
    requires Stuck(cfg, s) && r < cfg.n && k < cfg.n
    ensures i < cfg.n && cfg.peer[k][i] == r
    ensures |PendingOn(r, cfg.n, s.rus[r], k)| == |s.bus[k].conns[i].wire|
    ensures PendingOn(r, cfg.n, s.rus[r], k) != {} ==> s.bus[k].rows + cfg.credits < SentTo(r, cfg.n, s.rus[r], k)
  {
    i := ConnectionOf(cfg, k, r);
    assert LinkOk(cfg, s, k, i);
    StuckLink(cfg, s, k, i);
    var c := s.bus[k].conns[i];
    var arrived := Delivered(s.bus[k].rows, c);
    forall j | j in PendingOn(r, cfg.n, s.rus[r], k)
      ensures arrived <= j
    {
      var t := Mev(cfg.n, k, j);
      MevInverse(cfg.n, k, j);
      if j < arrived {
        assert HasArrived(cfg, s, r, t);
        assert Enabled(cfg, s, CompleteStep(r, {t}));
      }
    }
    assert PendingOn(r, cfg.n, s.rus[r], k) == Interval(arrived, arrived + |c.wire|);
  }

  /** In a stuck state, whoever waits waits for a unit that is in an earlier cycle. */
  lemma StuckIsAhead(cfg: Config, s: State, r: nat) returns (behind: nat)
    requires Stuck(cfg, s) && cfg.n <= 2 * cfg.credits && r < cfg.n
    ensures behind < cfg.n && s.rus[behind].cycle < s.rus[r].cycle
  {
    var ru := s.rus[r];
    var k := Target(r, cfg.n, ru.pos);
    if ru.acquired <= Next(r, cfg.n, ru) {
      assert !Enabled(cfg, s, AcquireStep(r));
      k := FullMemoryIsInFlight(r, cfg.n, cfg.credits, ru);
      var _ := StuckPending(cfg, s, r, k);
    } else {
      var i := StuckPending(cfg, s, r, k);
      assert !Enabled(cfg, s, SendStep(r, i));
    }
    behind := StuckRow(cfg, s, k);
  }

  lemma NeverStuck(cfg: Config, s: State, r: nat)
    requires Stuck(cfg, s) && cfg.n <= 2 * cfg.credits && r < cfg.n
    ensures false
    decreases s.rus[r].cycle
  {
    var behind := StuckIsAhead(cfg, s, r);
    NeverStuck(cfg, s, behind);
  }

  /** Deadlock freedom. */
  lemma NoDeadlock(cfg: Config, run: seq<State>, x: nat)
    requires IsRun(cfg, run) && x < |run| && cfg.n <= 2 * cfg.credits
    ensures Shaped(cfg, run[x]) && exists step :: Enabled(cfg, run[x], step)
  {
    RunKeepsInv(cfg, run, x);
    if forall step :: !Enabled(cfg, run[x], step) {
      NeverStuck(cfg, run[x], 0);
    }
  }

  function Sum(xs: seq<nat>): nat {
    if xs == [] then 0 else Sum(xs[..|xs| - 1]) + xs[|xs| - 1]
  }

  lemma {:induction false} SumUpdate(xs: seq<nat>, i: nat, v: nat)
    requires i < |xs|
    ensures Sum(xs[i := v]) == Sum(xs) - xs[i] + v
  {
    var last := |xs| - 1;
    var ys := xs[i := v];
    if i < last {
      assert ys[..last] == xs[..last][i := v];
      SumUpdate(xs[..last], i, v);
    } else {
      assert ys[..last] == xs[..last];
    }
  }

  lemma {:induction false} SumBound(xs: seq<nat>, b: nat)
    requires forall i :: 0 <= i < |xs| ==> xs[i] <= b
    ensures Sum(xs) <= |xs| * b
  {
    if xs != [] {
      SumBound(xs[..|xs| - 1], b);
      MulMono(|xs| - 1, |xs|, b);
    }
  }

  /** Work done so far; every step adds to it. */
  function RuWork(n: nat, s: Ru): nat {
    s.acquired + s.cycle * n + s.pos + |s.done|
  }

  function ConnWork(rows: nat, c: Conn): nat {
    Delivered(rows, c) + rows + |c.queue|
  }

  function ConnWorks(b: Bu): seq<nat> {
    seq(|b.conns|, i requires 0 <= i < |b.conns| => ConnWork(b.rows, b.conns[i]))
  }

  function BuWork(b: Bu): nat {
    b.rows + Sum(ConnWorks(b))
  }

  function RuWorks(n: nat, s: State): seq<nat> {
    seq(|s.rus|, r requires 0 <= r < |s.rus| => RuWork(n, s.rus[r]))
  }

  function BuWorks(s: State): seq<nat> {
    seq(|s.bus|, k requires 0 <= k < |s.bus| => BuWork(s.bus[k]))
  }

  function Work(n: nat, s: State): nat {
    Sum(RuWorks(n, s)) + Sum(BuWorks(s))
  }

  lemma RuChange(n: nat, s: State, r: nat, ru: Ru)
    requires r < |s.rus| && RuWork(n, s.rus[r]) < RuWork(n, ru)
    ensures Work(n, s) < Work(n, s.(rus := s.rus[r := ru]))
  {
    var s' := s.(rus := s.rus[r := ru]);
    assert RuWorks(n, s') == RuWorks(n, s)[r := RuWork(n, ru)];
    SumUpdate(RuWorks(n, s), r, RuWork(n, ru));
    assert BuWorks(s') == BuWorks(s);
  }

  lemma BuChange(n: nat, s: State, k: nat, b: Bu)
    requires k < |s.bus|
    ensures Work(n, s.(bus := s.bus[k := b])) == Work(n, s) - BuWork(s.bus[k]) + BuWork(b)
  {
    var s' := s.(bus := s.bus[k := b]);
    assert BuWorks(s') == BuWorks(s)[k := BuWork(b)];
    SumUpdate(BuWorks(s), k, BuWork(b));
    assert RuWorks(n, s') == RuWorks(n, s);
  }

  lemma ConnChange(n: nat, s: State, k: nat, i: nat, c: Conn)
    requires k < |s.bus| && i < |s.bus[k].conns|
    ensures Work(n, WithConn(s, k, i, c))
         == Work(n, s) - ConnWork(s.bus[k].rows, s.bus[k].conns[i]) + ConnWork(s.bus[k].rows, c)
  {
    var b := s.bus[k];
    var b' := b.(conns := b.conns[i := c]);
    BuChange(n, s, k, b');
    assert ConnWorks(b') == ConnWorks(b)[i := ConnWork(b.rows, c)];
    SumUpdate(ConnWorks(b), i, ConnWork(b.rows, c));
  }

  lemma StepWorks(cfg: Config, s: State, step: Step)
    requires Inv(cfg, s) && Enabled(cfg, s, step)
    ensures Work(cfg.n, s) < Work(cfg.n, Apply(cfg, s, step))
  {
    match step
    case AcquireStep(r) =>
      RuChange(cfg.n, s, r, Acquire(s.rus[r]));
    case CompleteStep(r, ts) =>
      var ru, ru' := s.rus[r], Complete(s.rus[r], ts);
      var t :| t in ts;
      SubsetCard(ru.done + {t}, ru'.done);
      RuChange(cfg.n, s, r, ru');
    case SendStep(r, i) =>
      SendWorks(cfg, s, r, i);
    case DeliverStep(k, i, chunk) =>
      ConnChange(cfg.n, s, k, i, Deliver(s.bus[k].conns[i], chunk));
    case PollStep(k, i, m) =>
      ConnChange(cfg.n, s, k, i, Poll(s.bus[k].conns[i], m));
    case BuildStep(k) =>
      BuildWorks(cfg, s, k);
  }

  lemma SendWorks(cfg: Config, s: State, r: nat, i: nat)
    requires Inv(cfg, s) && Enabled(cfg, s, SendStep(r, i))
    ensures Work(cfg.n, s) < Work(cfg.n, Apply(cfg, s, SendStep(r, i)))
  {
    var ru := s.rus[r];
    var k := Target(r, cfg.n, ru.pos);
    var c := s.bus[k].conns[i];
    var sent := c.(wire := c.wire + [Message(cfg, r, Next(r, cfg.n, ru))]);
    MulMono(ru.cycle, ru.cycle + 1, cfg.n);
    ConnChange(cfg.n, s, k, i, sent);
    RuChange(cfg.n, WithConn(s, k, i, sent), r, Send(cfg.n, ru));
  }

  lemma BuildWorks(cfg: Config, s: State, k: nat)
    requires Inv(cfg, s) && Enabled(cfg, s, BuildStep(k))
    ensures Work(cfg.n, s) < Work(cfg.n, Apply(cfg, s, BuildStep(k)))
  {
    var b := s.bus[k];
    var m := MinRows(b.conns, cfg.credits);
    BuChange(cfg.n, s, k, Build(b, m));
    RowsCount(b, m);
  }

  /** Built rows count for more than the fragments they were made of. */
  lemma RowsCount(b: Bu, m: nat)
    requires forall i :: 0 <= i < |b.conns| ==> m <= |b.conns[i].queue|
    ensures BuWork(Build(b, m)) == BuWork(b) + m
  {
    forall i | 0 <= i < |b.conns|
      ensures ConnWorks(Build(b, m))[i] == ConnWorks(b)[i]
    {
      assert |Release(b.conns[i], m).queue| == |b.conns[i].queue| - m;
    }
    assert ConnWorks(Build(b, m)) == ConnWorks(b);
  }

  lemma RunStepWorks(cfg: Config, run: seq<State>, x: nat)
    requires IsRun(cfg, run) && x + 1 < |run|
    ensures Work(cfg.n, run[x]) < Work(cfg.n, run[x + 1])
  {
    var s, s' := run[x], run[x + 1];
    RunKeepsInv(cfg, run, x);
    assert IsStep(cfg, run, x);
    var step :| Enabled(cfg, s, step) && s' == Apply(cfg, s, step);
    StepWorks(cfg, s, step);
  }

  lemma {:induction false} RunWorks(cfg: Config, run: seq<State>, x: nat)
    requires IsRun(cfg, run) && x < |run|
    ensures x <= Work(cfg.n, run[x])
  {
    if 0 < x {
      RunWorks(cfg, run, x - 1);
      RunStepWorks(cfg, run, x - 1);
    }
  }

  /** More work than this cannot be done while some builder unit has built fewer than `rows` rows. */
  function Bound(cfg: Config, rows: nat): nat {
    var cycles := rows + 2 * cfg.credits;
    cfg.n * (3 * (cycles * cfg.n)) + cfg.n * (cycles + cfg.n * (2 * cycles))
  }

  lemma DoneIsAcquired(r: nat, n: nat, credits: nat, ru: Ru)
    requires r < n && RuInv(r, n, credits, ru)
    ensures |ru.done| <= ru.acquired
  {
    forall t | t in ru.done
      ensures t in Below(ru.acquired)
    {
      SentIsAcquired(r, n, credits, ru, t);
    }
    SubsetCard(ru.done, Below(ru.acquired));
  }

  lemma RuWorkBound(cfg: Config, s: State, k: nat, r: nat, rows: nat)
    requires Inv(cfg, s) && k < cfg.n && r < cfg.n && s.bus[k].rows < rows
    ensures s.rus[r].cycle < rows + 2 * cfg.credits
    ensures RuWork(cfg.n, s.rus[r]) <= 3 * ((rows + 2 * cfg.credits) * cfg.n)
  {
    var ru := s.rus[r];
    SendsAboveRows(cfg, s, k, r);
    MulMono(ru.cycle, rows + 2 * cfg.credits, cfg.n);
    assert RuInv(r, cfg.n, cfg.credits, ru);
    DoneIsAcquired(r, cfg.n, cfg.credits, ru);
  }

  lemma BuWorkBound(cfg: Config, s: State, k: nat, cycles: nat)
    requires Inv(cfg, s) && k < cfg.n
    requires forall r :: 0 <= r < cfg.n ==> s.rus[r].cycle < cycles
    ensures BuWork(s.bus[k]) <= cycles + cfg.n * (2 * cycles)
  {
    forall i | 0 <= i < cfg.n
      ensures ConnWorks(s.bus[k])[i] <= 2 * cycles
    {
      assert LinkOk(cfg, s, k, i);
    }
    SumBound(ConnWorks(s.bus[k]), 2 * cycles);
    SendsAboveRows(cfg, s, k, 0);
  }

  lemma WorkBound(cfg: Config, s: State, k: nat, rows: nat)
    requires Inv(cfg, s) && k < cfg.n && s.bus[k].rows < rows
    ensures Work(cfg.n, s) <= Bound(cfg, rows)
  {
    RusWorkBound(cfg, s, k, rows);
    BusWorkBound(cfg, s, rows + 2 * cfg.credits);
  }

  lemma RusWorkBound(cfg: Config, s: State, k: nat, rows: nat)
    requires Inv(cfg, s) && k < cfg.n && s.bus[k].rows < rows
    ensures forall r :: 0 <= r < cfg.n ==> s.rus[r].cycle < rows + 2 * cfg.credits
    ensures Sum(RuWorks(cfg.n, s)) <= cfg.n * (3 * ((rows + 2 * cfg.credits) * cfg.n))
  {
    var bound := 3 * ((rows + 2 * cfg.credits) * cfg.n);
    forall r | 0 <= r < cfg.n
      ensures s.rus[r].cycle < rows + 2 * cfg.credits && RuWorks(cfg.n, s)[r] <= bound
    {
      RuWorkBound(cfg, s, k, r, rows);
    }
    SumBound(RuWorks(cfg.n, s), bound);
  }

  lemma BusWorkBound(cfg: Config, s: State, cycles: nat)
    requires Inv(cfg, s) && forall r :: 0 <= r < cfg.n ==> s.rus[r].cycle < cycles
    ensures Sum(BuWorks(s)) <= cfg.n * (cycles + cfg.n * (2 * cycles))
  {
    var bound := cycles + cfg.n * (2 * cycles);
    forall l | 0 <= l < cfg.n
      ensures BuWorks(s)[l] <= bound
    {
      BuWorkBound(cfg, s, l, cycles);
    }
    SumBound(BuWorks(s), bound);
  }

  /** However the steps are chosen, a run that is long enough builds any number of rows at every
      builder unit: no fairness is needed. */
  lemma EveryBuilderAdvances(cfg: Config, run: seq<State>, rows: nat, k: nat)
    requires IsRun(cfg, run) && k < cfg.n && Bound(cfg, rows) + 1 < |run|
    ensures Inv(cfg, run[|run| - 1])
    ensures rows <= run[|run| - 1].bus[k].rows
  {
    var x := |run| - 1;
    RunKeepsInv(cfg, run, x);
    RunWorks(cfg, run, x);
    if run[x].bus[k].rows < rows {
      WorkBound(cfg, run[x], k, rows);
    }
  }

  /** With more nodes than memory for a cycle, unit `r` does not get as far as the last builder unit. */
  ghost predicate Starved(cfg: Config, s: State)
    requires Shaped(cfg, s)
  {
    forall r :: 0 <= r < cfg.n - 1 ==> s.rus[r].cycle == 0 && s.rus[r].pos <= Rank(r, cfg.n, cfg.n - 1)
  }

  lemma StepStarves(cfg: Config, s: State, step: Step)
    requires Inv(cfg, s) && Enabled(cfg, s, step) && 2 * cfg.credits < cfg.n && Starved(cfg, s)
    ensures Starved(cfg, Apply(cfg, s, step))
  {
    forall r | 0 <= r < cfg.n - 1
      ensures var ru := Apply(cfg, s, step).rus[r]; ru.cycle == 0 && ru.pos <= Rank(r, cfg.n, cfg.n - 1)
    {
      StepStarvesOne(cfg, s, step, r);
    }
  }

  lemma StepStarvesOne(cfg: Config, s: State, step: Step, r: nat)
    requires Inv(cfg, s) && Enabled(cfg, s, step) && 2 * cfg.credits < cfg.n && r < cfg.n - 1
    requires s.rus[r].cycle == 0 && s.rus[r].pos <= Rank(r, cfg.n, cfg.n - 1)
    ensures var ru := Apply(cfg, s, step).rus[r]; ru.cycle == 0 && ru.pos <= Rank(r, cfg.n, cfg.n - 1)
  {
    if step.SendStep? && step.r == r {
      LastIsOutOfReach(r, cfg.n, cfg.credits, s.rus[r]);
    }
  }

  lemma RunStepStarves(cfg: Config, run: seq<State>, x: nat)
    requires IsRun(cfg, run) && x + 1 < |run| && 2 * cfg.credits < cfg.n
    requires Inv(cfg, run[x]) && Starved(cfg, run[x]) && Shaped(cfg, run[x + 1])
    ensures Starved(cfg, run[x + 1])
  {
    var s, s' := run[x], run[x + 1];
    assert IsStep(cfg, run, x);
    var step :| Enabled(cfg, s, step) && s' == Apply(cfg, s, step);
    StepStarves(cfg, s, step);
    assert Starved(cfg, s');
  }

  lemma {:induction false} RunStarves(cfg: Config, run: seq<State>, x: nat)
    requires IsRun(cfg, run) && x < |run| && 2 * cfg.credits < cfg.n
    ensures Inv(cfg, run[x]) && Starved(cfg, run[x])
  {
    RunKeepsInv(cfg, run, x);
    if 0 < x {
      RunStarves(cfg, run, x - 1);
      RunStepStarves(cfg, run, x - 1);
    }
  }

  /** If a cycle does not fit in memory, no unit but the last ever sends to the last builder unit,
      which never builds a row; and every run ends. */
  lemma LastBuilderStarves(cfg: Config, run: seq<State>, x: nat)
    requires IsRun(cfg, run) && x < |run| && 2 * cfg.credits < cfg.n
    ensures Shaped(cfg, run[x])
    ensures forall r :: 0 <= r < cfg.n - 1 ==> SentTo(r, cfg.n, run[x].rus[r], cfg.n - 1) == 0
    ensures run[x].bus[cfg.n - 1].rows == 0
    ensures x <= Bound(cfg, 1)
  {
    RunStarves(cfg, run, x);
    SendsAboveRows(cfg, run[x], cfg.n - 1, 0);
    RunWorks(cfg, run, x);
    WorkBound(cfg, run[x], cfg.n - 1, 1);
  }

  ghost predicate HasRun(cfg: Config, steps: nat) {
    exists run :: IsRun(cfg, run) && |run| == steps + 1
  }

  lemma {:induction false} RunsExtend(cfg: Config, steps: nat)
    requires ValidConfig(cfg) && cfg.n <= 2 * cfg.credits
    ensures HasRun(cfg, steps)
  {
    if steps == 0 {
      assert IsRun(cfg, [Init(cfg)]);
    } else {
      RunsExtend(cfg, steps - 1);
      var run :| IsRun(cfg, run) && |run| == steps;
      NoDeadlock(cfg, run, steps - 1);
      var step :| Enabled(cfg, run[steps - 1], step);
      RunGoesOn(cfg, run, step);
      assert |run + [Apply(cfg, run[steps - 1], step)]| == steps + 1;
    }
  }

  /** The system can run for ever exactly when a cycle of `n` multievents fits in memory. */
  lemma RunsForEver(cfg: Config)
    requires ValidConfig(cfg)
    ensures (forall steps :: HasRun(cfg, steps)) <==> cfg.n <= 2 * cfg.credits
  {
    if cfg.n <= 2 * cfg.credits {
      forall steps
        ensures HasRun(cfg, steps)
      {
        RunsExtend(cfg, steps);
      }
    } else if HasRun(cfg, Bound(cfg, 1) + 1) {
      var run :| IsRun(cfg, run) && |run| == Bound(cfg, 1) + 2;
      LastBuilderStarves(cfg, run, |run| - 1);
    }
  }
}
