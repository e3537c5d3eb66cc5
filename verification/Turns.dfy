/** The loops of the two units, turn by turn, as steps of the protocol. */
module Turns {
  import opened Progress
  import opened Protocol
  import opened ReadoutUnits
  import opened Schedule
  import opened Sockets

  /** The steps can be taken one after the other from `s`, and lead to `s'`. */
  ghost predicate Performs(cfg: Config, s: State, steps: seq<Step>, s': State)
    decreases |steps|
  {
    if steps == [] then
      s == s'
    else
      Shaped(cfg, s) && Enabled(cfg, s, steps[0]) && Performs(cfg, Apply(cfg, s, steps[0]), steps[1..], s')
  }

  lemma {:induction false} ThenPerforms(cfg: Config, s: State, steps: seq<Step>, t: State, more: seq<Step>, u: State)
    requires Performs(cfg, s, steps, t) && Performs(cfg, t, more, u)
    ensures Performs(cfg, s, steps + more, u)
    decreases |steps|
  {
    if steps == [] {
      assert steps + more == more;
    } else {
      var all := steps + more;
      assert all[0] == steps[0] && all[1..] == steps[1..] + more;
      ThenPerforms(cfg, Apply(cfg, s, steps[0]), steps[1..], t, more, u);
    }
  }

  lemma OneStep(cfg: Config, s: State, step: Step)
    requires Shaped(cfg, s) && Enabled(cfg, s, step)
    ensures Performs(cfg, s, [step], Apply(cfg, s, step))
  {
  }

  lemma {:induction false} PerformingKeepsInv(cfg: Config, s: State, steps: seq<Step>, s': State)
    requires Inv(cfg, s) && Performs(cfg, s, steps, s')
    ensures Inv(cfg, s')
    decreases |steps|
  {
    if steps != [] {
      StepKeepsInv(cfg, s, steps[0]);
      PerformingKeepsInv(cfg, Apply(cfg, s, steps[0]), steps[1..], s');
    }
  }

  /** A run of the system can be continued with such steps. */
  lemma {:induction false} Continue(cfg: Config, run: seq<State>, steps: seq<Step>, s': State)
    returns (longer: seq<State>)
    requires IsRun(cfg, run) && Performs(cfg, run[|run| - 1], steps, s')
    ensures IsRun(cfg, longer) && run <= longer && longer[|longer| - 1] == s' && |longer| == |run| + |steps|
    decreases |steps|
  {
    longer := run;
    if steps != [] {
      RunGoesOn(cfg, run, steps[0]);
      longer := Continue(cfg, run + [Apply(cfg, run[|run| - 1], steps[0])], steps[1..], s');
    }
  }

  /** The state in which only node `r`'s readout unit has changed. */
  function WithRu(s: State, r: nat, ru: Ru): State
    requires r < |s.rus|
  {
    s.(rus := s.rus[r := ru])
  }

  lemma {:induction false} Acquisitions(cfg: Config, s: State, r: nat, got: nat) returns (steps: seq<Step>)
    requires Shaped(cfg, s) && r < cfg.n && CanAcquireMany(r, cfg.n, cfg.credits, s.rus[r], got)
    ensures Performs(cfg, s, steps, WithRu(s, r, AcquireMany(s.rus[r], got))) && |steps| == got
  {
    if got == 0 {
      steps := [];
      assert WithRu(s, r, s.rus[r]) == s;
    } else {
      var t := WithRu(s, r, AcquireMany(s.rus[r], got - 1));
      steps := Acquisitions(cfg, s, r, got - 1);
      var step := AcquireStep(r);
      assert Enabled(cfg, t, step);
      OneStep(cfg, t, step);
      assert Apply(cfg, t, step) == WithRu(s, r, AcquireMany(s.rus[r], got));
      ThenPerforms(cfg, s, steps, t, [step], Apply(cfg, t, step));
      steps := steps + [step];
    }
  }

  lemma Completions(cfg: Config, s: State, r: nat, ts: set<nat>) returns (steps: seq<Step>)
    requires Shaped(cfg, s) && r < cfg.n
    requires forall t :: t in ts ==> Sent(r, cfg.n, s.rus[r], t) && t !in s.rus[r].done && HasArrived(cfg, s, r, t)
    ensures Performs(cfg, s, steps, WithRu(s, r, Complete(s.rus[r], ts)))
    ensures |steps| == if ts == {} then 0 else 1
  {
    if ts == {} {
      steps := [];
      assert Complete(s.rus[r], ts) == s.rus[r];
    } else {
      steps := [CompleteStep(r, ts)];
      OneStep(cfg, s, steps[0]);
    }
  }

  /** The state after the next send, on the connection that leads back to this unit. */
  ghost predicate SendsNext(cfg: Config, s: State, r: nat, s': State)
    requires Shaped(cfg, s) && r < cfg.n
  {
    exists i :: 0 <= i < cfg.n && Enabled(cfg, s, SendStep(r, i)) && s' == Apply(cfg, s, SendStep(r, i))
  }

  lemma SendIsAStep(cfg: Config, s: State, r: nat) returns (steps: seq<Step>, s': State)
    requires Shaped(cfg, s) && r < cfg.n && CanSend(r, cfg.n, cfg.credits, s.rus[r])
    ensures SendsNext(cfg, s, r, s') && s'.rus == WithRu(s, r, Send(cfg.n, s.rus[r])).rus
    ensures Performs(cfg, s, steps, s') && |steps| == 1
  {
    var k := Target(r, cfg.n, s.rus[r].pos);
    var i := ConnectionOf(cfg, k, r);
    var step := SendStep(r, i);
    assert Enabled(cfg, s, step);
    s' := Apply(cfg, s, step);
    OneStep(cfg, s, step);
    steps := [step];
  }

  /** Node `r` as its readout unit sees itself. */
  ghost function SiteOf(cfg: Config, r: nat): Site
    requires r < |cfg.memories|
  {
    Site(cfg.memories[r], r, cfg.n, cfg.credits)
  }

  /** A turn up to its send. */
  ghost function Completed(cfg: Config, s: State, r: nat, got: nat, completions: seq<seq<nat>>): Ru
    requires Shaped(cfg, s) && r < cfg.n == |completions|
  {
    AfterPolling(SiteOf(cfg, r), AcquireMany(s.rus[r], got), completions)
  }

  lemma Receives(cfg: Config, s: State, r: nat, got: nat, completions: seq<seq<nat>>) returns (steps: seq<Step>)
    requires Shaped(cfg, s) && r < cfg.n == |completions|
    requires CanAcquireMany(r, cfg.n, cfg.credits, s.rus[r], got)
    requires var done := Completed(cfg, s, r, got, completions).done;
             forall t :: t in done && t !in s.rus[r].done ==> Sent(r, cfg.n, s.rus[r], t) && HasArrived(cfg, s, r, t)
    ensures var ru := Completed(cfg, s, r, got, completions);
            && Performs(cfg, s, steps, WithRu(s, r, ru))
            && |steps| == got + if ru.done == s.rus[r].done then 0 else 1
  {
    var acquired, completed := AcquireMany(s.rus[r], got), Completed(cfg, s, r, got, completions);
    var t, ts := WithRu(s, r, acquired), completed.done - acquired.done;
    assert completed == Complete(acquired, ts) && (ts == {} <==> completed.done == acquired.done);
    steps := Acquisitions(cfg, s, r, got);
    var more := Completions(cfg, t, r, ts);
    assert WithRu(t, r, completed) == WithRu(s, r, completed);
    ThenPerforms(cfg, s, steps, t, more, WithRu(s, r, completed));
    steps := steps + more;
  }

  /** A send is only reported as completed once its message has arrived. */
  ghost predicate Trustworthy(cfg: Config, s: State, r: nat, completions: seq<seq<nat>>)
    requires Shaped(cfg, s) && r < cfg.n == |completions|
  {
    forall t: nat :: Unfinished(cfg, s, r, t) && IsReported(cfg, r, completions, t) ==> HasArrived(cfg, s, r, t)
  }

  ghost predicate Unfinished(cfg: Config, s: State, r: nat, t: nat)
    requires Shaped(cfg, s) && r < cfg.n
  {
    Sent(r, cfg.n, s.rus[r], t) && t !in s.rus[r].done
  }

  ghost predicate IsReported(cfg: Config, r: nat, completions: seq<seq<nat>>, t: nat)
    requires ValidConfig(cfg) && r < cfg.n == |completions|
  {
    cfg.memories[r].Base(t) in Gather(r, cfg.n, completions, cfg.n)
  }

  /** How many steps a turn is: one for each acquisition, one for all completions, one for a send. */
  ghost function Moves(ru: Ru, got: nat, sent: bool, ru': Ru): nat {
    got + (if ru'.done == ru.done then 0 else 1) + (if sent then 1 else 0)
  }

  /** A turn of the readout unit of a node is a sequence of steps of the system. */
  lemma RoundPerforms(cfg: Config, s: State, r: nat, dues: seq<nat>, completions: seq<seq<nat>>, got: nat, sent: bool,
                      ru: Ru)
    returns (steps: seq<Step>, s': State)
    requires Inv(cfg, s) && r < cfg.n == |completions| && Trustworthy(cfg, s, r, completions)
    requires Round(SiteOf(cfg, r), s.rus[r], dues, completions, got, sent, ru)
    ensures Performs(cfg, s, steps, s') && |steps| == Moves(s.rus[r], got, sent, ru)
    ensures Inv(cfg, s') && s'.rus == s.rus[r := ru]
    ensures var received := WithRu(s, r, Completed(cfg, s, r, got, completions));
            if sent then SendsNext(cfg, received, r, s') else s' == received
  {
    var completed := Completed(cfg, s, r, got, completions);
    forall t: nat | t in completed.done && t !in s.rus[r].done
      ensures Sent(r, cfg.n, s.rus[r], t) && HasArrived(cfg, s, r, t)
    {
      assert Sent(r, cfg.n, AcquireMany(s.rus[r], got), t);
      assert Unfinished(cfg, s, r, t) && IsReported(cfg, r, completions, t);
    }
    TakenIsAllowed(r, cfg.n, cfg.credits, cfg.bulk, s.rus[r], dues, got);
    steps := Receives(cfg, s, r, got, completions);
    s' := WithRu(s, r, completed);
    if sent {
      var more;
      more, s' := SendIsAStep(cfg, s', r);
      ThenPerforms(cfg, s, steps, WithRu(s, r, completed), more, s');
      steps := steps + more;
    }
    PerformingKeepsInv(cfg, s, steps, s');
  }

  // ---- progress

  /** Some step of this readout unit is possible. */
  ghost predicate CanMove(cfg: Config, s: State, r: nat)
    requires Shaped(cfg, s)
  {
    || Enabled(cfg, s, AcquireStep(r))
    || (exists ts :: Enabled(cfg, s, CompleteStep(r, ts)))
    || (exists i :: Enabled(cfg, s, SendStep(r, i)))
  }

  /** The clock has asked for the events of one more multievent. */
  ghost predicate ClockIsDue(cfg: Config, s: State, r: nat, dues: seq<nat>)
    requires Shaped(cfg, s) && r < cfg.n
  {
    |dues| == cfg.n && forall x :: 0 <= x < cfg.n ==> cfg.bulk * (s.rus[r].acquired + 1) <= dues[x]
  }

  /** Every send whose message has arrived is reported as completed. */
  ghost predicate Exhaustive(cfg: Config, s: State, r: nat, completions: seq<seq<nat>>)
    requires Shaped(cfg, s) && r < cfg.n == |completions|
  {
    forall t: nat :: Unfinished(cfg, s, r, t) && HasArrived(cfg, s, r, t) ==> IsReported(cfg, r, completions, t)
  }

  lemma AcquireMoves(cfg: Config, s: State, r: nat, dues: seq<nat>, completions: seq<seq<nat>>, got: nat, sent: bool,
                     ru: Ru)
    requires Inv(cfg, s) && r < cfg.n == |completions| && Enabled(cfg, s, AcquireStep(r))
    requires ClockIsDue(cfg, s, r, dues)
    requires Round(SiteOf(cfg, r), s.rus[r], dues, completions, got, sent, ru)
    ensures 0 < got
  {
    DueIsReached(r, cfg.n, cfg.credits, cfg.bulk, s.rus[r], dues, got);
  }

  lemma CompleteMoves(cfg: Config, s: State, r: nat, completions: seq<seq<nat>>, got: nat, ts: set<nat>)
    requires Inv(cfg, s) && r < cfg.n == |completions| && Enabled(cfg, s, CompleteStep(r, ts))
    requires Exhaustive(cfg, s, r, completions)
    ensures Completed(cfg, s, r, got, completions).done != s.rus[r].done
  {
    var t :| t in ts;
    assert Unfinished(cfg, s, r, t);
    SentIsAcquired(r, cfg.n, cfg.credits, s.rus[r], t);
    assert t in Completed(cfg, s, r, got, completions).done;
  }

  /** If a step of the unit is possible, its turn takes one. */
  lemma TurnMoves(cfg: Config, s: State, r: nat, dues: seq<nat>, completions: seq<seq<nat>>, got: nat, sent: bool,
                  ru: Ru)
    requires Inv(cfg, s) && r < cfg.n == |completions| && CanMove(cfg, s, r)
    requires ClockIsDue(cfg, s, r, dues) && Exhaustive(cfg, s, r, completions)
    requires Round(SiteOf(cfg, r), s.rus[r], dues, completions, got, sent, ru)
    ensures 0 < Moves(s.rus[r], got, sent, ru)
  {
    if Enabled(cfg, s, AcquireStep(r)) {
      AcquireMoves(cfg, s, r, dues, completions, got, sent, ru);
    } else if ts :| Enabled(cfg, s, CompleteStep(r, ts)) {
      CompleteMoves(cfg, s, r, completions, got, ts);
    } else {
      var i :| Enabled(cfg, s, SendStep(r, i));
      CanStillSend(r, cfg.n, cfg.credits, s.rus[r], Completed(cfg, s, r, got, completions));
    }
  }

  /** The whole system does not come to a standstill: a message can be delivered, or some unit has a
      step to take in its turn. */
  lemma NoStandstill(cfg: Config, s: State)
    requires Inv(cfg, s) && cfg.n <= 2 * cfg.credits
    ensures (exists k, i, chunk :: Enabled(cfg, s, DeliverStep(k, i, chunk)))
            || (exists r :: 0 <= r < cfg.n && CanMove(cfg, s, r))
            || (exists k :: 0 <= k < cfg.n && CanBuild(cfg, s, k))
  {
    if forall step :: !Enabled(cfg, s, step) {
      NeverStuck(cfg, s, 0);
    }
    var step :| Enabled(cfg, s, step);
    match step
    case AcquireStep(r) => assert CanMove(cfg, s, r);
    case CompleteStep(r, ts) => assert CanMove(cfg, s, r);
    case SendStep(r, i) => assert CanMove(cfg, s, r);
    case DeliverStep(k, i, chunk) =>
    case PollStep(k, i, m) => assert CanBuild(cfg, s, k);
    case BuildStep(k) => assert CanBuild(cfg, s, k);
  }

  /** Some step of this builder unit is possible. */
  ghost predicate CanBuild(cfg: Config, s: State, k: nat)
    requires Shaped(cfg, s)
  {
    Enabled(cfg, s, BuildStep(k)) || exists i, m :: Enabled(cfg, s, PollStep(k, i, m))
  }

  /** One turn of the loop of a readout unit, with what the network reports. Clock and network decide
      how much is acquired, what completes and whether something is sent. */
  method ReadoutTurn(ru: ReadoutUnit, dues: seq<nat>, completions: seq<seq<nat>>, ghost cfg: Config, ghost s: State)
    returns (sent: bool, ghost got: nat, ghost steps: seq<Step>, ghost s': State)
    requires ru.Valid() && Inv(cfg, s) && ru.id < cfg.n == |ru.conns| && ru.credits == cfg.credits
    requires ru.Store() == cfg.memories[ru.id] && ru.View() == s.rus[ru.id]
    requires |dues| == cfg.n && Ordered(dues) && ru.accumulator.controller.lastDue <= dues[0]
    requires Answers(ru.Pending(), completions) && Trustworthy(cfg, s, ru.id, completions)
    modifies ru`pos, ru`iovToSend, ru`cycle, ru.conns
    modifies ru.accumulator, ru.accumulator.controller, ru.accumulator.controller.generator.buffer
    ensures ru.Valid() && ru.Store() == cfg.memories[ru.id] && ru.accumulator.controller.lastDue <= dues[cfg.n - 1]
    ensures Round(SiteOf(cfg, ru.id), s.rus[ru.id], dues, completions, got, sent, ru.View())
    ensures Performs(cfg, s, steps, s') && |steps| == Moves(s.rus[ru.id], got, sent, ru.View())
    ensures Inv(cfg, s') && s'.rus == s.rus[ru.id := ru.View()]
    ensures var received := WithRu(s, ru.id, Completed(cfg, s, ru.id, got, completions));
            if sent then SendsNext(cfg, received, ru.id, s') else s' == received
    ensures CanMove(cfg, s, ru.id) && ClockIsDue(cfg, s, ru.id, dues) && Exhaustive(cfg, s, ru.id, completions) ==>
              steps != []
  {
    got, sent := ru.Iterate(dues, completions);
    steps, s' := RoundPerforms(cfg, s, ru.id, dues, completions, got, sent, ru.View());
    if CanMove(cfg, s, ru.id) && ClockIsDue(cfg, s, ru.id, dues) && Exhaustive(cfg, s, ru.id, completions) {
      TurnMoves(cfg, s, ru.id, dues, completions, got, sent, ru.View());
    }
  }
}
