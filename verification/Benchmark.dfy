/**
 The benchmark handlers: open the recorder, run every operation through the
 semaphore, and shut the recorder down once all of them are over. Operation i
 records `programs[i]` while it runs; a step of the whole is a step of the
 runner, of the recorder, or of both.
 */
module Benchmark {
  import P = PerformOperation
  import R = FileRecorder
  import O = OperationReports

  datatype Config = Config(limit: nat, capacity: nat, programs: seq<seq<R.Event>>)

  datatype State = State(runner: P.State, recorder: R.State)

  datatype Label = Runner(p: P.Label) | Recorder(r: R.Label)

  // The recorder the handlers build: its shutdown waits for the producers.
  function RecorderConfig(c: Config): R.Config { R.Config(true, c.capacity, c.programs) }

  // A recorder whose shutdown does not wait by itself.
  function LooseConfig(c: Config): R.Config { R.Config(false, c.capacity, c.programs) }

  function Init(c: Config): State {
    State(P.Init(|c.programs|), R.Init(LooseConfig(c)))
  }

  // Operation i records only while it runs, returns only after its last
  // record, and the handler shuts down only after `performOperation` returned.
  predicate Enabled(c: Config, s: State, l: Label) {
    match l
    case Runner(p) =>
      && !s.recorder.panicked
      && P.Shaped(s.runner) && P.Enabled(c.limit, s.runner, p)
      && (p.Run? ==> p.i < |s.recorder.producers| && s.recorder.producers[p.i] == R.Idle([]))
    case Recorder(r) =>
      && R.Enabled(LooseConfig(c), s.recorder, r)
      && (R.IsProducerLabel(r) ==> r.i < |s.runner.workers| && s.runner.workers[r.i].Running?)
      && (r.BeginShutdown? ==> s.runner.main.Finished?)
  }

  function Apply(c: Config, s: State, l: Label): State
    requires Enabled(c, s, l)
  {
    match l
    case Runner(p) => s.(runner := P.Apply(c.limit, s.runner, p))
    case Recorder(r) => s.(recorder := R.Apply(LooseConfig(c), s.recorder, r))
  }

  ghost predicate IsRun(c: Config, labels: seq<Label>, states: seq<State>) {
    && |states| == |labels| + 1
    && states[0] == Init(c)
    && forall n :: 0 <= n < |labels| ==> StepTo(c, states[n], labels[n], states[n + 1])
  }

  predicate StepTo(c: Config, s: State, l: Label, t: State) {
    Enabled(c, s, l) && t == Apply(c, s, l)
  }

  ghost predicate Reachable(c: Config, s: State) {
    exists labels, states :: IsRun(c, labels, states) && states[|labels|] == s
  }

  // An operation that is over has recorded everything.
  predicate OverMeansRecorded(s: State) {
    && |s.runner.workers| == |s.recorder.producers|
    && forall i :: 0 <= i < |s.runner.workers| && !P.BeforeRun(s.runner.workers[i]) ==>
         s.recorder.producers[i] == R.Idle([])
  }

  ghost predicate Inv(c: Config, s: State) {
    P.Inv(c.limit, s.runner) && R.Inv(RecorderConfig(c), s.recorder) && OverMeansRecorded(s)
  }

  // After Wait has returned every operation is over, so nothing is being recorded.
  lemma FinishedMeansIdle(c: Config, s: State)
    requires Inv(c, s) && s.runner.main.Finished?
    ensures R.AllIdle(s.recorder)
  {
    forall i | 0 <= i < |s.recorder.producers| ensures s.recorder.producers[i] == R.Idle([]) {
      P.AllDoneWhenFinished(c.limit, s.runner, i);
    }
  }

  // Every step of the whole is a step of the joined recorder or leaves it alone.
  lemma RecorderStep(c: Config, s: State, r: R.Label)
    requires Inv(c, s) && Enabled(c, s, Recorder(r))
    ensures R.StepTo(RecorderConfig(c), s.recorder, r, Apply(c, s, Recorder(r)).recorder)
  {
    if r.BeginShutdown? {
      FinishedMeansIdle(c, s);
    }
  }

  lemma StepInv(c: Config, s: State, l: Label)
    requires Inv(c, s) && Enabled(c, s, l)
    ensures Inv(c, Apply(c, s, l))
  {
    match l
    case Runner(p) =>
      P.StepInv(c.limit, s.runner, p);
      P.ActorIsTheOnlyMover(c.limit, s.runner, p);
    case Recorder(r) =>
      RecorderStep(c, s, r);
      R.StepInv(RecorderConfig(c), s.recorder, r);
      R.OnlyLabelledProducerMoves(RecorderConfig(c), s.recorder, r);
  }

  lemma InitInv(c: Config)
    ensures Inv(c, Init(c))
  {
    P.InitInv(c.limit, |c.programs|);
    R.InitInv(RecorderConfig(c));
  }

  // Projecting a run of the whole on the recorder gives a run of the recorder.
  lemma {:induction false} RunProjects(c: Config, labels: seq<Label>, states: seq<State>, n: nat)
    requires IsRun(c, labels, states) && n <= |labels|
    ensures Inv(c, states[n])
    ensures R.Reachable(RecorderConfig(c), states[n].recorder)
    ensures P.Reachable(c.limit, |c.programs|, states[n].runner)
  {
    if n == 0 {
      InitInv(c);
      R.InitReachable(RecorderConfig(c));
      P.InitReachable(c.limit, |c.programs|);
    } else {
      RunProjects(c, labels, states, n - 1);
      var s, t := states[n - 1], states[n];
      assert StepTo(c, s, labels[n - 1], t);
      StepInv(c, s, labels[n - 1]);
      match labels[n - 1]
      case Runner(p) => P.ReachableStep(c.limit, |c.programs|, s.runner, p, t.runner);
      case Recorder(r) =>
        RecorderStep(c, s, r);
        R.ReachableStep(RecorderConfig(c), s.recorder, r, t.recorder);
    }
  }

  lemma ReachableProjects(c: Config, s: State)
    requires Reachable(c, s)
    ensures Inv(c, s)
    ensures R.Reachable(RecorderConfig(c), s.recorder)
    ensures P.Reachable(c.limit, |c.programs|, s.runner)
  {
    var labels, states :| IsRun(c, labels, states) && states[|labels|] == s;
    RunProjects(c, labels, states, |labels|);
  }

  // In a benchmark no send ever hits the closed channel.
  lemma NeverPanics(c: Config, s: State)
    requires Reachable(c, s)
    ensures !s.recorder.panicked
    ensures s.recorder.closed ==> s.recorder.queue == [] && s.runner.main.Finished?
  {
    ReachableProjects(c, s);
    ClosedAfterFinish(c, s);
  }

  lemma {:induction false} ShutdownAfterFinish(c: Config, labels: seq<Label>, states: seq<State>, n: nat)
    requires IsRun(c, labels, states) && n <= |labels|
    ensures !states[n].recorder.owner.Open? ==> states[n].runner.main.Finished?
  {
    if n > 0 {
      ShutdownAfterFinish(c, labels, states, n - 1);
      assert StepTo(c, states[n - 1], labels[n - 1], states[n]);
    }
  }

  lemma ClosedAfterFinish(c: Config, s: State)
    requires Reachable(c, s)
    ensures !s.recorder.owner.Open? ==> s.runner.main.Finished?
  {
    var labels, states :| IsRun(c, labels, states) && states[|labels|] == s;
    ShutdownAfterFinish(c, labels, states, |labels|);
  }

  // The runner's actions among those of the whole.
  function RunnerLabels(labels: seq<Label>): seq<P.Label> {
    if labels == [] then []
    else
      var l := labels[|labels| - 1];
      RunnerLabels(labels[..|labels| - 1]) + if l.Runner? then [l.p] else []
  }

  lemma {:induction false} RunnerRun(c: Config, labels: seq<Label>, states: seq<State>, n: nat)
    returns (runner: seq<P.State>)
    requires IsRun(c, labels, states) && n <= |labels|
    ensures P.IsRun(c.limit, |c.programs|, RunnerLabels(labels[..n]), runner)
    ensures runner[|RunnerLabels(labels[..n])|] == states[n].runner
  {
    if n == 0 {
      assert labels[..0] == [];
      runner := [states[0].runner];
    } else {
      var l := labels[n - 1];
      runner := RunnerRun(c, labels, states, n - 1);
      assert StepTo(c, states[n - 1], l, states[n - 1 + 1]);
      assert labels[..n] == labels[..n - 1] + [l] && labels[..n][..n - 1] == labels[..n - 1];
      var before := RunnerLabels(labels[..n - 1]);
      if l.Runner? {
        RunnerStep(c, before, runner, l.p, states[n].runner);
        runner := runner + [states[n].runner];
      } else {
        assert before + [] == before;
      }
    }
  }

  lemma RunnerStep(c: Config, labels: seq<P.Label>, runner: seq<P.State>, l: P.Label, t: P.State)
    requires P.IsRun(c.limit, |c.programs|, labels, runner) && P.StepTo(c.limit, runner[|labels|], l, t)
    ensures P.IsRun(c.limit, |c.programs|, labels + [l], runner + [t])
  {
    forall n | 0 <= n < |labels + [l]|
      ensures P.StepTo(c.limit, (runner + [t])[n], (labels + [l])[n], (runner + [t])[n + 1])
    {
      if n < |labels| {
        assert P.StepTo(c.limit, runner[n], labels[n], runner[n + 1]);
      }
    }
  }

  // When the handler returns: every operation ran once, the response counts the
  // operations that returned without and with an error and names one of the
  // latter, and the file holds the accepted events in order, with every recorded
  // event either in the file or dropped.
  lemma HandlerReturns(c: Config, labels: seq<Label>, states: seq<State>)
    requires IsRun(c, labels, states) && states[|labels|].recorder.owner.Gone?
    ensures var (s, actions) := (states[|labels|], RunnerLabels(labels));
      && s.runner.succeeded + s.runner.failed == |c.programs|
      && s.runner.succeeded == O.Ends(actions, true) && s.runner.failed == O.Ends(actions, false)
      && s.runner.latestErr == O.LastStored(actions)
      && (s.runner.latestErr.Some? ==> P.Run(s.runner.latestErr.value, false) in actions)
      && (s.runner.latestErr.Some? <==> s.runner.failed > 0)
      && (forall i :: 0 <= i < |c.programs| ==> i < |s.runner.runs| && s.runner.runs[i] == 1)
      && s.recorder.file == s.recorder.accepted
      && multiset(s.recorder.file) + multiset(s.recorder.dropped) == R.Offered(c.programs)
  {
    var s := states[|labels|];
    assert Reachable(c, s);
    ReachableProjects(c, s);
    ClosedAfterFinish(c, s);
    P.OutcomeWhenFinished(c.limit, |c.programs|, s.runner);
    R.JoinedShutdown(RecorderConfig(c), s.recorder);
    var runner := RunnerRun(c, labels, states, |labels|);
    assert labels[..|labels|] == labels;
    O.ResponseIsRight(c.limit, |c.programs|, RunnerLabels(labels), runner);
  }

  // Until the handler returns, somebody other than the ticker can move.
  lemma Progress(c: Config, s: State) returns (l: Label)
    requires c.limit >= 1 && Inv(c, s) && !s.recorder.owner.Gone?
    requires !s.recorder.owner.Open? ==> s.runner.main.Finished?
    ensures Enabled(c, s, l) && l != Recorder(R.Tick)
  {
    if s.runner.main.Finished? {
      FinishedMeansIdle(c, s);
      var r := R.Progress(RecorderConfig(c), s.recorder);
      l := Recorder(r);
    } else {
      var p := P.Progress(c.limit, s.runner);
      if p.Run? && s.recorder.producers[p.i] != R.Idle([]) {
        var r := R.ProducerProgress(RecorderConfig(c), s.recorder, p.i);
        l := Recorder(r);
      } else {
        l := Runner(p);
      }
    }
  }

  function Work(labels: seq<Label>): nat {
    if labels == [] then 0
    else Work(labels[..|labels| - 1]) + if labels[|labels| - 1] == Recorder(R.Tick) then 0 else 1
  }

  function Measure(c: Config, s: State): int { P.Measure(c.limit, s.runner) + R.Measure(s.recorder) }

  lemma StepDecreases(c: Config, s: State, l: Label)
    requires Inv(c, s) && Enabled(c, s, l)
    ensures Measure(c, Apply(c, s, l)) + (if l == Recorder(R.Tick) then 0 else 1) <= Measure(c, s)
  {
    match l
    case Runner(p) => P.StepDecreases(c.limit, s.runner, p);
    case Recorder(r) => R.StepDecreases(LooseConfig(c), s.recorder, r);
  }

  lemma {:induction false} RunMeasure(c: Config, labels: seq<Label>, states: seq<State>)
    requires IsRun(c, labels, states)
    ensures Work(labels) + Measure(c, states[|labels|]) <= Measure(c, Init(c))
  {
    if labels != [] {
      var n := |labels| - 1;
      assert IsRun(c, labels[..n], states[..n + 1]) by {
        forall k | 0 <= k < n ensures StepTo(c, states[..n + 1][k], labels[..n][k], states[..n + 1][k + 1]) {
          assert StepTo(c, states[k], labels[k], states[k + 1]);
        }
      }
      RunMeasure(c, labels[..n], states[..n + 1]);
      RunProjects(c, labels, states, n);
      assert StepTo(c, states[n], labels[n], states[n + 1]);
      StepDecreases(c, states[n], labels[n]);
    }
  }

  // Ticker flushes apart, no schedule of a whole benchmark is infinite.
  lemma WorkIsBounded(c: Config, labels: seq<Label>, states: seq<State>)
    requires IsRun(c, labels, states)
    ensures Work(labels) <= 2 * c.limit * |c.programs| + 12 * |c.programs| + 7 * R.Count(c.programs) + 7
  {
    RunMeasure(c, labels, states);
    RunProjects(c, labels, states, |labels|);
    var s := states[|labels|];
    P.MeasureNonNegative(c.limit, s.runner);
    P.InitMeasure(c.limit, |c.programs|);
    R.MeasureNonNegative(s.recorder);
    R.InitMeasure(LooseConfig(c));
  }
}
