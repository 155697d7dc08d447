/**
 The benchmark runner: `total` goroutines behind a counting semaphore of `limit`
 slots, a lock-free maximum, two counters and the error of the last failure.
 One label is one atomic action of one goroutine; a run is any interleaving.
 */
module PerformOperation {
  import opened Sums

  datatype Option<T> = None | Some(value: T)

  // Where one goroutine stands.
  datatype Worker =
    | Unspawned
    | Ready                          // about to send into the semaphore
    | Holding                        // slot taken, occupancy not read yet
    | Loading(seen: nat)             // top of the compare-and-swap loop
    | Swapping(seen: nat, known: nat)  // loaded `known` < `seen`, about to swap
    | Running                        // inside the operation
    | Returned(ok: bool)             // operation over, slot still held
    | Released(ok: bool)             // slot given back
    | Failing                        // failure counted, error not stored yet
    | Leaving(ok: bool)              // about to call wg.Done
    | Done(ok: bool)

  datatype Main = Spawning(next: nat) | Waiting | Finished

  // `observed[i]`, `runs[i]` and `peak` are history: the occupancy goroutine i
  // read (0 before it did), how often its operation ran, and the largest
  // occupancy there ever was.
  datatype State = State(
    workers: seq<Worker>, sem: nat, maxInFlight: nat,
    succeeded: nat, failed: nat, latestErr: Option<nat>,
    wg: int, main: Main, observed: seq<nat>, runs: seq<nat>, peak: nat)

  datatype Label =
    | Spawn
    | BeginWait
    | EndWait
    | Acquire(i: nat)
    | Observe(i: nat)
    | Load(i: nat)
    | Swap(i: nat)
    | Run(i: nat, ok: bool)
    | Release(i: nat)
    | Count(i: nat)
    | Store(i: nat)
    | Finish(i: nat)

  function Init(total: nat): State {
    State(seq(total, _ => Unspawned), 0, 0, 0, 0, None, total, Spawning(0), seq(total, _ => 0), seq(total, _ => 0), 0)
  }

  predicate Enabled(limit: nat, s: State, l: Label) {
    match l
    case Spawn => s.main.Spawning? && s.main.next < |s.workers|
    case BeginWait => s.main == Spawning(|s.workers|)
    case EndWait => s.main.Waiting? && s.wg == 0
    case Acquire(i) => i < |s.workers| && s.workers[i].Ready? && s.sem < limit
    case Observe(i) => i < |s.workers| && s.workers[i].Holding?
    case Load(i) => i < |s.workers| && s.workers[i].Loading?
    case Swap(i) => i < |s.workers| && s.workers[i].Swapping?
    case Run(i, _) => i < |s.workers| && s.workers[i].Running?
    case Release(i) => i < |s.workers| && s.workers[i].Returned? && s.sem > 0
    case Count(i) => i < |s.workers| && s.workers[i].Released?
    case Store(i) => i < |s.workers| && s.workers[i].Failing?
    case Finish(i) => i < |s.workers| && s.workers[i].Leaving?
  }

  predicate Shaped(s: State) {
    |s.observed| == |s.workers| && |s.runs| == |s.workers|
  }

  function Move(s: State, i: nat, w: Worker): State
    requires i < |s.workers|
  {
    s.(workers := s.workers[i := w])
  }

  function Apply(limit: nat, s: State, l: Label): State
    requires Shaped(s) && Enabled(limit, s, l)
  {
    match l
    case Spawn =>
      var i := s.main.next;
      Move(s, i, Ready).(main := Spawning(i + 1))
    case BeginWait => s.(main := Waiting)
    case EndWait => s.(main := Finished)
    case Acquire(i) => Move(s, i, Holding).(sem := s.sem + 1, peak := if s.sem < s.peak then s.peak else s.sem + 1)
    case Observe(i) => Move(s, i, Loading(s.sem)).(observed := s.observed[i := s.sem])
    case Load(i) =>
      var seen := s.workers[i].seen;
      Move(s, i, if seen <= s.maxInFlight then Running else Swapping(seen, s.maxInFlight))
    case Swap(i) =>
      var w := s.workers[i];
      if w.known == s.maxInFlight
      then Move(s, i, Running).(maxInFlight := w.seen)
      else Move(s, i, Loading(w.seen))
    case Run(i, ok) => Move(s, i, Returned(ok)).(runs := s.runs[i := s.runs[i] + 1])
    case Release(i) => Move(s, i, Released(s.workers[i].ok)).(sem := s.sem - 1)
    case Count(i) =>
      if s.workers[i].ok
      then Move(s, i, Leaving(true)).(succeeded := s.succeeded + 1)
      else Move(s, i, Failing).(failed := s.failed + 1)
    case Store(i) => Move(s, i, Leaving(false)).(latestErr := Some(i))
    case Finish(i) => Move(s, i, Done(s.workers[i].ok)).(wg := s.wg - 1)
  }

  // ---- Weights for counting ----

  function HoldsSlot(w: Worker): int {
    if w.Holding? || w.Loading? || w.Swapping? || w.Running? || w.Returned? then 1 else 0
  }

  function Pending(w: Worker): int { if w.Done? then 0 else 1 }

  function Won(w: Worker): int { if w == Leaving(true) || w == Done(true) then 1 else 0 }

  function Lost(w: Worker): int { if w == Failing || w == Leaving(false) || w == Done(false) then 1 else 0 }

  // ---- The inductive invariant ----

  predicate BeforeRead(w: Worker) { w.Unspawned? || w.Ready? || w.Holding? }

  predicate BeforeRun(w: Worker) { BeforeRead(w) || w.Loading? || w.Swapping? || w.Running? }

  // What is known of goroutine i.
  predicate WorkerInv(s: State, i: nat)
    requires Shaped(s) && i < |s.workers|
  {
    var w := s.workers[i];
    && s.runs[i] == (if BeforeRun(w) then 0 else 1)
    && (BeforeRead(w) ==> s.observed[i] == 0)
    && (!BeforeRead(w) ==> 1 <= s.observed[i] <= s.peak)
    && (w.Loading? ==> w.seen == s.observed[i])
    && (w.Swapping? ==> w.seen == s.observed[i] && w.known < w.seen && w.known <= s.maxInFlight)
    && (!BeforeRead(w) && !w.Loading? && !w.Swapping? ==> s.observed[i] <= s.maxInFlight)
    && (w.Unspawned? <==> s.main.Spawning? && s.main.next <= i)
    && ((w == Leaving(false) || w == Done(false)) ==> s.latestErr.Some?)
  }

  predicate AllWorkers(s: State) {
    Shaped(s) && forall i :: 0 <= i < |s.workers| ==> WorkerInv(s, i)
  }

  predicate CountersMatch(s: State) {
    && s.sem == Sum(s.workers, HoldsSlot)
    && s.wg == Sum(s.workers, Pending)
    && s.succeeded == Sum(s.workers, Won)
    && s.failed == Sum(s.workers, Lost)
  }

  // The maximum is zero or was read by some goroutine.
  ghost predicate MaximumObserved(s: State) {
    s.maxInFlight <= s.peak
    && (s.maxInFlight == 0 || exists i :: 0 <= i < |s.observed| && s.observed[i] == s.maxInFlight)
  }

  predicate MainInv(s: State) {
    (s.main.Spawning? ==> s.main.next <= |s.workers|) && (s.main.Finished? ==> s.wg == 0)
  }

  // A stored error belongs to an operation that failed.
  predicate ErrorInv(s: State) {
    s.latestErr.Some? ==>
      s.latestErr.value < |s.workers|
      && (s.workers[s.latestErr.value] == Leaving(false) || s.workers[s.latestErr.value] == Done(false))
  }

  ghost predicate Inv(limit: nat, s: State) {
    AllWorkers(s) && CountersMatch(s) && s.sem <= s.peak <= limit && MaximumObserved(s) && MainInv(s) && ErrorInv(s)
  }

  lemma InitInv(limit: nat, total: nat)
    ensures Inv(limit, Init(total))
  {
    var s := Init(total);
    SumConstant(s.workers, HoldsSlot, 0);
    SumConstant(s.workers, Pending, 1);
    SumConstant(s.workers, Won, 0);
    SumConstant(s.workers, Lost, 0);
  }

  // The goroutine a label belongs to.
  function Actor(s: State, l: Label): nat {
    match l
    case Spawn => if s.main.Spawning? then s.main.next else 0
    case BeginWait => 0
    case EndWait => 0
    case Acquire(i) => i
    case Observe(i) => i
    case Load(i) => i
    case Swap(i) => i
    case Run(i, _) => i
    case Release(i) => i
    case Count(i) => i
    case Store(i) => i
    case Finish(i) => i
  }

  lemma ActorMoves(limit: nat, s: State, l: Label)
    requires AllWorkers(s) && MainInv(s) && Enabled(limit, s, l) && !l.BeginWait? && !l.EndWait?
    ensures
      var t, i := Apply(limit, s, l), Actor(s, l);
      i < |s.workers| && WorkerInv(s, i) && |t.workers| == |s.workers| && t.workers == s.workers[i := t.workers[i]]
  {
    assert WorkerInv(s, Actor(s, l));
  }

  lemma MoveCounts(ws: seq<Worker>, i: nat, w: Worker)
    requires i < |ws|
    ensures Sum(ws[i := w], HoldsSlot) == Sum(ws, HoldsSlot) - HoldsSlot(ws[i]) + HoldsSlot(w)
    ensures Sum(ws[i := w], Pending) == Sum(ws, Pending) - Pending(ws[i]) + Pending(w)
    ensures Sum(ws[i := w], Won) == Sum(ws, Won) - Won(ws[i]) + Won(w)
    ensures Sum(ws[i := w], Lost) == Sum(ws, Lost) - Lost(ws[i]) + Lost(w)
  {
    SumUpdate(ws, i, w, HoldsSlot);
    SumUpdate(ws, i, w, Pending);
    SumUpdate(ws, i, w, Won);
    SumUpdate(ws, i, w, Lost);
  }

  lemma StepCounts(limit: nat, s: State, l: Label)
    requires AllWorkers(s) && CountersMatch(s) && MainInv(s) && Enabled(limit, s, l)
    ensures CountersMatch(Apply(limit, s, l))
  {
    hide Sum;
    var t := Apply(limit, s, l);
    if l.BeginWait? || l.EndWait? {
      assert t.workers == s.workers;
    } else {
      var i := Actor(s, l);
      ActorMoves(limit, s, l);
      MoveCounts(s.workers, i, t.workers[i]);
    }
  }

  lemma StepMaximum(limit: nat, s: State, l: Label)
    requires Inv(limit, s) && Enabled(limit, s, l)
    ensures
      var t := Apply(limit, s, l);
      s.maxInFlight <= t.maxInFlight && MaximumObserved(t)
  {
    var t := Apply(limit, s, l);
    if l.Swap? {
      assert WorkerInv(s, l.i);
      if t.maxInFlight != s.maxInFlight {
        assert t.observed[l.i] == t.maxInFlight;
      }
    } else if s.maxInFlight != 0 {
      var i :| 0 <= i < |s.observed| && s.observed[i] == s.maxInFlight;
      assert WorkerInv(s, i);
      assert t.observed[i] == t.maxInFlight;
    }
  }

  // Goroutines other than the one that acts keep what is known of them.
  lemma StepOthers(limit: nat, s: State, l: Label, j: nat)
    requires Inv(limit, s) && Enabled(limit, s, l) && j < |s.workers|
    requires j != Actor(s, l) || l.BeginWait? || l.EndWait?
    ensures var t := Apply(limit, s, l); Shaped(t) && j < |t.workers| && WorkerInv(t, j)
  {
    assert WorkerInv(s, j);
    StepMaximum(limit, s, l);
  }

  lemma StepActor(limit: nat, s: State, l: Label)
    requires Inv(limit, s) && Enabled(limit, s, l) && !l.BeginWait? && !l.EndWait?
    ensures var t, i := Apply(limit, s, l), Actor(s, l); Shaped(t) && i < |t.workers| && WorkerInv(t, i)
  {
    assert WorkerInv(s, Actor(s, l));
    StepMaximum(limit, s, l);
    if l.Observe? {
      SumAtLeast(s.workers, l.i, HoldsSlot);
    }
  }

  lemma StepWorkers(limit: nat, s: State, l: Label)
    requires Inv(limit, s) && Enabled(limit, s, l)
    ensures var t := Apply(limit, s, l); AllWorkers(t)
  {
    var t := Apply(limit, s, l);
    forall j | 0 <= j < |t.workers| ensures Shaped(t) && WorkerInv(t, j) {
      if j != Actor(s, l) || l.BeginWait? || l.EndWait? {
        StepOthers(limit, s, l, j);
      } else {
        StepActor(limit, s, l);
      }
    }
  }

  lemma StepRest(limit: nat, s: State, l: Label)
    requires Inv(limit, s) && Enabled(limit, s, l)
    ensures var t := Apply(limit, s, l); t.sem <= t.peak <= limit && MainInv(t) && ErrorInv(t)
  {
    if l.Finish? {
      SumAtLeast(s.workers, l.i, Pending);
    }
    if l.Spawn? {
      assert WorkerInv(s, s.main.next);
    }
  }

  // Every atomic action keeps the invariant.
  lemma StepInv(limit: nat, s: State, l: Label)
    requires Inv(limit, s) && Enabled(limit, s, l)
    ensures Inv(limit, Apply(limit, s, l))
  {
    StepCounts(limit, s, l);
    StepWorkers(limit, s, l);
    StepMaximum(limit, s, l);
    StepRest(limit, s, l);
  }

  // ---- Runs ----

  ghost predicate IsRun(limit: nat, total: nat, labels: seq<Label>, states: seq<State>) {
    && |states| == |labels| + 1
    && states[0] == Init(total)
    && forall n :: 0 <= n < |labels| ==> StepTo(limit, states[n], labels[n], states[n + 1])
  }

  predicate StepTo(limit: nat, s: State, l: Label, t: State) {
    Shaped(s) && Enabled(limit, s, l) && t == Apply(limit, s, l)
  }

  ghost predicate Reachable(limit: nat, total: nat, s: State) {
    exists labels, states :: IsRun(limit, total, labels, states) && states[|labels|] == s
  }

  lemma {:induction false} RunInv(limit: nat, total: nat, labels: seq<Label>, states: seq<State>, n: nat)
    requires IsRun(limit, total, labels, states) && n <= |labels|
    ensures Inv(limit, states[n]) && |states[n].workers| == total
  {
    if n == 0 {
      InitInv(limit, total);
    } else {
      RunInv(limit, total, labels, states, n - 1);
      assert StepTo(limit, states[n - 1], labels[n - 1], states[n]);
      StepInv(limit, states[n - 1], labels[n - 1]);
    }
  }

  lemma ReachableInv(limit: nat, total: nat, s: State)
    requires Reachable(limit, total, s)
    ensures Inv(limit, s) && |s.workers| == total
  {
    var labels, states :| IsRun(limit, total, labels, states) && states[|labels|] == s;
    RunInv(limit, total, labels, states, |labels|);
  }

  function Holders(s: State): (hs: set<nat>)
    ensures forall i: nat :: i in hs <==> i < |s.workers| && HoldsSlot(s.workers[i]) == 1
  {
    set i: nat | i < |s.workers| && HoldsSlot(s.workers[i]) == 1
  }

  lemma {:induction false} SumIsCardinality(ws: seq<Worker>, hs: set<nat>)
    requires forall i: nat :: i in hs <==> i < |ws| && HoldsSlot(ws[i]) == 1
    ensures Sum(ws, HoldsSlot) == |hs|
  {
    var n := |ws|;
    if n == 0 {
      assert hs == {};
    } else {
      var init := ws[..n - 1];
      SumIsCardinality(init, hs - {n - 1});
      SumLast(init, ws[n - 1]);
      assert ws == init + [ws[n - 1]];
    }
  }

  lemma {:induction false} SumLast(ws: seq<Worker>, w: Worker)
    ensures Sum(ws + [w], HoldsSlot) == Sum(ws, HoldsSlot) + HoldsSlot(w)
  {
    if ws == [] {
      assert ws + [w] == [w];
    } else {
      assert (ws + [w])[1..] == ws[1..] + [w];
      SumLast(ws[1..], w);
    }
  }

  // The semaphore is exactly the set of goroutines between send and receive,
  // and it never exceeds the limit; no recorded maximum does either.
  lemma SemaphoreSafety(limit: nat, total: nat, s: State)
    requires Reachable(limit, total, s)
    ensures s.sem == |Holders(s)| <= limit
    ensures s.maxInFlight <= s.peak <= limit
  {
    ReachableInv(limit, total, s);
    SumIsCardinality(s.workers, Holders(s));
  }

  // What the JSON response reports once `wg.Wait` has returned.
  lemma OutcomeWhenFinished(limit: nat, total: nat, s: State)
    requires Reachable(limit, total, s) && s.main.Finished?
    ensures s.succeeded + s.failed == total
    ensures |s.workers| == total && forall i :: 0 <= i < total ==> s.workers[i].Done?
    ensures |s.runs| == total && forall i :: 0 <= i < total ==> s.runs[i] == 1
    ensures s.latestErr.Some? <==> s.failed > 0
    ensures s.latestErr.Some? ==> s.latestErr.value < total && s.workers[s.latestErr.value] == Done(false)
    ensures s.sem == 0
  {
    ReachableInv(limit, total, s);
    forall i | 0 <= i < total ensures s.workers[i].Done? && s.runs[i] == 1 {
      AllDoneWhenFinished(limit, s, i);
      assert WorkerInv(s, i);
    }
    SumConstant(s.workers, HoldsSlot, 0);
    SumConstant(s.workers, w => Won(w) + Lost(w), 1);
    SumPointwise(s.workers, Won, Lost, w => Won(w) + Lost(w));
    if s.failed > 0 {
      var i := SumPositive(s.workers, Lost);
      assert WorkerInv(s, i);
    }
    if s.latestErr.Some? {
      SumAtLeast(s.workers, s.latestErr.value, Lost);
    }
  }

  // The lock-free maximum is exact: it bounds every occupancy any goroutine
  // read, each of those lies in 1..limit, and one of them attains it.
  lemma MaximumIsExact(limit: nat, total: nat, s: State)
    requires Reachable(limit, total, s) && s.main.Finished?
    ensures |s.observed| == total
    ensures forall i :: 0 <= i < total ==> 1 <= s.observed[i] <= s.maxInFlight <= limit
    ensures total > 0 ==> exists i :: 0 <= i < total && s.observed[i] == s.maxInFlight
    ensures total == 0 ==> s.maxInFlight == 0
  {
    OutcomeWhenFinished(limit, total, s);
    ReachableInv(limit, total, s);
    forall i | 0 <= i < total ensures 1 <= s.observed[i] <= s.maxInFlight {
      assert WorkerInv(s, i);
    }
    if total > 0 {
      assert 1 <= s.observed[0] <= s.maxInFlight;
    }
  }

  lemma InitReachable(limit: nat, total: nat)
    ensures Reachable(limit, total, Init(total))
  {
    assert IsRun(limit, total, [], [Init(total)]);
  }

  lemma AllDoneWhenFinished(limit: nat, s: State, i: nat)
    requires Inv(limit, s) && s.main.Finished? && i < |s.workers|
    ensures s.workers[i].Done?
  {
    SumAtLeast(s.workers, i, Pending);
  }

  lemma ActorIsTheOnlyMover(limit: nat, s: State, l: Label)
    requires Inv(limit, s) && Enabled(limit, s, l)
    ensures var t := Apply(limit, s, l);
      && |t.workers| == |s.workers|
      && forall j :: 0 <= j < |s.workers| && BeforeRun(s.workers[j]) && !BeforeRun(t.workers[j]) ==> l.Run? && l.i == j
  {
  }

  lemma ReachableStep(limit: nat, total: nat, s: State, l: Label, t: State)
    requires Reachable(limit, total, s) && StepTo(limit, s, l, t)
    ensures Reachable(limit, total, t)
  {
    var labels, states :| IsRun(limit, total, labels, states) && states[|labels|] == s;
    var labels', states' := labels + [l], states + [t];
    forall n | 0 <= n < |labels'| ensures StepTo(limit, states'[n], labels'[n], states'[n + 1]) {
      if n < |labels| {
        assert StepTo(limit, states[n], labels[n], states[n + 1]);
      }
    }
    assert IsRun(limit, total, labels', states');
  }

  // A goroutine goes round the loop again only because another one raised the
  // maximum after it had read it.
  lemma RetryOnlyAfterRaise(limit: nat, total: nat, s: State, i: nat)
    requires Reachable(limit, total, s) && Enabled(limit, s, Swap(i)) && Shaped(s)
    ensures Apply(limit, s, Swap(i)).workers[i].Loading? <==> s.workers[i].known < s.maxInFlight
    ensures Apply(limit, s, Swap(i)).workers[i].Running? <==> Apply(limit, s, Swap(i)).maxInFlight > s.maxInFlight
  {
    ReachableInv(limit, total, s);
    assert WorkerInv(s, i);
  }

  // ---- Termination under every schedule ----

  // Actions left for a goroutine; a stale read costs two more.
  function Weight(w: Worker, maximum: nat): int {
    match w
    case Unspawned => 12
    case Ready => 11
    case Holding => 10
    case Loading(_) => 8
    case Swapping(_, known) => if known == maximum then 7 else 9
    case Running => 6
    case Returned(_) => 5
    case Released(_) => 4
    case Failing => 3
    case Leaving(_) => 2
    case Done(_) => 0
  }

  function WeightAt(maximum: nat): Worker -> int { w => Weight(w, maximum) }

  function MainWeight(m: Main): nat {
    match m
    case Spawning(_) => 2
    case Waiting => 1
    case Finished => 0
  }

  function Measure(limit: nat, s: State): int {
    (limit - s.maxInFlight) * (2 * |s.workers|) + Sum(s.workers, WeightAt(s.maxInFlight)) + MainWeight(s.main)
  }

  lemma MeasureNonNegative(limit: nat, s: State)
    requires s.maxInFlight <= limit
    ensures Measure(limit, s) >= 0
  {
    SumNonNegative(s.workers, WeightAt(s.maxInFlight));
    assert (limit - s.maxInFlight) * (2 * |s.workers|) >= 0;
  }

  lemma RaiseCost(a: nat, b: nat, m: nat)
    requires a < b
    ensures a * m <= b * m - m
  {
    var d := b - a - 1;
    assert b * m == (a + 1 + d) * m == a * m + m + d * m;
  }

  // An action that leaves the maximum alone lightens its own goroutine only.
  lemma QuietStepDecreases(limit: nat, s: State, l: Label)
    requires AllWorkers(s) && MainInv(s) && Enabled(limit, s, l)
    requires Apply(limit, s, l).maxInFlight == s.maxInFlight
    ensures Measure(limit, Apply(limit, s, l)) < Measure(limit, s)
  {
    var t := Apply(limit, s, l);
    if l.BeginWait? || l.EndWait? {
      assert t.workers == s.workers;
    } else {
      var i := Actor(s, l);
      ActorMoves(limit, s, l);
      SumUpdate(s.workers, i, t.workers[i], WeightAt(s.maxInFlight));
      assert Weight(t.workers[i], s.maxInFlight) < Weight(s.workers[i], s.maxInFlight);
    }
  }

  // A swap that raises the maximum may make every other load stale, but the
  // room below the limit shrinks by more.
  lemma RaiseDecreases(limit: nat, s: State, i: nat)
    requires Inv(limit, s) && Enabled(limit, s, Swap(i))
    requires s.workers[i].known == s.maxInFlight
    ensures Measure(limit, Apply(limit, s, Swap(i))) < Measure(limit, s)
  {
    var t := Apply(limit, s, Swap(i));
    assert WorkerInv(s, i);
    StepMaximum(limit, s, Swap(i));
    SumIncrease(s.workers, WeightAt(s.maxInFlight), WeightAt(t.maxInFlight), 2);
    SumUpdate(s.workers, i, Running, WeightAt(t.maxInFlight));
    RaiseCost(limit - t.maxInFlight, limit - s.maxInFlight, 2 * |s.workers|);
  }

  lemma StepDecreases(limit: nat, s: State, l: Label)
    requires Inv(limit, s) && Enabled(limit, s, l)
    ensures Measure(limit, Apply(limit, s, l)) < Measure(limit, s)
  {
    if l.Swap? && s.workers[l.i].known == s.maxInFlight {
      RaiseDecreases(limit, s, l.i);
    } else {
      QuietStepDecreases(limit, s, l);
    }
  }

  lemma {:induction false} RunMeasure(limit: nat, total: nat, labels: seq<Label>, states: seq<State>, n: nat)
    requires IsRun(limit, total, labels, states) && n <= |labels|
    ensures n + Measure(limit, states[n]) <= Measure(limit, Init(total))
  {
    if n > 0 {
      RunMeasure(limit, total, labels, states, n - 1);
      RunInv(limit, total, labels, states, n - 1);
      assert StepTo(limit, states[n - 1], labels[n - 1], states[n]);
      StepDecreases(limit, states[n - 1], labels[n - 1]);
    }
  }

  lemma InitMeasure(limit: nat, total: nat)
    ensures Measure(limit, Init(total)) == 2 * limit * total + 12 * total + 2
  {
    SumConstant(Init(total).workers, WeightAt(0), 12);
    assert limit * (2 * total) == 2 * limit * total;
  }

  // No schedule is infinite: a bound on the number of atomic actions.
  lemma RunsAreBounded(limit: nat, total: nat, labels: seq<Label>, states: seq<State>)
    requires IsRun(limit, total, labels, states)
    ensures |labels| <= 2 * limit * total + 12 * total + 2
  {
    RunMeasure(limit, total, labels, states, |labels|);
    RunInv(limit, total, labels, states, |labels|);
    MeasureNonNegative(limit, states[|labels|]);
    InitMeasure(limit, total);
  }

  // ---- Progress ----

  // The next action of goroutine i, when it has one.
  function NextLabel(w: Worker, i: nat): Label
    requires !w.Unspawned? && !w.Done?
  {
    match w
    case Ready => Acquire(i)
    case Holding => Observe(i)
    case Loading(_) => Load(i)
    case Swapping(_, _) => Swap(i)
    case Running => Run(i, true)
    case Returned(_) => Release(i)
    case Released(_) => Count(i)
    case Failing => Store(i)
    case Leaving(_) => Finish(i)
  }

  lemma Progress(limit: nat, s: State) returns (l: Label)
    requires limit >= 1 || s.workers == []
    requires Inv(limit, s) && !s.main.Finished?
    ensures Enabled(limit, s, l)
  {
    if s.main.Spawning? {
      l := if s.main.next < |s.workers| then Spawn else BeginWait;
    } else if s.wg == 0 {
      l := EndWait;
    } else {
      SumNonNegative(s.workers, Pending);
      var i := SumPositive(s.workers, Pending);
      assert WorkerInv(s, i);
      if s.workers[i].Ready? && s.sem == limit {
        i := SumPositive(s.workers, HoldsSlot);
        assert WorkerInv(s, i);
      }
      l := NextLabel(s.workers[i], i);
      if l.Release? {
        SumAtLeast(s.workers, i, HoldsSlot);
      }
    }
  }

  ghost predicate Stuck(limit: nat, s: State) {
    !exists l :: Enabled(limit, s, l)
  }

  // With no slots, nobody ever gets past the semaphore.
  lemma {:induction false} NoSlotsNoProgress(total: nat, labels: seq<Label>, states: seq<State>, n: nat)
    requires IsRun(0, total, labels, states) && n <= |labels| && total > 0
    ensures |states[n].workers| == total
    ensures forall i :: 0 <= i < total ==> states[n].workers[i].Unspawned? || states[n].workers[i].Ready?
    ensures states[n].wg == total && !states[n].main.Finished?
  {
    if n > 0 {
      NoSlotsNoProgress(total, labels, states, n - 1);
      RunInv(0, total, labels, states, n - 1);
      assert StepTo(0, states[n - 1], labels[n - 1], states[n]);
    }
  }

  // Every maximal run ends with `Wait` returning exactly when there is a slot
  // to take or nothing to run.
  lemma StuckOnlyWhenFinished(limit: nat, total: nat)
    ensures (forall s :: Reachable(limit, total, s) && Stuck(limit, s) ==> s.main.Finished?)
            <==> limit >= 1 || total == 0
  {
    if limit >= 1 || total == 0 {
      forall s | Reachable(limit, total, s) && Stuck(limit, s) ensures s.main.Finished? {
        ReachableInv(limit, total, s);
        if !s.main.Finished? {
          var l := Progress(limit, s);
        }
      }
    } else {
      var labels, states := LongestRun(limit, total, [], [Init(total)]);
      var s := states[|labels|];
      NoSlotsNoProgress(total, labels, states, |labels|);
      assert Reachable(limit, total, s) && Stuck(limit, s);
    }
  }

  // Any run extends to a maximal one.
  lemma LongestRun(limit: nat, total: nat, labels: seq<Label>, states: seq<State>)
    returns (labels': seq<Label>, states': seq<State>)
    requires IsRun(limit, total, labels, states)
    ensures IsRun(limit, total, labels', states') && Stuck(limit, states'[|labels'|])
    ensures labels <= labels'
    decreases 2 * limit * total + 12 * total + 2 - |labels|
  {
    RunsAreBounded(limit, total, labels, states);
    var s := states[|labels|];
    if Stuck(limit, s) {
      labels', states' := labels, states;
    } else {
      var l :| Enabled(limit, s, l);
      RunInv(limit, total, labels, states, |labels|);
      var more := states + [Apply(limit, s, l)];
      forall n | 0 <= n < |labels + [l]| ensures StepTo(limit, more[n], (labels + [l])[n], more[n + 1]) {
        if n < |labels| {
          assert StepTo(limit, states[n], labels[n], states[n + 1]);
        }
      }
      RunsAreBounded(limit, total, labels + [l], more);
      labels', states' := LongestRun(limit, total, labels + [l], more);
    }
  }
}
