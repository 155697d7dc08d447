/**
 What the response of the runner says about the operations: read off the actions of
 a run, one label at a time.
 */
module OperationReports {
  import opened Sums
  import opened PerformOperation

  // ---- How the operations ended ----

  // How many operations returned, without an error or with one.
  function Ends(labels: seq<Label>, ok: bool): nat {
    if labels == [] then 0
    else
      var l := labels[|labels| - 1];
      Ends(labels[..|labels| - 1], ok) + if l.Run? && l.ok == ok then 1 else 0
  }

  // The operation whose error was stored last.
  function LastStored(labels: seq<Label>): Option<nat> {
    if labels == [] then None
    else
      var l := labels[|labels| - 1];
      if l.Store? then Some(l.i) else LastStored(labels[..|labels| - 1])
  }

  predicate Ended(w: Worker, ok: bool) {
    w == Returned(ok) || w == Released(ok) || w == Leaving(ok) || w == Done(ok) || (w == Failing && !ok)
  }

  function EndedWell(w: Worker): int { if Ended(w, true) then 1 else 0 }

  function EndedBadly(w: Worker): int { if Ended(w, false) then 1 else 0 }

  lemma StepEnds(limit: nat, s: State, l: Label)
    requires AllWorkers(s) && MainInv(s) && Enabled(limit, s, l)
    ensures var t := Apply(limit, s, l);
      && Sum(t.workers, EndedWell) == Sum(s.workers, EndedWell) + (if l.Run? && l.ok then 1 else 0)
      && Sum(t.workers, EndedBadly) == Sum(s.workers, EndedBadly) + (if l.Run? && !l.ok then 1 else 0)
  {
    hide Sum;
    var t := Apply(limit, s, l);
    if l.BeginWait? || l.EndWait? {
      assert t.workers == s.workers;
    } else {
      var i := Actor(s, l);
      ActorMoves(limit, s, l);
      SumUpdate(s.workers, i, t.workers[i], EndedWell);
      SumUpdate(s.workers, i, t.workers[i], EndedBadly);
      assert WorkerInv(s, i);
    }
  }

  // How goroutine i's operation ended is in the actions so far.
  predicate EndedAsRun(labels: seq<Label>, s: State) {
    forall i, ok :: 0 <= i < |s.workers| ==> (Ended(s.workers[i], ok) <==> Run(i, ok) in labels)
  }

  lemma StepEndedAsRun(limit: nat, labels: seq<Label>, s: State, l: Label)
    requires AllWorkers(s) && MainInv(s) && EndedAsRun(labels, s) && Enabled(limit, s, l)
    ensures EndedAsRun(labels + [l], Apply(limit, s, l))
  {
    var t := Apply(limit, s, l);
    forall i, ok | 0 <= i < |t.workers| ensures Ended(t.workers[i], ok) <==> Run(i, ok) in labels + [l] {
      assert Run(i, ok) in labels + [l] <==> Run(i, ok) in labels || Run(i, ok) == l;
      assert Ended(s.workers[i], ok) <==> Run(i, ok) in labels;
      assert WorkerInv(s, i);
    }
  }

  predicate Reported(labels: seq<Label>, s: State) {
    && Sum(s.workers, EndedWell) == Ends(labels, true) && Sum(s.workers, EndedBadly) == Ends(labels, false)
    && EndedAsRun(labels, s) && s.latestErr == LastStored(labels)
  }

  lemma InitReported(total: nat)
    ensures Reported([], Init(total))
  {
    SumConstant(Init(total).workers, EndedWell, 0);
    SumConstant(Init(total).workers, EndedBadly, 0);
  }

  lemma {:induction false} RunReported(limit: nat, total: nat, labels: seq<Label>, states: seq<State>, n: nat)
    requires IsRun(limit, total, labels, states) && n <= |labels|
    ensures Reported(labels[..n], states[n])
  {
    if n == 0 {
      InitReported(total);
      assert labels[..0] == [];
    } else {
      var l, s := labels[n - 1], states[n - 1];
      RunReported(limit, total, labels, states, n - 1);
      RunInv(limit, total, labels, states, n - 1);
      assert StepTo(limit, s, l, states[n - 1 + 1]);
      StepEnds(limit, s, l);
      StepEndedAsRun(limit, labels[..n - 1], s, l);
      assert labels[..n] == labels[..n - 1] + [l];
      assert labels[..n][..n - 1] == labels[..n - 1];
    }
  }

  lemma {:induction false} SameWhenDone(ws: seq<Worker>)
    requires forall i :: 0 <= i < |ws| ==> ws[i].Done?
    ensures Sum(ws, Won) == Sum(ws, EndedWell) && Sum(ws, Lost) == Sum(ws, EndedBadly)
  {
    if ws != [] {
      SameWhenDone(ws[1..]);
    }
  }

  // What the response says: the successes are the operations that returned without
  // an error, the failures those that returned one, and the error is that of the
  // failed operation that stored its own last.
  lemma ResponseIsRight(limit: nat, total: nat, labels: seq<Label>, states: seq<State>)
    requires IsRun(limit, total, labels, states) && states[|labels|].main.Finished?
    ensures var s := states[|labels|];
      && s.succeeded == Ends(labels, true) && s.failed == Ends(labels, false)
      && s.latestErr == LastStored(labels)
      && (s.latestErr.Some? ==> Run(s.latestErr.value, false) in labels)
      && |s.workers| == total
      && (forall i, ok :: 0 <= i < total ==> (s.workers[i] == Done(ok) <==> Run(i, ok) in labels))
  {
    var s := states[|labels|];
    RunReported(limit, total, labels, states, |labels|);
    RunInv(limit, total, labels, states, |labels|);
    assert labels[..|labels|] == labels;
    forall i | 0 <= i < total ensures s.workers[i].Done? {
      AllDoneWhenFinished(limit, s, i);
    }
    SameWhenDone(s.workers);
  }

  // ---- What the goroutines read ----

  // A goroutine past its reading does not read again, and keeps what it read.
  lemma ReadsOnce(limit: nat, s: State, l: Label, i: nat)
    requires AllWorkers(s) && Enabled(limit, s, l) && i < |s.workers| && !BeforeRead(s.workers[i])
    requires MainInv(s)
    ensures var t := Apply(limit, s, l);
      i < |t.workers| && !BeforeRead(t.workers[i]) && Shaped(t) && t.observed[i] == s.observed[i]
  {
    assert WorkerInv(s, i);
  }

  // What is compared with the maximum is the number of slots held at the moment
  // of reading.
  lemma {:induction false} ReadingIsOccupancy(
      limit: nat, total: nat, labels: seq<Label>, states: seq<State>, m: nat, n: nat, i: nat)
    requires IsRun(limit, total, labels, states) && m < n <= |labels| && labels[m] == Observe(i)
    ensures i < total && |states[n].observed| == total && states[n].observed[i] == |Holders(states[m])|
  {
    RunInv(limit, total, labels, states, n);
    ObservedSince(limit, total, labels, states, m, n, i);
    RunInv(limit, total, labels, states, m);
    SumIsCardinality(states[m].workers, Holders(states[m]));
  }

  lemma {:induction false} ObservedSince(
      limit: nat, total: nat, labels: seq<Label>, states: seq<State>, m: nat, n: nat, i: nat)
    requires IsRun(limit, total, labels, states) && m < n <= |labels| && labels[m] == Observe(i)
    ensures Shaped(states[n]) && i < |states[n].workers|
    ensures !BeforeRead(states[n].workers[i]) && states[n].observed[i] == states[m].sem
  {
    RunInv(limit, total, labels, states, n - 1);
    assert StepTo(limit, states[n - 1], labels[n - 1], states[n - 1 + 1]);
    if n > m + 1 {
      ObservedSince(limit, total, labels, states, m, n - 1, i);
      ReadsOnce(limit, states[n - 1], labels[n - 1], i);
    }
  }

  // ---- How many get in ----

  // The first k goroutines hold slots, the others up to m wait for one.
  predicate Filling(s: State, k: nat, m: nat) {
    && Shaped(s) && k <= m <= |s.workers| && s.main == Spawning(m) && s.sem == k
    && (forall i :: 0 <= i < k ==> s.workers[i].Holding?)
    && (forall i :: k <= i < m ==> s.workers[i].Ready?)
    && (forall i :: m <= i < |s.workers| ==> s.workers[i].Unspawned?)
  }

  lemma {:induction false} SpawnUpTo(limit: nat, total: nat, m: nat) returns (s: State)
    requires m <= total
    ensures Reachable(limit, total, s) && Filling(s, 0, m) && |s.workers| == total
  {
    if m == 0 {
      InitReachable(limit, total);
      s := Init(total);
    } else {
      var t := SpawnUpTo(limit, total, m - 1);
      s := Apply(limit, t, Spawn);
      ReachableStep(limit, total, t, Spawn, s);
    }
  }

  lemma {:induction false} AcquireUpTo(limit: nat, total: nat, k: nat, m: nat) returns (s: State)
    requires k <= m <= total && k <= limit
    ensures Reachable(limit, total, s) && Filling(s, k, m) && |s.workers| == total
  {
    if k == 0 {
      s := SpawnUpTo(limit, total, m);
    } else {
      var t := AcquireUpTo(limit, total, k - 1, m);
      s := Apply(limit, t, Acquire(k - 1));
      ReachableStep(limit, total, t, Acquire(k - 1), s);
    }
  }

  // The semaphore lets in as many goroutines at once as there are slots or
  // operations: the bound on its length is attained.
  lemma SlotsCanAllBeTaken(limit: nat, total: nat) returns (s: State)
    ensures Reachable(limit, total, s) && |Holders(s)| == if limit <= total then limit else total
  {
    var m := if limit <= total then limit else total;
    s := AcquireUpTo(limit, total, m, m);
    SemaphoreSafety(limit, total, s);
  }
}
