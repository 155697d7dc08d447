/**
 When the reported maximum is the largest occupancy there ever was. A goroutine
 reads the occupancy some time after it took its slot, so an overlap can pass
 unread.
 */
module PeakInFlight {
  import opened Sums
  import opened PerformOperation

  // ---- With one slot or one operation nothing can overlap ----

  lemma {:induction false} HoldersAtMost(ws: seq<Worker>)
    ensures Sum(ws, HoldsSlot) <= |ws|
  {
    if ws != [] {
      HoldersAtMost(ws[1..]);
    }
  }

  lemma {:induction false} PeakAtMostTotal(limit: nat, total: nat, labels: seq<Label>, states: seq<State>, n: nat)
    requires IsRun(limit, total, labels, states) && n <= |labels|
    ensures states[n].peak <= total
  {
    if n > 0 {
      PeakAtMostTotal(limit, total, labels, states, n - 1);
      RunInv(limit, total, labels, states, n);
      HoldersAtMost(states[n].workers);
      assert StepTo(limit, states[n - 1], labels[n - 1], states[n - 1 + 1]);
    }
  }

  lemma NothingMissed(limit: nat, total: nat, s: State)
    requires limit <= 1 || total <= 1
    requires Reachable(limit, total, s) && s.main.Finished?
    ensures s.maxInFlight == s.peak
  {
    var labels, states :| IsRun(limit, total, labels, states) && states[|labels|] == s;
    PeakAtMostTotal(limit, total, labels, states, |labels|);
    SemaphoreSafety(limit, total, s);
    MaximumIsExact(limit, total, s);
    assert total > 0 ==> 1 <= s.observed[0];
  }

  // ---- Otherwise an overlap can be missed ----

  // The first k goroutines are through, the others not started, and nobody read
  // more than one.
  predicate Served(s: State, k: nat) {
    && Shaped(s) && k <= |s.workers| && s.main == Spawning(k)
    && s.sem == 0 && s.maxInFlight <= 1 && s.wg == |s.workers| - k
    && (forall i :: 0 <= i < k ==> s.workers[i] == Done(true))
    && (forall i :: k <= i < |s.workers| ==> s.workers[i].Unspawned?)
  }

  // `t` differs from `s` in goroutine i, which stands at w, and in history.
  predicate Moved(s: State, t: State, i: nat, w: Worker) {
    && i < |s.workers| && Shaped(t) && t.workers == s.workers[i := w]
    && t.main == s.main && s.peak <= t.peak
  }

  lemma Take(limit: nat, total: nat, s: State, l: Label)
    requires Reachable(limit, total, s) && Shaped(s) && Enabled(limit, s, l)
    ensures Reachable(limit, total, Apply(limit, s, l)) && Shaped(Apply(limit, s, l))
  {
    ReachableStep(limit, total, s, l, Apply(limit, s, l));
  }

  // A goroutine alone in the semaphore reads one and runs its operation.
  lemma EnterAlone(limit: nat, total: nat, s: State, i: nat) returns (t: State)
    requires limit >= 1 && Reachable(limit, total, s) && Shaped(s)
    requires i < |s.workers| && s.workers[i].Ready? && s.sem == 0 && s.maxInFlight <= 1
    ensures Reachable(limit, total, t) && Moved(s, t, i, Returned(true))
    ensures t.sem == 1 && t.maxInFlight == 1 && t.wg == s.wg
  {
    t := Apply(limit, s, Acquire(i));
    Take(limit, total, s, Acquire(i));
    Take(limit, total, t, Observe(i));
    t := Apply(limit, t, Observe(i));
    Take(limit, total, t, Load(i));
    t := Apply(limit, t, Load(i));
    if s.maxInFlight == 0 {
      Take(limit, total, t, Swap(i));
      t := Apply(limit, t, Swap(i));
    }
    Take(limit, total, t, Run(i, true));
    t := Apply(limit, t, Run(i, true));
  }

  // A goroutine that holds a slot gives it back.
  lemma GiveBack(limit: nat, total: nat, s: State, i: nat) returns (t: State)
    requires Reachable(limit, total, s) && Shaped(s)
    requires i < |s.workers| && s.workers[i] == Returned(true) && s.sem >= 1
    ensures Reachable(limit, total, t) && Moved(s, t, i, Released(true))
    ensures t.sem == s.sem - 1 && t.maxInFlight == s.maxInFlight && t.wg == s.wg
  {
    Take(limit, total, s, Release(i));
    t := Apply(limit, s, Release(i));
  }

  // And it is counted and done.
  lemma Leave(limit: nat, total: nat, s: State, i: nat) returns (t: State)
    requires Reachable(limit, total, s) && Shaped(s) && i < |s.workers| && s.workers[i] == Released(true)
    ensures Reachable(limit, total, t) && Moved(s, t, i, Done(true))
    ensures t.sem == s.sem && t.maxInFlight == s.maxInFlight && t.wg == s.wg - 1
  {
    Take(limit, total, s, Count(i));
    t := Apply(limit, s, Count(i));
    Take(limit, total, t, Finish(i));
    t := Apply(limit, t, Finish(i));
  }

  // One goroutine served all by itself.
  lemma ServeOne(limit: nat, total: nat, s: State, k: nat) returns (t: State)
    requires limit >= 1 && Reachable(limit, total, s) && Served(s, k) && k < |s.workers|
    ensures Reachable(limit, total, t) && Served(t, k + 1) && |t.workers| == |s.workers|
    ensures t.maxInFlight == 1 && s.peak <= t.peak
  {
    Take(limit, total, s, Spawn);
    t := EnterAlone(limit, total, Apply(limit, s, Spawn), k);
    t := GiveBack(limit, total, t, k);
    t := Leave(limit, total, t, k);
  }

  lemma {:induction false} ServeAll(limit: nat, total: nat, s: State, k: nat) returns (t: State)
    requires limit >= 1 && Reachable(limit, total, s) && Served(s, k) && s.maxInFlight == 1
    ensures Reachable(limit, total, t) && Served(t, |t.workers|) && t.maxInFlight == 1 && s.peak <= t.peak
    decreases |s.workers| - k
  {
    if k == |s.workers| {
      t := s;
    } else {
      t := ServeOne(limit, total, s, k);
      t := ServeAll(limit, total, t, k + 1);
    }
  }

  // Two goroutines hold slots at once, but the second reads the occupancy only
  // after the first let go.
  lemma Overlap(limit: nat, total: nat, s: State) returns (t: State)
    requires limit >= 2 && Reachable(limit, total, s) && Served(s, 0) && |s.workers| >= 2
    ensures Reachable(limit, total, t) && Served(t, 2) && t.maxInFlight == 1 && t.peak >= 2
  {
    Take(limit, total, s, Spawn);
    t := Apply(limit, s, Spawn);
    Take(limit, total, t, Spawn);
    t := EnterAlone(limit, total, Apply(limit, t, Spawn), 0);
    t := EnterUnread(limit, total, t);
    t := Leave(limit, total, t, 0);
    t := Leave(limit, total, t, 1);
  }

  lemma EnterUnread(limit: nat, total: nat, s: State) returns (t: State)
    requires limit >= 2 && Reachable(limit, total, s) && Shaped(s) && |s.workers| >= 2
    requires s.workers[0] == Returned(true) && s.workers[1].Ready? && s.sem == 1 && s.maxInFlight == 1
    ensures Reachable(limit, total, t) && Shaped(t) && t.workers == s.workers[0 := Released(true)][1 := Released(true)]
    ensures t.sem == 0 && t.maxInFlight == 1 && t.wg == s.wg && t.main == s.main && t.peak >= 2
  {
    Take(limit, total, s, Acquire(1));
    t := GiveBack(limit, total, Apply(limit, s, Acquire(1)), 0);
    Take(limit, total, t, Observe(1));
    t := Apply(limit, t, Observe(1));
    Take(limit, total, t, Load(1));
    t := Apply(limit, t, Load(1));
    Take(limit, total, t, Run(1, true));
    t := GiveBack(limit, total, Apply(limit, t, Run(1, true)), 1);
  }

  // With room for two of at least two operations the response can say one
  // although two ran at once.
  lemma PeakCanBeMissed(limit: nat, total: nat) returns (s: State)
    requires limit >= 2 && total >= 2
    ensures Reachable(limit, total, s) && s.main.Finished? && s.peak >= 2 && s.maxInFlight == 1
  {
    InitReachable(limit, total);
    s := Overlap(limit, total, Init(total));
    s := ServeAll(limit, total, s, 2);
    Take(limit, total, s, BeginWait);
    s := Apply(limit, s, BeginWait);
    Take(limit, total, s, EndWait);
    s := Apply(limit, s, EndWait);
  }

  // The reported maximum is the real peak in every run exactly when there is at
  // most one slot or at most one operation.
  lemma PeakIsReportedExactly(limit: nat, total: nat)
    ensures (forall s :: Reachable(limit, total, s) && s.main.Finished? ==> s.maxInFlight == s.peak)
      <==> limit <= 1 || total <= 1
  {
    if limit <= 1 || total <= 1 {
      forall s | Reachable(limit, total, s) && s.main.Finished? ensures s.maxInFlight == s.peak {
        NothingMissed(limit, total, s);
      }
    } else {
      var s := PeakCanBeMissed(limit, total);
    }
  }
}
