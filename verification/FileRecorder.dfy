/**
 The file recorder: producers offer events to a bounded channel without ever
 blocking, one goroutine writes them to a buffered file, and shutdown waits for
 a WaitGroup counter before it closes the channel.
 With `joined` the owner starts the shutdown only once every producer is done,
 as the benchmark handlers do; without it, shutdown may start at any moment.
 */
module FileRecorder {
  import opened Sums

  datatype Event = Event(handler: string, nanos: int)

  // `todo[0]` is the event being recorded.
  datatype Producer =
    | Idle(todo: seq<Event>)      // about to look the recorder up under the mutex
    | Held(todo: seq<Event>)      // has the recorder, wg.Add not called yet
    | Added(todo: seq<Event>)     // about to offer the event
    | Dropping(todo: seq<Event>)  // queue was full, about to call wg.Done

  datatype Consumer =
    | Selecting
    | Writing(ev: Event)          // received, not written yet
    | Written                     // written, wg.Done not called yet
    | Exited                      // flushed, file closed, `done` closed

  // The owner holds the mutex while Waiting and Closing.
  datatype Owner = Open | Waiting | Closing | Gone

  datatype Config = Config(joined: bool, capacity: nat, programs: seq<seq<Event>>)

  // `accepted`, `dropped` and `ignored` are history.
  datatype State = State(
    producers: seq<Producer>, queue: seq<Event>, closed: bool, wg: int,
    buffer: seq<Event>, file: seq<Event>, consumer: Consumer, owner: Owner, panicked: bool,
    accepted: seq<Event>, dropped: seq<Event>, ignored: seq<Event>)

  datatype Label =
    | Lookup(i: nat)
    | Add(i: nat)
    | Offer(i: nat)
    | Drop(i: nat)
    | Receive
    | Write(spill: bool)          // the buffered writer may spill at any write
    | MarkDone
    | Tick
    | SeeClosed
    | BeginShutdown
    | CloseChannel
    | EndShutdown

  function Init(c: Config): State {
    State(seq(|c.programs|, i requires 0 <= i < |c.programs| => Idle(c.programs[i])),
          [], false, 0, [], [], Selecting, Open, false, [], [], [])
  }

  predicate AllIdle(s: State) {
    forall i :: 0 <= i < |s.producers| ==> s.producers[i] == Idle([])
  }

  predicate MutexFree(s: State) { s.owner.Open? || s.owner.Gone? }

  predicate Enabled(c: Config, s: State, l: Label) {
    && !s.panicked
    && match l
       case Lookup(i) => i < |s.producers| && s.producers[i].Idle? && s.producers[i].todo != [] && MutexFree(s)
       case Add(i) => i < |s.producers| && s.producers[i].Held? && s.producers[i].todo != []
       case Offer(i) => i < |s.producers| && s.producers[i].Added? && s.producers[i].todo != []
       case Drop(i) => i < |s.producers| && s.producers[i].Dropping? && s.producers[i].todo != []
       case Receive => s.consumer.Selecting? && s.queue != []
       case Write(_) => s.consumer.Writing?
       case MarkDone => s.consumer.Written?
       case Tick => s.consumer.Selecting?
       case SeeClosed => s.consumer.Selecting? && s.closed && s.queue == []
       case BeginShutdown => s.owner.Open? && (c.joined ==> AllIdle(s))
       case CloseChannel => s.owner.Waiting? && s.wg == 0
       case EndShutdown => s.owner.Closing? && s.consumer.Exited?
  }

  function Move(s: State, i: nat, p: Producer): State
    requires i < |s.producers|
  {
    s.(producers := s.producers[i := p])
  }

  function Apply(c: Config, s: State, l: Label): State
    requires Enabled(c, s, l)
  {
    match l
    case Lookup(i) =>
      var todo := s.producers[i].todo;
      if s.owner.Open? then Move(s, i, Held(todo))
      else Move(s, i, Idle(todo[1..])).(ignored := s.ignored + [todo[0]])
    case Add(i) => Move(s, i, Added(s.producers[i].todo)).(wg := s.wg + 1)
    case Offer(i) =>
      var todo := s.producers[i].todo;
      if s.closed then s.(panicked := true)
      else if |s.queue| < c.capacity
      then Move(s, i, Idle(todo[1..])).(queue := s.queue + [todo[0]], accepted := s.accepted + [todo[0]])
      else Move(s, i, Dropping(todo))
    case Drop(i) =>
      var todo := s.producers[i].todo;
      Move(s, i, Idle(todo[1..])).(wg := s.wg - 1, dropped := s.dropped + [todo[0]])
    case Receive => s.(queue := s.queue[1..], consumer := Writing(s.queue[0]))
    case Write(spill) =>
      var line := [s.consumer.ev];
      if spill then s.(file := s.file + s.buffer + line, buffer := [], consumer := Written)
      else s.(buffer := s.buffer + line, consumer := Written)
    case MarkDone => s.(wg := s.wg - 1, consumer := Selecting)
    case Tick => s.(file := s.file + s.buffer, buffer := [])
    case SeeClosed => s.(file := s.file + s.buffer, buffer := [], consumer := Exited)
    case BeginShutdown => s.(owner := Waiting)
    case CloseChannel => s.(owner := Closing, closed := true)
    case EndShutdown => s.(owner := Gone)
  }

  predicate StepTo(c: Config, s: State, l: Label, t: State) {
    Enabled(c, s, l) && t == Apply(c, s, l)
  }

  // ---- The inductive invariant ----

  function InFlight(p: Producer): int { if p.Added? || p.Dropping? then 1 else 0 }

  function InHand(k: Consumer): seq<Event> { if k.Writing? then [k.ev] else [] }

  function Busy(k: Consumer): int { if k.Writing? || k.Written? then 1 else 0 }

  // Events not decided yet, over all producers.
  function Undecided(ps: seq<Producer>): multiset<Event> {
    if ps == [] then multiset{} else multiset(ps[0].todo) + Undecided(ps[1..])
  }

  function Offered(programs: seq<seq<Event>>): multiset<Event> {
    if programs == [] then multiset{} else multiset(programs[0]) + Offered(programs[1..])
  }

  // The WaitGroup counter is what is between Add and Done: producers deciding,
  // events queued, and the one in the writer's hand.
  predicate CounterInv(s: State) {
    s.wg == Sum(s.producers, InFlight) + |s.queue| + Busy(s.consumer)
  }

  // File, buffer, hand and queue together are the accepted events in order.
  predicate OrderInv(s: State) {
    s.accepted == Pipeline(s.file, s.buffer, InHand(s.consumer), s.queue)
  }

  function Pipeline(file: seq<Event>, buffer: seq<Event>, hand: seq<Event>, queue: seq<Event>): seq<Event> {
    file + buffer + hand + queue
  }

  // The events whose fate is settled.
  function Settled(s: State): multiset<Event> {
    multiset(s.accepted) + multiset(s.dropped) + multiset(s.ignored)
  }

  ghost predicate ConservationInv(c: Config, s: State) {
    Undecided(s.producers) + Settled(s) == Offered(c.programs)
  }

  // Once the channel is closed nothing is queued or in hand any more.
  predicate ChannelInv(s: State) {
    && (s.closed <==> s.owner.Closing? || s.owner.Gone?)
    && (s.closed ==> s.queue == [] && (s.consumer.Selecting? || s.consumer.Exited?))
    && (s.consumer.Exited? ==> s.closed && s.buffer == [])
    && (s.owner.Gone? ==> s.consumer.Exited?)
  }

  predicate ShapeInv(c: Config, s: State) {
    && |s.producers| == |c.programs|
    && |s.queue| <= c.capacity
    && forall i :: 0 <= i < |s.producers| && !s.producers[i].Idle? ==> s.producers[i].todo != []
  }

  predicate JoinedInv(c: Config, s: State) {
    c.joined ==> !s.panicked && s.ignored == [] && (!s.owner.Open? ==> AllIdle(s))
  }

  predicate NoDrop(s: State) {
    s.dropped == [] && forall i :: 0 <= i < |s.producers| ==> !s.producers[i].Dropping?
  }

  // With a slot for every event the queue is never found full.
  predicate RoomyInv(c: Config, s: State) {
    Count(c.programs) <= c.capacity ==> NoDrop(s)
  }

  function Count(programs: seq<seq<Event>>): nat {
    if programs == [] then 0 else |programs[0]| + Count(programs[1..])
  }

  ghost predicate Inv(c: Config, s: State) {
    CounterInv(s) && OrderInv(s) && ConservationInv(c, s) && ChannelInv(s) && ShapeInv(c, s) && JoinedInv(c, s)
    && RoomyInv(c, s)
  }

  lemma InitInv(c: Config)
    ensures Inv(c, Init(c))
  {
    SumConstant(Init(c).producers, InFlight, 0);
    InitUndecided(c.programs, Init(c).producers);
  }

  lemma {:induction false} InitUndecided(programs: seq<seq<Event>>, ps: seq<Producer>)
    requires |ps| == |programs| && forall i :: 0 <= i < |ps| ==> ps[i] == Idle(programs[i])
    ensures Undecided(ps) == Offered(programs)
  {
    if ps != [] {
      InitUndecided(programs[1..], ps[1..]);
    }
  }

  lemma {:induction false} UndecidedUpdate(ps: seq<Producer>, i: nat, p: Producer)
    requires i < |ps|
    ensures Undecided(ps[i := p]) + multiset(ps[i].todo) == Undecided(ps) + multiset(p.todo)
  {
    var head, rest := multiset(ps[0].todo), Undecided(ps[1..]);
    assert Undecided(ps) == head + rest;
    if i == 0 {
      assert ps[0 := p][1..] == ps[1..];
    } else {
      assert ps[i := p][1..] == ps[1..][i - 1 := p];
      UndecidedUpdate(ps[1..], i - 1, p);
      assert ps[i := p][0] == ps[0];
      var rest' := Undecided(ps[1..][i - 1 := p]);
      assert ps[1..][i - 1] == ps[i];
      assert (head + rest') + multiset(ps[i].todo) == head + (rest' + multiset(ps[i].todo));
    }
  }

  predicate IsProducerLabel(l: Label) { l.Lookup? || l.Add? || l.Offer? || l.Drop? }

  lemma ProducerMoves(c: Config, s: State, l: Label)
    requires Enabled(c, s, l) && IsProducerLabel(l)
    ensures |Apply(c, s, l).producers| == |s.producers| && l.i < |s.producers|
    ensures Apply(c, s, l).producers == s.producers[l.i := Apply(c, s, l).producers[l.i]]
  {
  }

  lemma OnlyLabelledProducerMoves(c: Config, s: State, l: Label)
    requires Enabled(c, s, l)
    ensures var t := Apply(c, s, l);
      && |t.producers| == |s.producers|
      && forall j :: 0 <= j < |s.producers| && t.producers[j] != s.producers[j] ==> IsProducerLabel(l) && l.i == j
  {
  }

  lemma StepCounter(c: Config, s: State, l: Label)
    requires CounterInv(s) && Enabled(c, s, l)
    ensures CounterInv(Apply(c, s, l))
  {
    if IsProducerLabel(l) {
      ProducerMoves(c, s, l);
      SumUpdate(s.producers, l.i, Apply(c, s, l).producers[l.i], InFlight);
    }
  }

  lemma StepOrder(c: Config, s: State, l: Label)
    requires OrderInv(s) && Enabled(c, s, l)
    ensures OrderInv(Apply(c, s, l))
  {
    var hand := InHand(s.consumer);
    match l
    case Offer(i) => Enqueue(s.file, s.buffer, hand, s.queue, s.producers[i].todo[0]);
    case Receive => Dequeue(s.file, s.buffer, s.queue);
    case Write(_) => WriteThrough(s.file, s.buffer, hand, s.queue);
    case Tick => Flush(s.file, s.buffer, hand, s.queue);
    case SeeClosed => Flush(s.file, s.buffer, hand, s.queue);
    case _ =>
  }

  lemma Enqueue(f: seq<Event>, b: seq<Event>, h: seq<Event>, q: seq<Event>, ev: Event)
    ensures Pipeline(f, b, h, q + [ev]) == Pipeline(f, b, h, q) + [ev]
  {
  }

  lemma Dequeue(f: seq<Event>, b: seq<Event>, q: seq<Event>)
    requires q != []
    ensures Pipeline(f, b, [q[0]], q[1..]) == Pipeline(f, b, [], q)
  {
  }

  lemma WriteThrough(f: seq<Event>, b: seq<Event>, h: seq<Event>, q: seq<Event>)
    ensures Pipeline(f, b + h, [], q) == Pipeline(f, b, h, q) == Pipeline(f + b + h, [], [], q)
  {
    assert f + (b + h) + [] == f + b + h == f + b + h + [] + [];
  }

  lemma Flush(f: seq<Event>, b: seq<Event>, h: seq<Event>, q: seq<Event>)
    ensures Pipeline(f + b, [], h, q) == Pipeline(f, b, h, q)
  {
    assert f + b + [] == f + b;
  }

  lemma StepConservation(c: Config, s: State, l: Label)
    requires ConservationInv(c, s) && Enabled(c, s, l)
    ensures ConservationInv(c, Apply(c, s, l))
  {
    var t := Apply(c, s, l);
    if IsProducerLabel(l) {
      ProducerMoves(c, s, l);
      UndecidedUpdate(s.producers, l.i, t.producers[l.i]);
      Settle(c, s, l);
      Rebalance(Undecided(t.producers), multiset(s.producers[l.i].todo), Undecided(s.producers),
                multiset(t.producers[l.i].todo), Settled(t), Settled(s));
    }
  }

  // An event leaves the undecided ones exactly when its fate is recorded.
  lemma Settle(c: Config, s: State, l: Label)
    requires Enabled(c, s, l) && IsProducerLabel(l) && l.i < |Apply(c, s, l).producers|
    ensures var t := Apply(c, s, l);
      Settled(t) + multiset(t.producers[l.i].todo) == Settled(s) + multiset(s.producers[l.i].todo)
  {
    var todo := s.producers[l.i].todo;
    match l
    case Add(_) =>
    case Lookup(_) => if s.owner.Gone? { SettleLast(multiset(s.accepted) + multiset(s.dropped), s.ignored, todo); }
    case Drop(_) => SettleMiddle(multiset(s.accepted), s.dropped, multiset(s.ignored), todo);
    case Offer(_) => SettleFirst(s.accepted, multiset(s.dropped), multiset(s.ignored), todo);
  }

  lemma SettleLast(x: multiset<Event>, fate: seq<Event>, todo: seq<Event>)
    requires todo != []
    ensures x + multiset(fate + [todo[0]]) + multiset(todo[1..]) == x + multiset(fate) + multiset(todo)
  {
    assert todo == [todo[0]] + todo[1..];
  }

  lemma SettleMiddle(x: multiset<Event>, fate: seq<Event>, y: multiset<Event>, todo: seq<Event>)
    requires todo != []
    ensures x + multiset(fate + [todo[0]]) + y + multiset(todo[1..]) == x + multiset(fate) + y + multiset(todo)
  {
    assert todo == [todo[0]] + todo[1..];
  }

  lemma SettleFirst(fate: seq<Event>, x: multiset<Event>, y: multiset<Event>, todo: seq<Event>)
    requires todo != []
    ensures multiset(fate + [todo[0]]) + x + y + multiset(todo[1..]) == multiset(fate) + x + y + multiset(todo)
  {
    assert todo == [todo[0]] + todo[1..];
  }

  lemma Rebalance(u': multiset<Event>, before: multiset<Event>, u: multiset<Event>, after: multiset<Event>,
                  settled': multiset<Event>, settled: multiset<Event>)
    requires u' + before == u + after && settled' + after == settled + before
    ensures u' + settled' == u + settled
  {
    forall e ensures (u' + settled')[e] == (u + settled)[e] {
      assert (u' + before)[e] == (u + after)[e] && (settled' + after)[e] == (settled + before)[e];
    }
  }

  lemma StepChannel(c: Config, s: State, l: Label)
    requires CounterInv(s) && ChannelInv(s) && Enabled(c, s, l)
    ensures ChannelInv(Apply(c, s, l))
  {
    if l.CloseChannel? {
      SumNonNegative(s.producers, InFlight);
    }
  }

  lemma StepShape(c: Config, s: State, l: Label)
    requires ShapeInv(c, s) && Enabled(c, s, l)
    ensures ShapeInv(c, Apply(c, s, l))
  {
  }

  lemma StepJoined(c: Config, s: State, l: Label)
    requires ChannelInv(s) && JoinedInv(c, s) && Enabled(c, s, l)
    ensures JoinedInv(c, Apply(c, s, l))
  {
  }

  lemma {:induction false} UndecidedSize(ps: seq<Producer>, i: nat)
    requires i < |ps|
    ensures |Undecided(ps)| >= |ps[i].todo|
  {
    if i > 0 {
      UndecidedSize(ps[1..], i - 1);
    }
  }

  lemma {:induction false} OfferedSize(programs: seq<seq<Event>>)
    ensures |Offered(programs)| == Count(programs)
  {
    if programs != [] {
      OfferedSize(programs[1..]);
    }
  }

  // An offer finds the queue full only if fewer slots than events exist.
  lemma OfferFindsRoom(c: Config, s: State, i: nat)
    requires OrderInv(s) && ConservationInv(c, s) && Enabled(c, s, Offer(i)) && Count(c.programs) <= c.capacity
    ensures |s.queue| < c.capacity
  {
    UndecidedSize(s.producers, i);
    OfferedSize(c.programs);
    assert |Undecided(s.producers) + Settled(s)| == |Undecided(s.producers)| + |Settled(s)|;
    assert |s.queue| <= |s.accepted| <= |Settled(s)|;
  }

  lemma StepNoDrop(c: Config, s: State, l: Label)
    requires NoDrop(s) && Enabled(c, s, l) && (l.Offer? ==> |s.queue| < c.capacity)
    ensures NoDrop(Apply(c, s, l))
  {
  }

  lemma StepRoomy(c: Config, s: State, l: Label)
    requires OrderInv(s) && ConservationInv(c, s) && RoomyInv(c, s) && Enabled(c, s, l)
    ensures RoomyInv(c, Apply(c, s, l))
  {
    if Count(c.programs) <= c.capacity {
      if l.Offer? {
        OfferFindsRoom(c, s, l.i);
      }
      StepNoDrop(c, s, l);
    }
  }

  lemma StepInv(c: Config, s: State, l: Label)
    requires Inv(c, s) && Enabled(c, s, l)
    ensures Inv(c, Apply(c, s, l))
  {
    StepCounter(c, s, l);
    StepOrder(c, s, l);
    StepConservation(c, s, l);
    StepChannel(c, s, l);
    StepShape(c, s, l);
    StepJoined(c, s, l);
    StepRoomy(c, s, l);
  }

  // ---- Runs ----

  ghost predicate IsRun(c: Config, labels: seq<Label>, states: seq<State>) {
    && |states| == |labels| + 1
    && states[0] == Init(c)
    && forall n :: 0 <= n < |labels| ==> StepTo(c, states[n], labels[n], states[n + 1])
  }

  ghost predicate Reachable(c: Config, s: State) {
    exists labels, states :: IsRun(c, labels, states) && states[|labels|] == s
  }

  lemma {:induction false} RunInv(c: Config, labels: seq<Label>, states: seq<State>, n: nat)
    requires IsRun(c, labels, states) && n <= |labels|
    ensures Inv(c, states[n])
  {
    if n == 0 {
      InitInv(c);
    } else {
      RunInv(c, labels, states, n - 1);
      assert StepTo(c, states[n - 1], labels[n - 1], states[n]);
      StepInv(c, states[n - 1], labels[n - 1]);
    }
  }

  lemma ReachableInv(c: Config, s: State)
    requires Reachable(c, s)
    ensures Inv(c, s)
  {
    var labels, states :| IsRun(c, labels, states) && states[|labels|] == s;
    RunInv(c, labels, states, |labels|);
  }

  lemma ReachableStep(c: Config, s: State, l: Label, t: State)
    requires Reachable(c, s) && StepTo(c, s, l, t)
    ensures Reachable(c, t)
  {
    var labels, states :| IsRun(c, labels, states) && states[|labels|] == s;
    var labels', states' := labels + [l], states + [t];
    forall n | 0 <= n < |labels'| ensures StepTo(c, states'[n], labels'[n], states'[n + 1]) {
      if n < |labels| {
        assert StepTo(c, states[n], labels[n], states[n + 1]);
      }
    }
    assert IsRun(c, labels', states');
  }

  lemma InitReachable(c: Config)
    ensures Reachable(c, Init(c))
  {
    assert IsRun(c, [], [Init(c)]);
  }

  // ---- What holds in every run, joined or not ----

  // Nothing accepted is lost, duplicated or reordered, and nothing is in the
  // queue once the channel is closed.
  lemma AcceptedIsKept(c: Config, s: State)
    requires Reachable(c, s)
    ensures s.accepted == s.file + s.buffer + InHand(s.consumer) + s.queue
    ensures s.closed ==> s.queue == [] && InHand(s.consumer) == []
    ensures s.consumer.Exited? ==> s.file == s.accepted
    ensures |s.queue| <= c.capacity
    ensures Undecided(s.producers) + multiset(s.accepted) + multiset(s.dropped) + multiset(s.ignored)
            == Offered(c.programs)
  {
    ReachableInv(c, s);
  }

  // The handlers' pattern: once ShutdownFileRecorder has returned, the file
  // holds the accepted events in order and every recorded event was either
  // written or dropped, each exactly once.
  lemma JoinedShutdown(c: Config, s: State)
    requires c.joined && Reachable(c, s) && s.owner.Gone?
    ensures s.file == s.accepted && s.queue == [] && s.buffer == []
    ensures multiset(s.file) + multiset(s.dropped) == Offered(c.programs)
    ensures s.wg == 0
  {
    ReachableInv(c, s);
    SumConstant(s.producers, InFlight, 0);
    IdleUndecided(s.producers);
  }

  lemma {:induction false} IdleUndecided(ps: seq<Producer>)
    requires forall i :: 0 <= i < |ps| ==> ps[i] == Idle([])
    ensures Undecided(ps) == multiset{}
  {
    if ps != [] {
      IdleUndecided(ps[1..]);
    }
  }

  // With a slot for every event the file ends up holding all of them.
  lemma NothingDroppedWhenRoomy(c: Config, s: State)
    requires c.joined && Reachable(c, s) && s.owner.Gone? && Count(c.programs) <= c.capacity
    ensures s.dropped == [] && multiset(s.file) == Offered(c.programs)
  {
    ReachableInv(c, s);
    JoinedShutdown(c, s);
  }

  // ---- When can a send hit the closed channel? ----

  lemma PanicWhenNotJoined(c: Config, i: nat)
    requires !c.joined && i < |c.programs| && c.programs[i] != []
    ensures exists s :: Reachable(c, s) && s.panicked
  {
    var todo := c.programs[i];
    var s0 := Init(c);
    InitReachable(c);
    var s1 := Move(s0, i, Held(todo));
    ReachableStep(c, s0, Lookup(i), s1);
    var s2 := s1.(owner := Waiting);
    ReachableStep(c, s1, BeginShutdown, s2);
    var s3 := s2.(owner := Closing, closed := true);
    ReachableStep(c, s2, CloseChannel, s3);
    var s4 := Move(s3, i, Added(todo)).(wg := 1);
    ReachableStep(c, s3, Add(i), s4);
    var s5 := s4.(panicked := true);
    ReachableStep(c, s4, Offer(i), s5);
  }

  lemma {:induction false} NothingToRecordNoPanic(c: Config, labels: seq<Label>, states: seq<State>, n: nat)
    requires IsRun(c, labels, states) && n <= |labels|
    requires forall i :: 0 <= i < |c.programs| ==> c.programs[i] == []
    ensures AllIdle(states[n]) && !states[n].panicked
  {
    if n > 0 {
      NothingToRecordNoPanic(c, labels, states, n - 1);
      assert StepTo(c, states[n - 1], labels[n - 1], states[n]);
    }
  }

  // A send on the closed channel is impossible exactly when shutdown waits for
  // the producers, or there is nothing to record.
  lemma NoPanicExactlyWhenJoined(c: Config)
    ensures (forall s :: Reachable(c, s) ==> !s.panicked)
            <==> c.joined || forall i :: 0 <= i < |c.programs| ==> c.programs[i] == []
  {
    if c.joined {
      forall s | Reachable(c, s) ensures !s.panicked { ReachableInv(c, s); }
    } else if i :| 0 <= i < |c.programs| && c.programs[i] != [] {
      PanicWhenNotJoined(c, i);
    } else {
      forall s | Reachable(c, s) ensures !s.panicked {
        var labels, states :| IsRun(c, labels, states) && states[|labels|] == s;
        NothingToRecordNoPanic(c, labels, states, |labels|);
      }
    }
  }

  // ---- Termination and progress, ticks apart ----

  function Effort(p: Producer): int {
    7 * |p.todo| - (match p case Idle(_) => 0 case Held(_) => 1 case Added(_) => 2 case Dropping(_) => 3)
  }

  function ConsumerEffort(k: Consumer): nat {
    match k
    case Selecting => 1
    case Writing(_) => 3
    case Written => 2
    case Exited => 0
  }

  function OwnerEffort(o: Owner): nat {
    match o
    case Open => 3
    case Waiting => 2
    case Closing => 1
    case Gone => 0
  }

  function Measure(s: State): int {
    Sum(s.producers, Effort) + 3 * |s.queue| + ConsumerEffort(s.consumer) + OwnerEffort(s.owner)
    + if s.panicked then 0 else 1
  }

  lemma StepDecreases(c: Config, s: State, l: Label)
    requires Enabled(c, s, l)
    ensures l.Tick? ==> Measure(Apply(c, s, l)) == Measure(s)
    ensures !l.Tick? ==> Measure(Apply(c, s, l)) < Measure(s)
  {
    if IsProducerLabel(l) {
      ProducerMoves(c, s, l);
      SumUpdate(s.producers, l.i, Apply(c, s, l).producers[l.i], Effort);
    }
  }

  function WorkLabels(labels: seq<Label>): nat {
    if labels == [] then 0
    else WorkLabels(labels[..|labels| - 1]) + if labels[|labels| - 1].Tick? then 0 else 1
  }

  lemma {:induction false} InitEffort(programs: seq<seq<Event>>, ps: seq<Producer>)
    requires |ps| == |programs| && forall i :: 0 <= i < |ps| ==> ps[i] == Idle(programs[i])
    ensures Sum(ps, Effort) == 7 * Count(programs)
  {
    if ps != [] {
      InitEffort(programs[1..], ps[1..]);
    }
  }

  lemma {:induction false} RunMeasure(c: Config, labels: seq<Label>, states: seq<State>)
    requires IsRun(c, labels, states)
    ensures WorkLabels(labels) + Measure(states[|labels|]) <= Measure(Init(c))
  {
    if labels != [] {
      var n := |labels| - 1;
      assert IsRun(c, labels[..n], states[..n + 1]) by {
        forall k | 0 <= k < n ensures StepTo(c, states[..n + 1][k], labels[..n][k], states[..n + 1][k + 1]) {
          assert StepTo(c, states[k], labels[k], states[k + 1]);
        }
      }
      RunMeasure(c, labels[..n], states[..n + 1]);
      RunInv(c, labels, states, n);
      assert StepTo(c, states[n], labels[n], states[n + 1]);
      StepDecreases(c, states[n], labels[n]);
    }
  }

  lemma MeasureNonNegative(s: State)
    requires forall i :: 0 <= i < |s.producers| && !s.producers[i].Idle? ==> s.producers[i].todo != []
    ensures Measure(s) >= 0
  {
    SumNonNegative(s.producers, Effort);
  }

  lemma InitMeasure(c: Config)
    ensures Measure(Init(c)) == 7 * Count(c.programs) + 5
  {
    InitEffort(c.programs, Init(c).producers);
  }

  // Ticker flushes apart, a run has at most seven actions for each event, plus five.
  lemma WorkIsBounded(c: Config, labels: seq<Label>, states: seq<State>)
    requires IsRun(c, labels, states)
    ensures WorkLabels(labels) <= 7 * Count(c.programs) + 5
  {
    RunMeasure(c, labels, states);
    RunInv(c, labels, states, |labels|);
    MeasureNonNegative(states[|labels|]);
    InitMeasure(c);
  }

  // A producer with an event to record can always take its next step.
  lemma ProducerProgress(c: Config, s: State, i: nat) returns (l: Label)
    requires c.joined && Inv(c, s) && i < |s.producers| && s.producers[i] != Idle([])
    ensures Enabled(c, s, l) && IsProducerLabel(l) && l.i == i
  {
    match s.producers[i]
    case Idle(_) => l := Lookup(i);
    case Held(_) => l := Add(i);
    case Added(_) => l := Offer(i);
    case Dropping(_) => l := Drop(i);
  }

  // Until shutdown has returned, somebody other than the ticker can move.
  lemma Progress(c: Config, s: State) returns (l: Label)
    requires c.joined && Inv(c, s) && !s.owner.Gone?
    ensures Enabled(c, s, l) && !l.Tick?
  {
    if i :| 0 <= i < |s.producers| && s.producers[i] != Idle([]) {
      l := ProducerProgress(c, s, i);
    } else if s.owner.Open? {
      l := BeginShutdown;
    } else {
      SumConstant(s.producers, InFlight, 0);
      match s.consumer
      case Writing(_) => l := Write(false);
      case Written => l := MarkDone;
      case Exited => l := EndShutdown;
      case Selecting =>
        l := if s.queue != [] then Receive else if s.closed then SeeClosed else CloseChannel;
    }
  }
}
