/** The step-level PubSub refines one in which subscribing and publishing are single steps. */
module PubSubRefinement {
  import opened Prelude
  import opened PubSub
  import opened PubSubSystem

  /** The specification: `published` remembers the list each publish went to. */
  datatype AtomicState = AtomicState(
    subscribers: Subscribers,
    pending: multiset<Delivery>,
    finished: seq<Delivery>,
    published: map<nat, seq<Manager>>)

  datatype AtomicStep =
    | AtomicSubscribe(t: nat, topic: string, manager: Manager)
    | AtomicPublish(t: nat, topic: string, message: Message)
    | AtomicFinish(delivery: Delivery)

  /** One delivery to each listed manager, in the order of the list. */
  function DeliveriesTo(t: nat, listed: seq<Manager>, message: Message): (deliveries: seq<Delivery>)
    ensures |deliveries| == |listed|
    ensures forall i :: 0 <= i < |listed| ==> deliveries[i] == Delivery(t, i, listed[i], message)
  {
    seq(|listed|, i requires 0 <= i < |listed| => Delivery(t, i, listed[i], message))
  }

  predicate AtomicEnabled(a: AtomicState, step: AtomicStep) {
    match step
    case AtomicSubscribe(_, _, _) => true
    case AtomicPublish(t, _, _) => t !in a.published
    case AtomicFinish(d) => d in a.pending
  }

  function AtomicApply(a: AtomicState, step: AtomicStep): AtomicState
    requires AtomicEnabled(a, step)
  {
    match step
    case AtomicSubscribe(_, topic, manager) =>
      a.(subscribers := Subscribed(a.subscribers, topic, manager))
    case AtomicPublish(t, topic, message) =>
      var listed := SubscribersOf(a.subscribers, topic);
      a.(pending := a.pending + multiset(DeliveriesTo(t, listed, message)), published := a.published[t := listed])
    case AtomicFinish(d) => a.(pending := a.pending - multiset{d}, finished := a.finished + [d])
  }

  /** What the running loops have yet to spawn. */
  function Unspawned(s: State): set<Delivery> {
    set t, i | && t in s.threads && s.threads[t].PublishLoops? && t in s.snapshots
               && s.threads[t].next <= i < |s.snapshots[t]| ::
      Delivery(t, i, s.snapshots[t][i], s.threads[t].message)
  }

  /** The atomic state a state stands for: a publish has happened once its loop has started. */
  function Abstraction(s: State): AtomicState {
    AtomicState(s.subscribers, s.pending + multiset(Unspawned(s)), s.finished, s.snapshots)
  }

  /** The atomic step that a step performs, if any. */
  function AtomicOf(s: State, step: Step): Option<AtomicStep>
    requires Enabled(s, step)
  {
    match step
    case Append(t) => Some(AtomicSubscribe(t, s.threads[t].topic, s.threads[t].manager))
    case EnterLoop(t) => Some(AtomicPublish(t, s.threads[t].topic, s.threads[t].message))
    case Finish(d) => Some(AtomicFinish(d))
    case _ => None
  }

  lemma StartedLoopUnspawned(s: State, t: nat)
    requires Inv(s) && Enabled(s, EnterLoop(t))
    ensures var listed := SubscribersOf(s.subscribers, s.threads[t].topic);
            multiset(Unspawned(Apply(s, EnterLoop(t))))
            == multiset(Unspawned(s)) + multiset(DeliveriesTo(t, listed, s.threads[t].message))
  {
    var listed := SubscribersOf(s.subscribers, s.threads[t].topic);
    var started := DeliveriesTo(t, listed, s.threads[t].message);
    var s' := Apply(s, EnterLoop(t));
    DistinctDeliveries(t, listed, s.threads[t].message);
    forall d ensures multiset(Unspawned(s'))[d] == (multiset(Unspawned(s)) + multiset(started))[d] {
      assert d in Unspawned(s) ==> d.publisher != t;
      if d in Unspawned(s) {
        assert s'.threads[d.publisher] == s.threads[d.publisher];
        assert s'.snapshots[d.publisher][d.index] == d.manager;
        assert d in Unspawned(s');
      }
      if d in Unspawned(s') && d.publisher != t {
        assert s'.threads[d.publisher] == s.threads[d.publisher];
        assert s.snapshots[d.publisher][d.index] == d.manager;
        assert d in Unspawned(s);
      }
      if d in started {
        var i :| 0 <= i < |started| && started[i] == d;
        assert s'.snapshots[t][i] == listed[i];
        assert d in Unspawned(s');
      }
      if d in Unspawned(s') && d.publisher == t {
        assert d == started[d.index];
      }
    }
  }

  /** The positions keep the deliveries of one publish apart. */
  lemma DistinctDeliveries(t: nat, listed: seq<Manager>, message: Message)
    ensures var deliveries := DeliveriesTo(t, listed, message);
            forall d :: multiset(deliveries)[d] == if d in deliveries then 1 else 0
  {
    DistinctIsSet(DeliveriesTo(t, listed, message));
  }

  lemma {:induction false} DistinctIsSet(deliveries: seq<Delivery>)
    requires forall i, j :: 0 <= i < j < |deliveries| ==> deliveries[i] != deliveries[j]
    ensures forall d :: multiset(deliveries)[d] == if d in deliveries then 1 else 0
  {
    if deliveries != [] {
      DistinctIsSet(deliveries[1..]);
      assert deliveries == [deliveries[0]] + deliveries[1..];
    }
  }

  lemma SpawnedLeavesUnspawned(s: State, t: nat)
    requires Inv(s) && Enabled(s, Spawn(t))
    ensures Spawned(s, t) in Unspawned(s)
    ensures Unspawned(Apply(s, Spawn(t))) == Unspawned(s) - {Spawned(s, t)}
  {
    var s' := Apply(s, Spawn(t));
    forall d ensures d in Unspawned(s') <==> d in Unspawned(s) && d != Spawned(s, t) {
      if d in Unspawned(s) && d != Spawned(s, t) {
        assert d.publisher in s'.threads && s'.snapshots[d.publisher][d.index] == d.manager;
      }
    }
  }

  /** What is yet to be spawned depends on the running loops and their lists only. */
  lemma SameLoopsSameUnspawned(s: State, s': State)
    requires s'.snapshots == s.snapshots
    requires forall t :: t in s.threads && s.threads[t].PublishLoops? ==>
                           t in s'.threads && s'.threads[t] == s.threads[t]
    requires forall t :: t in s'.threads && s'.threads[t].PublishLoops? ==>
                           t in s.threads && s.threads[t] == s'.threads[t]
    ensures Unspawned(s') == Unspawned(s)
  {
  }

  /** Leaving the loop leaves nothing behind that was yet to be spawned. */
  lemma RUnlockLeavesUnspawned(s: State, t: nat)
    requires Inv(s) && Enabled(s, RUnlock(t))
    ensures Unspawned(Apply(s, RUnlock(t))) == Unspawned(s)
  {
    var s' := Apply(s, RUnlock(t));
    forall d ensures d in Unspawned(s') <==> d in Unspawned(s) {
      if d in Unspawned(s) {
        assert s'.threads[d.publisher] == s.threads[d.publisher];
        assert s'.snapshots[d.publisher][d.index] == d.manager;
      }
    }
  }

  /** Every other step leaves what is yet to be spawned alone. */
  lemma OthersLeaveUnspawned(s: State, step: Step)
    requires Inv(s) && Enabled(s, step) && !step.Spawn? && !step.EnterLoop?
    ensures Unspawned(Apply(s, step)) == Unspawned(s)
  {
    if step.RUnlock? {
      RUnlockLeavesUnspawned(s, step.t);
    } else {
      SameLoopsSameUnspawned(s, Apply(s, step));
    }
  }

  /** One step of the atomic PubSub, or nothing. */
  predicate Simulates(a: AtomicState, step: Option<AtomicStep>, a': AtomicState) {
    if step.None? then a' == a
    else AtomicEnabled(a, step.value) && a' == AtomicApply(a, step.value)
  }

  lemma EnterLoopRefines(s: State, t: nat)
    requires Inv(s) && Enabled(s, EnterLoop(t))
    ensures Simulates(Abstraction(s), AtomicOf(s, EnterLoop(t)), Abstraction(Apply(s, EnterLoop(t))))
  {
    StartedLoopUnspawned(s, t);
    var listed := SubscribersOf(s.subscribers, s.threads[t].topic);
    Regroup(s.pending, multiset(Unspawned(s)), multiset(DeliveriesTo(t, listed, s.threads[t].message)));
  }

  lemma Regroup(a: multiset<Delivery>, b: multiset<Delivery>, c: multiset<Delivery>)
    ensures a + (b + c) == a + b + c
  {
  }

  lemma RemoveFromSum(a: multiset<Delivery>, b: multiset<Delivery>, d: Delivery)
    requires d in a
    ensures a + b - multiset{d} == a - multiset{d} + b
  {
  }

  lemma SpawnRefines(s: State, t: nat)
    requires Inv(s) && Enabled(s, Spawn(t))
    ensures Simulates(Abstraction(s), None, Abstraction(Apply(s, Spawn(t))))
  {
    SpawnedLeavesUnspawned(s, t);
    MoveOut(s.pending, Unspawned(s), Spawned(s, t));
  }

  /** Moving a delivery from the set to the multiset. */
  lemma MoveOut(pending: multiset<Delivery>, unspawned: set<Delivery>, d: Delivery)
    requires d in unspawned
    ensures pending + multiset{d} + multiset(unspawned - {d}) == pending + multiset(unspawned)
  {
    assert unspawned == (unspawned - {d}) + {d};
  }

  lemma FinishRefines(s: State, d: Delivery)
    requires Inv(s) && Enabled(s, Finish(d))
    ensures Simulates(Abstraction(s), AtomicOf(s, Finish(d)), Abstraction(Apply(s, Finish(d))))
  {
    OthersLeaveUnspawned(s, Finish(d));
    RemoveFromSum(s.pending, multiset(Unspawned(s)), d);
  }

  /**
    Refinement. Every step is one step of the atomic PubSub or changes nothing there. A subscribe happens
    at its append, a publish at the start of its loop: a moment at which it holds the read lock.
  */
  lemma StepRefines(s: State, step: Step)
    requires Inv(s) && Enabled(s, step)
    ensures Simulates(Abstraction(s), AtomicOf(s, step), Abstraction(Apply(s, step)))
    ensures step.EnterLoop? ==> step.t in s.mu.readers && step.t in Apply(s, step).mu.readers
  {
    match step
    case EnterLoop(t) => EnterLoopRefines(s, t);
    case Spawn(t) => SpawnRefines(s, t);
    case Finish(d) => FinishRefines(s, d);
    case _ => OthersLeaveUnspawned(s, step);
  }

  // ---- Whole executions ----

  /** `steps` leads from `s` to `s'`. */
  predicate Leads(s: State, steps: seq<Step>, s': State)
    decreases |steps|
  {
    if steps == [] then s == s'
    else Enabled(s, steps[0]) && Leads(Apply(s, steps[0]), steps[1..], s')
  }

  predicate AtomicLeads(a: AtomicState, steps: seq<AtomicStep>, a': AtomicState)
    decreases |steps|
  {
    if steps == [] then a == a'
    else AtomicEnabled(a, steps[0]) && AtomicLeads(AtomicApply(a, steps[0]), steps[1..], a')
  }

  /** The atomic steps of an execution, in order. */
  function AtomicTrace(s: State, steps: seq<Step>, s': State): seq<AtomicStep>
    requires Leads(s, steps, s')
    decreases |steps|
  {
    if steps == [] then []
    else
      var first := AtomicOf(s, steps[0]);
      var rest := AtomicTrace(Apply(s, steps[0]), steps[1..], s');
      if first.None? then rest else [first.value] + rest
  }

  /** Every execution keeps the invariant, and its atomic trace is an execution of the atomic PubSub. */
  lemma {:induction false} ExecutionRefines(s: State, steps: seq<Step>, s': State)
    requires Inv(s) && Leads(s, steps, s')
    ensures Inv(s')
    ensures AtomicLeads(Abstraction(s), AtomicTrace(s, steps, s'), Abstraction(s'))
    decreases |steps|
  {
    if steps != [] {
      var s1 := Apply(s, steps[0]);
      StepKeepsInv(s, steps[0]);
      StepRefines(s, steps[0]);
      ExecutionRefines(s1, steps[1..], s');
      var first, rest := AtomicOf(s, steps[0]), AtomicTrace(s1, steps[1..], s');
      if first.Some? {
        assert ([first.value] + rest)[1..] == rest;
      }
    }
  }

  // ---- The atomic steps are those that were called for ----

  /** What a call asks for. */
  function RequestOf(step: Step): Option<AtomicStep> {
    match step
    case CallSubscribe(t, topic, manager) => Some(AtomicSubscribe(t, topic, manager))
    case CallPublish(t, topic, message) => Some(AtomicPublish(t, topic, message))
    case _ => None
  }

  function Requested(steps: seq<Step>): multiset<AtomicStep> {
    if steps == [] then multiset{}
    else
      var request := RequestOf(steps[0]);
      (if request.Some? then multiset{request.value} else multiset{}) + Requested(steps[1..])
  }

  /** The subscribes and publishes of a trace. */
  function Performed(trace: seq<AtomicStep>): multiset<AtomicStep> {
    if trace == [] then multiset{}
    else (if trace[0].AtomicFinish? then multiset{} else multiset{trace[0]}) + Performed(trace[1..])
  }

  /** What a running call is still to do. */
  function StillToDo(t: nat, thread: Thread): Option<AtomicStep> {
    match thread
    case SubscribeWaits(topic, manager) => Some(AtomicSubscribe(t, topic, manager))
    case SubscribeAnnounced(topic, manager) => Some(AtomicSubscribe(t, topic, manager))
    case SubscribeLocked(topic, manager) => Some(AtomicSubscribe(t, topic, manager))
    case PublishWaits(topic, message) => Some(AtomicPublish(t, topic, message))
    case PublishBlocked(topic, message) => Some(AtomicPublish(t, topic, message))
    case PublishLocked(topic, message) => Some(AtomicPublish(t, topic, message))
    case _ => None
  }

  function Waiting(s: State): set<AtomicStep> {
    set t | t in s.threads && StillToDo(t, s.threads[t]).Some? :: StillToDo(t, s.threads[t]).value
  }

  lemma InWaiting(s: State, request: AtomicStep)
    ensures request in Waiting(s) <==>
            && !request.AtomicFinish? && request.t in s.threads
            && StillToDo(request.t, s.threads[request.t]) == Some(request)
  {
  }

  lemma CallWaits(s: State, step: Step)
    requires Enabled(s, step) && step.IsCall()
    ensures RequestOf(step).Some? && RequestOf(step).value !in Waiting(s)
    ensures Waiting(Apply(s, step)) == Waiting(s) + {RequestOf(step).value}
  {
    var s', mine := Apply(s, step), RequestOf(step).value;
    InWaiting(s, mine);
    forall request ensures request in Waiting(s') <==> request in Waiting(s) || request == mine {
      InWaiting(s, request);
      InWaiting(s', request);
    }
  }

  lemma PerformedNoMore(s: State, step: Step)
    requires Enabled(s, step) && (step.Append? || step.EnterLoop?)
    ensures AtomicOf(s, step).Some? && AtomicOf(s, step).value in Waiting(s)
    ensures Waiting(Apply(s, step)) == Waiting(s) - {AtomicOf(s, step).value}
  {
    var s', mine := Apply(s, step), AtomicOf(s, step).value;
    InWaiting(s, mine);
    forall request ensures request in Waiting(s') <==> request in Waiting(s) && request != mine {
      InWaiting(s, request);
      InWaiting(s', request);
    }
  }

  lemma OthersStillWait(s: State, step: Step)
    requires Enabled(s, step) && !step.IsCall() && !step.Append? && !step.EnterLoop?
    ensures Waiting(Apply(s, step)) == Waiting(s)
  {
    var s' := Apply(s, step);
    forall request ensures request in Waiting(s') <==> request in Waiting(s) {
      InWaiting(s, request);
      InWaiting(s', request);
    }
  }

  /** One step: what it asks for and what was waiting is what it performs and what is waiting. */
  lemma StepAccounts(s: State, step: Step)
    requires Enabled(s, step)
    ensures Requested([step]) + multiset(Waiting(s))
            == Performed(Perform(AtomicOf(s, step))) + multiset(Waiting(Apply(s, step)))
  {
    RequestedOne(step);
    PerformedOne(AtomicOf(s, step));
    if step.IsCall() {
      CallWaits(s, step);
    } else if step.Append? || step.EnterLoop? {
      PerformedNoMore(s, step);
    } else {
      OthersStillWait(s, step);
    }
  }

  /** The trace of one step. */
  function Perform(step: Option<AtomicStep>): seq<AtomicStep> {
    if step.None? then [] else [step.value]
  }

  lemma RequestedOne(step: Step)
    ensures Requested([step]) == if RequestOf(step).Some? then multiset{RequestOf(step).value} else multiset{}
  {
    assert [step][1..] == [];
  }

  lemma PerformedOne(step: Option<AtomicStep>)
    ensures Performed(Perform(step)) ==
            if step.Some? && !step.value.AtomicFinish? then multiset{step.value} else multiset{}
  {
    if step.Some? { assert [step.value][1..] == []; }
  }

  lemma RequestedFirst(steps: seq<Step>)
    requires steps != []
    ensures Requested(steps) == Requested([steps[0]]) + Requested(steps[1..])
  {
    RequestedOne(steps[0]);
  }

  lemma PerformedFirst(first: Option<AtomicStep>, rest: seq<AtomicStep>)
    ensures Performed(Perform(first) + rest) == Performed(Perform(first)) + Performed(rest)
  {
    PerformedOne(first);
    if first.Some? {
      assert ([first.value] + rest)[1..] == rest;
    } else {
      assert [] + rest == rest;
    }
  }

  lemma Account(requested: multiset<AtomicStep>, later: multiset<AtomicStep>, waiting: multiset<AtomicStep>,
                performed: multiset<AtomicStep>, after: multiset<AtomicStep>, between: multiset<AtomicStep>,
                end: multiset<AtomicStep>)
    requires requested + waiting == performed + between && later + between == after + end
    ensures requested + later + waiting == performed + after + end
  {
    forall x ensures (requested + later + waiting)[x] == (performed + after + end)[x] {
      assert (requested + waiting)[x] == (performed + between)[x];
      assert (later + between)[x] == (after + end)[x];
    }
  }

  /**
    The atomic trace performs exactly what the calls of an execution ask for, with their topics, managers and
    messages, each once; what is missing is what is still waiting.
  */
  lemma {:induction false} TraceIsRequested(s: State, steps: seq<Step>, s': State)
    requires Leads(s, steps, s')
    ensures Requested(steps) + multiset(Waiting(s)) == Performed(AtomicTrace(s, steps, s')) + multiset(Waiting(s'))
    decreases |steps|
  {
    if steps != [] {
      var s1 := Apply(s, steps[0]);
      var rest := AtomicTrace(s1, steps[1..], s');
      StepAccounts(s, steps[0]);
      TraceIsRequested(s1, steps[1..], s');
      RequestedFirst(steps);
      PerformedFirst(AtomicOf(s, steps[0]), rest);
      assert AtomicTrace(s, steps, s') == Perform(AtomicOf(s, steps[0])) + rest;
      Account(Requested([steps[0]]), Requested(steps[1..]), multiset(Waiting(s)),
              Performed(Perform(AtomicOf(s, steps[0]))), Performed(rest), multiset(Waiting(s1)), multiset(Waiting(s')));
    }
  }

  /** Nobody is in the middle of a call, and no goroutine is left. */
  predicate Quiescent(s: State) {
    (forall t :: t in s.threads ==> s.threads[t].IsDone()) && s.pending == multiset{}
  }

  lemma NobodyWaits(s: State)
    requires forall t :: t in s.threads ==> s.threads[t].IsDone()
    ensures Waiting(s) == {}
  {
    forall t | t in s.threads ensures StillToDo(t, s.threads[t]).None? {
      assert s.threads[t].IsDone();
    }
  }

  /** At quiescence, every call has been performed, each exactly once, and nothing else has. */
  lemma {:induction false} QuiescentCallsPerformed(s0: State, steps: seq<Step>, s: State)
    requires Init(s0) && Leads(s0, steps, s) && Quiescent(s)
    ensures Performed(AtomicTrace(s0, steps, s)) == Requested(steps)
    ensures AtomicLeads(Abstraction(s0), AtomicTrace(s0, steps, s), Abstraction(s))
  {
    InitInv(s0);
    ExecutionRefines(s0, steps, s);
    TraceIsRequested(s0, steps, s);
    NobodyWaits(s0);
    NobodyWaits(s);
    NoneLeft(Requested(steps), Waiting(s0), Performed(AtomicTrace(s0, steps, s)), Waiting(s));
  }

  lemma NoneLeft(a: multiset<AtomicStep>, none: set<AtomicStep>, b: multiset<AtomicStep>, none': set<AtomicStep>)
    requires a + multiset(none) == b + multiset(none') && none == none' == {}
    ensures a == b
  {
    forall x ensures a[x] == b[x] {
      assert (a + multiset(none))[x] == a[x] && (b + multiset(none'))[x] == b[x];
    }
  }

  /**
    At quiescence each publish has reached each manager of the list it started on exactly once a position,
    with its own message, and nobody else has received anything.
  */
  lemma QuiescentDeliveries(s0: State, steps: seq<Step>, s: State, d: Delivery)
    requires Init(s0) && Leads(s0, steps, s) && Quiescent(s)
    ensures d.publisher in s.snapshots <==> d.publisher in s.threads && s.threads[d.publisher].PublishDone?
    ensures multiset(s.finished)[d] ==
            if d.publisher in s.snapshots
            then multiset(DeliveriesTo(d.publisher, s.snapshots[d.publisher], s.threads[d.publisher].message))[d]
            else 0
  {
    InitInv(s0);
    ExecutionRefines(s0, steps, s);
    assert Copies(s, d) == if Issued(s, d) then 1 else 0;
    if d.publisher in s.snapshots {
      var listed, message := s.snapshots[d.publisher], s.threads[d.publisher].message;
      DistinctDeliveries(d.publisher, listed, message);
      if d in DeliveriesTo(d.publisher, listed, message) {
        assert Issued(s, d);
      }
    }
  }

  /** A call to RLock is never refused: it enters at once when there is no writer, and else it is blocked. */
  lemma RLockAlwaysTaken(s: State, t: nat)
    requires t in s.threads && s.threads[t].PublishWaits?
    ensures Enabled(s, RLock(t))
    ensures if s.mu.writer.None? then Apply(s, RLock(t)).threads[t].PublishLocked? && t in Apply(s, RLock(t)).mu.readers
            else Apply(s, RLock(t)).threads[t].PublishBlocked? && Apply(s, RLock(t)).mu.readers == s.mu.readers
  {
  }

  /** The lock never blocks everybody: until quiescence some step other than a new call can be taken. */
  lemma NoDeadlock(s: State) returns (step: Step)
    requires Inv(s) && !Quiescent(s)
    ensures Enabled(s, step) && !step.IsCall()
  {
    if d :| d in s.pending {
      step := Finish(d);
    } else if t :| t in s.mu.readers {
      var thread := s.threads[t];
      step := if thread.PublishBlocked? then Wake(t)
              else if thread.PublishLocked? then EnterLoop(t)
              else if thread.next < thread.bound then Spawn(t)
              else RUnlock(t);
    } else if s.mu.writer.Some? {
      var t := s.mu.writer.value;
      var thread := s.threads[t];
      step := if thread.SubscribeAnnounced? then Lock(t) else if thread.SubscribeLocked? then Append(t) else Unlock(t);
    } else {
      var t :| t in s.threads && !s.threads[t].IsDone();
      step := if s.threads[t].SubscribeWaits? then Announce(t) else RLock(t);
    }
  }
}
