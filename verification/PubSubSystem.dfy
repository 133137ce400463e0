/**
  PubSub under concurrency: any number of subscribers and publishers, step by step.

  A Subscribe call takes the write lock, appends and unlocks. A Publish call takes the read lock, evaluates
  the range expression (which fixes how many elements the loop will visit), spawns one goroutine an
  iteration, reading the element from the shared list at that moment, and unlocks. Spawned goroutines
  finish in any order, also while the loop that spawns them is still running.
*/
module PubSubSystem {
  import opened Prelude
  import opened PubSub

  /** Who spawned a goroutine, in which iteration, and its two arguments. */
  datatype Delivery = Delivery(publisher: nat, index: nat, manager: Manager, message: Message)

  /** Where a call is. */
  datatype Thread =
    | SubscribeWaits(topic: string, manager: Manager)
    | SubscribeAnnounced(topic: string, manager: Manager)
    | SubscribeLocked(topic: string, manager: Manager)
    | SubscribeAppended
    | SubscribeDone
    | PublishWaits(topic: string, message: Message)
    | PublishBlocked(topic: string, message: Message)
    | PublishLocked(topic: string, message: Message)
    | PublishLoops(topic: string, message: Message, bound: nat, next: nat)
    | PublishDone(topic: string, message: Message)
  {
    predicate Writes() { SubscribeLocked? || SubscribeAppended? }
    predicate ClaimsWrite() { SubscribeAnnounced? || Writes() }
    predicate Reads() { PublishLocked? || PublishLoops? }
    predicate IsDone() { SubscribeDone? || PublishDone? }
  }

  /**
    sync.RWMutex. Lock first claims the mutex against other writers, then waits until the readers have left.
    From the claim on, an RLock call blocks; Unlock lets all blocked readers in before any other writer.
  */
  datatype RWMutex = RWMutex(writer: Option<nat>, readers: set<nat>, blocked: set<nat>)

  /** `snapshots` is history: the list a publisher's loop started on. */
  datatype State = State(
    subscribers: Subscribers,
    mu: RWMutex,
    threads: map<nat, Thread>,
    pending: multiset<Delivery>,
    finished: seq<Delivery>,
    snapshots: map<nat, seq<Manager>>)

  datatype Step =
    | CallSubscribe(t: nat, topic: string, manager: Manager)
    | CallPublish(t: nat, topic: string, message: Message)
    | Announce(t: nat)
    | Lock(t: nat)
    | Append(t: nat)
    | Unlock(t: nat)
    | RLock(t: nat)
    | Wake(t: nat)
    | EnterLoop(t: nat)
    | Spawn(t: nat)
    | RUnlock(t: nat)
    | Finish(delivery: Delivery)
  {
    /** A new call, as opposed to a step of one that is running. */
    predicate IsCall() { CallSubscribe? || CallPublish? }
  }

  predicate Enabled(s: State, step: Step) {
    match step
    case CallSubscribe(t, _, _) => t !in s.threads
    case CallPublish(t, _, _) => t !in s.threads
    case Announce(t) => t in s.threads && s.threads[t].SubscribeWaits? && s.mu.writer.None?
    case Lock(t) => t in s.threads && s.threads[t].SubscribeAnnounced? && s.mu.readers == {}
    case Append(t) => t in s.threads && s.threads[t].SubscribeLocked?
    case Unlock(t) => t in s.threads && s.threads[t].SubscribeAppended?
    case RLock(t) => t in s.threads && s.threads[t].PublishWaits?
    case Wake(t) => t in s.threads && s.threads[t].PublishBlocked? && t in s.mu.readers
    case EnterLoop(t) => t in s.threads && s.threads[t].PublishLocked?
    case Spawn(t) =>
      && t in s.threads && s.threads[t].PublishLoops? && s.threads[t].next < s.threads[t].bound
      && s.threads[t].next < |SubscribersOf(s.subscribers, s.threads[t].topic)|
    case RUnlock(t) => t in s.threads && s.threads[t].PublishLoops? && s.threads[t].next == s.threads[t].bound
    case Finish(d) => d in s.pending
  }

  /** The goroutine that the next iteration of a loop starts. */
  function Spawned(s: State, t: nat): Delivery
    requires Enabled(s, Spawn(t))
  {
    var loop := s.threads[t];
    Delivery(t, loop.next, SubscribersOf(s.subscribers, loop.topic)[loop.next], loop.message)
  }

  function Apply(s: State, step: Step): State
    requires Enabled(s, step)
  {
    match step
    case CallSubscribe(t, topic, manager) => s.(threads := s.threads[t := SubscribeWaits(topic, manager)])
    case CallPublish(t, topic, message) => s.(threads := s.threads[t := PublishWaits(topic, message)])
    case Announce(t) =>
      s.(mu := s.mu.(writer := Some(t)),
         threads := s.threads[t := SubscribeAnnounced(s.threads[t].topic, s.threads[t].manager)])
    case Lock(t) => s.(threads := s.threads[t := SubscribeLocked(s.threads[t].topic, s.threads[t].manager)])
    case Append(t) =>
      s.(subscribers := Subscribed(s.subscribers, s.threads[t].topic, s.threads[t].manager),
         threads := s.threads[t := SubscribeAppended])
    case Unlock(t) =>
      s.(mu := RWMutex(None, s.mu.readers + s.mu.blocked, {}), threads := s.threads[t := SubscribeDone])
    case RLock(t) =>
      var topic, message := s.threads[t].topic, s.threads[t].message;
      if s.mu.writer.None? then
        s.(mu := s.mu.(readers := s.mu.readers + {t}), threads := s.threads[t := PublishLocked(topic, message)])
      else
        s.(mu := s.mu.(blocked := s.mu.blocked + {t}), threads := s.threads[t := PublishBlocked(topic, message)])
    case Wake(t) => s.(threads := s.threads[t := PublishLocked(s.threads[t].topic, s.threads[t].message)])
    case EnterLoop(t) =>
      var listed := SubscribersOf(s.subscribers, s.threads[t].topic);
      s.(threads := s.threads[t := PublishLoops(s.threads[t].topic, s.threads[t].message, |listed|, 0)],
         snapshots := s.snapshots[t := listed])
    case Spawn(t) =>
      s.(threads := s.threads[t := s.threads[t].(next := s.threads[t].next + 1)],
         pending := s.pending + multiset{Spawned(s, t)})
    case RUnlock(t) =>
      s.(mu := s.mu.(readers := s.mu.readers - {t}),
         threads := s.threads[t := PublishDone(s.threads[t].topic, s.threads[t].message)])
    case Finish(d) => s.(pending := s.pending - multiset{d}, finished := s.finished + [d])
  }

  /** How a service starts: some subscribers, nobody calling. */
  predicate Init(s: State) {
    && s.mu == RWMutex(None, {}, {}) && s.threads == map[] && s.pending == multiset{} && s.finished == []
    && s.snapshots == map[]
  }

  // ---- What every step keeps ----

  /**
    The lock excludes: a writer that holds it is alone, the threads in their critical sections are holders,
    and readers are blocked only while there is a writer to let them in again.
  */
  ghost predicate LockInv(s: State) {
    && (forall t :: t in s.threads && s.threads[t].ClaimsWrite() <==> s.mu.writer == Some(t))
    && (forall t :: t in s.threads && s.threads[t].Writes() ==> s.mu.readers == {})
    && (forall t :: t in s.threads && s.threads[t].Reads() ==> t in s.mu.readers)
    && (forall t :: t in s.mu.readers ==> t in s.threads && (s.threads[t].Reads() || s.threads[t].PublishBlocked?))
    && (forall t :: t in s.threads && s.threads[t].PublishBlocked? ==> t in s.mu.readers || t in s.mu.blocked)
    && (forall t :: t in s.mu.blocked ==> t !in s.mu.readers && t in s.threads && s.threads[t].PublishBlocked?)
    && (s.mu.writer.None? ==> s.mu.blocked == {})
  }

  /** A running loop still sees the list it started on; a publisher has a snapshot once it entered its loop. */
  ghost predicate SnapshotInv(s: State) {
    && (forall t :: t in s.snapshots <==> t in s.threads && (s.threads[t].PublishLoops? || s.threads[t].PublishDone?))
    && (forall t :: t in s.threads && s.threads[t].PublishLoops? ==>
          && t in s.snapshots && s.snapshots[t] == SubscribersOf(s.subscribers, s.threads[t].topic)
          && s.threads[t].next <= s.threads[t].bound == |s.snapshots[t]|)
  }

  /** The iterations a publisher has been through. */
  function Progress(s: State, t: nat): nat {
    if t in s.threads && t in s.snapshots then
      if s.threads[t].PublishLoops? then s.threads[t].next else |s.snapshots[t]|
    else 0
  }

  /** `d` is what its publisher's loop must have started by now. */
  predicate Issued(s: State, d: Delivery) {
    && d.publisher in s.threads && (s.threads[d.publisher].PublishLoops? || s.threads[d.publisher].PublishDone?)
    && d.publisher in s.snapshots
    && d.index < Progress(s, d.publisher) && d.index < |s.snapshots[d.publisher]|
    && d.manager == s.snapshots[d.publisher][d.index]
    && d.message == s.threads[d.publisher].message
  }

  function Copies(s: State, d: Delivery): nat {
    s.pending[d] + multiset(s.finished)[d]
  }

  /**
    Conservation: the pending and the finished deliveries together are, each exactly once, the iterated
    prefixes of the snapshots, in their positions and with their publisher's message; nothing else.
  */
  ghost predicate DeliveryInv(s: State) {
    forall d :: Copies(s, d) == if Issued(s, d) then 1 else 0
  }

  ghost predicate Inv(s: State) {
    LockInv(s) && SnapshotInv(s) && DeliveryInv(s)
  }

  lemma InitInv(s: State)
    requires Init(s)
    ensures Inv(s)
  {
  }

  lemma UnlockKeepsLock(s: State, t: nat)
    requires Enabled(s, Unlock(t)) && LockInv(s)
    ensures LockInv(Apply(s, Unlock(t)))
  {
  }

  lemma RLockKeepsLock(s: State, t: nat)
    requires Enabled(s, RLock(t)) && LockInv(s)
    ensures LockInv(Apply(s, RLock(t)))
  {
  }

  lemma RUnlockKeepsLock(s: State, t: nat)
    requires Enabled(s, RUnlock(t)) && LockInv(s)
    ensures LockInv(Apply(s, RUnlock(t)))
  {
  }

  lemma WritersKeepLock(s: State, step: Step)
    requires Enabled(s, step) && LockInv(s) && (step.Announce? || step.Lock? || step.Append?)
    ensures LockInv(Apply(s, step))
  {
  }

  lemma CallsKeepLock(s: State, step: Step)
    requires Enabled(s, step) && LockInv(s) && step.IsCall()
    ensures LockInv(Apply(s, step))
  {
  }

  lemma WakeKeepsLock(s: State, t: nat)
    requires Enabled(s, Wake(t)) && LockInv(s)
    ensures LockInv(Apply(s, Wake(t)))
  {
  }

  /** A reader in its loop stays a reader. */
  lemma LoopsKeepLock(s: State, step: Step)
    requires Enabled(s, step) && LockInv(s) && (step.EnterLoop? || step.Spawn?)
    ensures LockInv(Apply(s, step))
  {
    var s' := Apply(s, step);
    assert s'.mu == s.mu && s.threads[step.t].Reads() && s'.threads[step.t].Reads();
    assert forall u :: u in s'.threads && u != step.t ==> u in s.threads && s'.threads[u] == s.threads[u];
  }

  lemma LockKept(s: State, step: Step)
    requires Enabled(s, step) && LockInv(s)
    ensures LockInv(Apply(s, step))
  {
    match step
    case Unlock(t) => UnlockKeepsLock(s, t);
    case RLock(t) => RLockKeepsLock(s, t);
    case RUnlock(t) => RUnlockKeepsLock(s, t);
    case Announce(_) => WritersKeepLock(s, step);
    case Lock(_) => WritersKeepLock(s, step);
    case Append(_) => WritersKeepLock(s, step);
    case CallSubscribe(_, _, _) => CallsKeepLock(s, step);
    case CallPublish(_, _, _) => CallsKeepLock(s, step);
    case Wake(t) => WakeKeepsLock(s, t);
    case EnterLoop(_) => LoopsKeepLock(s, step);
    case Spawn(_) => LoopsKeepLock(s, step);
    case Finish(_) =>
  }

  /** Appending needs the write lock, and so finds no loop to disturb. */
  lemma AppendKeepsSnapshots(s: State, t: nat)
    requires Enabled(s, Append(t)) && LockInv(s) && SnapshotInv(s)
    ensures SnapshotInv(Apply(s, Append(t)))
  {
    assert s.threads[t].Writes() && s.mu.readers == {};
    assert forall u :: u in s.threads ==> !s.threads[u].Reads();
  }

  lemma EnterLoopKeepsSnapshots(s: State, t: nat)
    requires Enabled(s, EnterLoop(t)) && LockInv(s) && SnapshotInv(s)
    ensures SnapshotInv(Apply(s, EnterLoop(t)))
  {
  }

  lemma LoopsKeepSnapshots(s: State, step: Step)
    requires Enabled(s, step) && LockInv(s) && SnapshotInv(s) && (step.Spawn? || step.RUnlock?)
    ensures SnapshotInv(Apply(s, step))
  {
  }

  lemma CallsKeepSnapshots(s: State, step: Step)
    requires Enabled(s, step) && LockInv(s) && SnapshotInv(s) && step.IsCall()
    ensures SnapshotInv(Apply(s, step))
  {
  }

  lemma WritersKeepSnapshots(s: State, step: Step)
    requires Enabled(s, step) && LockInv(s) && SnapshotInv(s) && (step.Announce? || step.Lock? || step.Unlock?)
    ensures SnapshotInv(Apply(s, step))
  {
  }

  lemma ReadersKeepSnapshots(s: State, step: Step)
    requires Enabled(s, step) && LockInv(s) && SnapshotInv(s) && (step.RLock? || step.Wake?)
    ensures SnapshotInv(Apply(s, step))
  {
  }

  /** Under the lock a running loop keeps seeing the list it started on, whatever step is taken. */
  lemma SnapshotKept(s: State, step: Step)
    requires Enabled(s, step) && LockInv(s) && SnapshotInv(s)
    ensures SnapshotInv(Apply(s, step))
  {
    match step
    case Append(t) => AppendKeepsSnapshots(s, t);
    case EnterLoop(t) => EnterLoopKeepsSnapshots(s, t);
    case Spawn(_) => LoopsKeepSnapshots(s, step);
    case RUnlock(_) => LoopsKeepSnapshots(s, step);
    case CallSubscribe(_, _, _) => CallsKeepSnapshots(s, step);
    case CallPublish(_, _, _) => CallsKeepSnapshots(s, step);
    case RLock(_) => ReadersKeepSnapshots(s, step);
    case Wake(_) => ReadersKeepSnapshots(s, step);
    case Finish(_) =>
    case _ => WritersKeepSnapshots(s, step);
  }

  lemma SpawnIssues(s: State, t: nat, d: Delivery)
    requires Enabled(s, Spawn(t)) && Inv(s)
    ensures Issued(Apply(s, Spawn(t)), d) <==> Issued(s, d) || d == Spawned(s, t)
    ensures !Issued(s, Spawned(s, t))
  {
  }

  /** Entering and leaving a loop issues nothing: the first has no progress yet, the second had it all. */
  lemma LoopEndsIssueNothing(s: State, step: Step, d: Delivery)
    requires Enabled(s, step) && Inv(s) && (step.EnterLoop? || step.RUnlock?)
    ensures Issued(Apply(s, step), d) <==> Issued(s, d)
  {
  }

  lemma OthersIssueNothing(s: State, step: Step, d: Delivery)
    requires Enabled(s, step) && Inv(s) && !step.Spawn? && !step.EnterLoop? && !step.RUnlock?
    ensures Issued(Apply(s, step), d) <==> Issued(s, d)
  {
    var s' := Apply(s, step);
    assert s'.snapshots == s.snapshots;
    if d.publisher in s.snapshots {
      assert s'.threads[d.publisher] == s.threads[d.publisher];
    }
  }

  lemma SpawnKeepsDeliveries(s: State, t: nat)
    requires Enabled(s, Spawn(t)) && Inv(s)
    ensures DeliveryInv(Apply(s, Spawn(t)))
  {
    var s' := Apply(s, Spawn(t));
    forall d ensures Copies(s', d) == if Issued(s', d) then 1 else 0 {
      assert Copies(s, d) == if Issued(s, d) then 1 else 0;
      SpawnIssues(s, t, d);
      assert Copies(s', d) == Copies(s, d) + if d == Spawned(s, t) then 1 else 0;
    }
  }

  lemma OthersKeepDeliveries(s: State, step: Step)
    requires Enabled(s, step) && Inv(s) && !step.Spawn?
    ensures DeliveryInv(Apply(s, step))
  {
    var s' := Apply(s, step);
    forall d ensures Copies(s', d) == if Issued(s', d) then 1 else 0 {
      assert Copies(s, d) == if Issued(s, d) then 1 else 0;
      if step.EnterLoop? || step.RUnlock? { LoopEndsIssueNothing(s, step, d); } else { OthersIssueNothing(s, step, d); }
      CopiesMoved(s, step, d);
    }
  }

  /** Finishing moves a delivery, and nothing but a spawn makes a new one. */
  lemma CopiesMoved(s: State, step: Step, d: Delivery)
    requires Enabled(s, step) && !step.Spawn?
    ensures Copies(Apply(s, step), d) == Copies(s, d)
  {
    if step.Finish? {
      assert multiset(s.finished + [step.delivery])[d]
             == multiset(s.finished)[d] + if d == step.delivery then 1 else 0;
    }
  }

  lemma DeliveryKept(s: State, step: Step)
    requires Enabled(s, step) && Inv(s)
    ensures DeliveryInv(Apply(s, step))
  {
    if step.Spawn? {
      SpawnKeepsDeliveries(s, step.t);
    } else {
      OthersKeepDeliveries(s, step);
    }
  }

  lemma StepKeepsInv(s: State, step: Step)
    requires Enabled(s, step) && Inv(s)
    ensures Inv(Apply(s, step))
  {
    LockKept(s, step);
    SnapshotKept(s, step);
    DeliveryKept(s, step);
  }
}
