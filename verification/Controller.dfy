/**
  The alert pipeline of the Go controller: pod events, a watcher goroutine for each that qualifies, the
  publish it ends in, and the goroutines that deliver the alert.

  The publishing part is the step system of module PubSubSystem; the thread of an event's publish carries
  the event's number.
*/
module Controller {
  import opened PowerCaps
  import opened PubSub
  import opened PubSubSystem
  import opened PubSubRefinement

  datatype Kind = NoPowerCappingSpec | AbsoluteWatts | RelativeToPeak | RelativeToAverage

  /** r.Get(...) for the config that the pod's label names. */
  datatype Lookup = NotFound | GetFailed | Found(kind: Kind)

  /** An add or update event; `label` is the pod's label value, empty if it has none. */
  datatype PodEvent = PodEvent(isPod: bool, podName: string, powerCapLabel: string, config: Lookup)

  /** handlePodAdd starts a watcher: the object is a labelled pod whose config exists and is relative to the peak. */
  predicate Qualifies(e: PodEvent) {
    e.isPod && e.powerCapLabel != "" && e.config == Found(RelativeToPeak)
  }

  /** A watcher goroutine: waiting out its window, ended by its query, or calling publish with its message. */
  datatype Watcher = Watching | Failed(query: Query) | Sent(query: Query, lookup: map<string, string>, message: Message)

  /** The alert of an event, from the answers its watcher got; failed device lookups leave the devices empty. */
  function AlertFor(e: PodEvent, query: Query, lookup: map<string, string>): Message
    requires QueryPodPeakPower(query).Ok?
  {
    Message(e.podName, CapAt(QueryPodPeakPower(query).value, PowerCapPercentage(e.powerCapLabel)), PodDevices(lookup))
  }

  datatype Pipeline = Pipeline(ps: State, events: map<nat, PodEvent>, watchers: map<nat, Watcher>)

  datatype Move =
    | EventArrives(id: nat, event: PodEvent)
    | WindowEnds(id: nat, query: Query, lookup: map<string, string>)
    | Inner(step: Step)

  predicate CanMove(p: Pipeline, move: Move) {
    match move
    case EventArrives(id, _) => id !in p.events
    case WindowEnds(id, _, _) => id in p.watchers && p.watchers[id].Watching? && id in p.events && id !in p.ps.threads
    case Inner(step) => Enabled(p.ps, step) && !step.IsCall()
  }

  function MoveTo(p: Pipeline, move: Move): Pipeline
    requires CanMove(p, move)
  {
    match move
    case EventArrives(id, event) =>
      p.(events := p.events[id := event],
         watchers := if Qualifies(event) then p.watchers[id := Watching] else p.watchers)
    case WindowEnds(id, query, lookup) =>
      if QueryPodPeakPower(query).Raised? then p.(watchers := p.watchers[id := Failed(query)])
      else
        var message := AlertFor(p.events[id], query, lookup);
        p.(watchers := p.watchers[id := Sent(query, lookup, message)],
           ps := Apply(p.ps, CallPublish(id, ALERTS, message)))
    case Inner(step) => p.(ps := Apply(p.ps, step))
  }

  /** A service that has just been built from its configuration. */
  predicate Starts(p: Pipeline, managers: seq<Manager>) {
    Init(p.ps) && SubscribersOf(p.ps.subscribers, ALERTS) == managers && p.events == map[] && p.watchers == map[]
  }

  /** The event has an alert on its way or out: it qualified and its watcher succeeded. */
  predicate Alerted(p: Pipeline, id: nat) {
    id in p.events && Qualifies(p.events[id]) && id in p.watchers && p.watchers[id].Sent?
  }

  /** A publish call, at any point, of this message on the alerts topic. */
  predicate IsPublishOf(thread: Thread, message: Message) {
    match thread
    case PublishWaits(topic, m) => topic == ALERTS && m == message
    case PublishBlocked(topic, m) => topic == ALERTS && m == message
    case PublishLocked(topic, m) => topic == ALERTS && m == message
    case PublishLoops(topic, m, _, _) => topic == ALERTS && m == message
    case PublishDone(topic, m) => topic == ALERTS && m == message
    case _ => false
  }

  /** Watchers belong to qualifying events, publish calls to watchers that succeeded. */
  ghost predicate WatcherInv(p: Pipeline) {
    && (forall id :: id in p.watchers <==> id in p.events && Qualifies(p.events[id]))
    && (forall t :: t in p.ps.threads <==> t in p.watchers && p.watchers[t].Sent?)
  }

  /** Every publish call is of its watcher's message, to the managers the service was built with. */
  ghost predicate PublishInv(p: Pipeline, managers: seq<Manager>) {
    && SubscribersOf(p.ps.subscribers, ALERTS) == managers
    && (forall t :: t in p.ps.threads ==>
          t in p.watchers && p.watchers[t].Sent? && IsPublishOf(p.ps.threads[t], p.watchers[t].message))
    && (forall t :: t in p.ps.snapshots ==> p.ps.snapshots[t] == managers)
  }

  /** Every message is the alert of its event. */
  ghost predicate MessageInv(p: Pipeline) {
    forall id :: id in p.watchers && p.watchers[id].Sent? ==>
      && id in p.events
      && QueryPodPeakPower(p.watchers[id].query).Ok?
      && p.watchers[id].message == AlertFor(p.events[id], p.watchers[id].query, p.watchers[id].lookup)
  }

  ghost predicate PipelineInv(p: Pipeline, managers: seq<Manager>) {
    Inv(p.ps) && WatcherInv(p) && PublishInv(p, managers) && MessageInv(p)
  }

  lemma PubSubKept(p: Pipeline, move: Move)
    requires CanMove(p, move) && Inv(p.ps)
    ensures Inv(MoveTo(p, move).ps)
  {
    match move
    case EventArrives(id, event) =>
    case WindowEnds(id, query, lookup) =>
      if QueryPodPeakPower(query).Ok? {
        StepKeepsInv(p.ps, CallPublish(id, ALERTS, AlertFor(p.events[id], query, lookup)));
      }
    case Inner(step) => StepKeepsInv(p.ps, step);
  }

  lemma EventKeepsWatchers(p: Pipeline, id: nat, event: PodEvent)
    requires CanMove(p, EventArrives(id, event)) && WatcherInv(p)
    ensures WatcherInv(MoveTo(p, EventArrives(id, event)))
  {
  }

  lemma WindowKeepsWatchers(p: Pipeline, id: nat, query: Query, lookup: map<string, string>)
    requires CanMove(p, WindowEnds(id, query, lookup)) && WatcherInv(p)
    ensures WatcherInv(MoveTo(p, WindowEnds(id, query, lookup)))
  {
  }

  lemma StepKeepsThreadIds(s: State, step: Step)
    requires Enabled(s, step) && !step.IsCall()
    ensures Apply(s, step).threads.Keys == s.threads.Keys
  {
  }

  lemma WatchersKept(p: Pipeline, move: Move)
    requires CanMove(p, move) && WatcherInv(p)
    ensures WatcherInv(MoveTo(p, move))
  {
    match move
    case EventArrives(id, event) => EventKeepsWatchers(p, id, event);
    case WindowEnds(id, query, lookup) => WindowKeepsWatchers(p, id, query, lookup);
    case Inner(step) => StepKeepsThreadIds(p.ps, step);
  }

  /** A step inside the PubSub: no thread subscribes here, so the list stays the service's own. */
  lemma InnerPublishKept(p: Pipeline, step: Step, managers: seq<Manager>)
    requires CanMove(p, Inner(step)) && PublishInv(p, managers)
    ensures PublishInv(MoveTo(p, Inner(step)), managers)
  {
    var ps' := Apply(p.ps, step);
    forall t | t in ps'.threads ensures IsPublishOf(ps'.threads[t], p.watchers[t].message) {
      assert t in p.ps.threads && IsPublishOf(p.ps.threads[t], p.watchers[t].message);
    }
    if !step.Finish? {
      assert IsPublishOf(p.ps.threads[step.t], p.watchers[step.t].message);
    }
    assert ps'.subscribers == p.ps.subscribers;
  }

  lemma PublishKept(p: Pipeline, move: Move, managers: seq<Manager>)
    requires CanMove(p, move) && WatcherInv(p) && PublishInv(p, managers)
    ensures PublishInv(MoveTo(p, move), managers)
  {
    match move
    case EventArrives(id, event) =>
    case WindowEnds(id, query, lookup) =>
      var p' := MoveTo(p, move);
      forall t | t in p'.ps.threads
        ensures t in p'.watchers && p'.watchers[t].Sent? && IsPublishOf(p'.ps.threads[t], p'.watchers[t].message)
      {
        if t != id { assert t in p.ps.threads; }
      }
    case Inner(step) => InnerPublishKept(p, step, managers);
  }

  lemma MessagesKept(p: Pipeline, move: Move)
    requires CanMove(p, move) && WatcherInv(p) && MessageInv(p)
    ensures MessageInv(MoveTo(p, move))
  {
  }

  lemma MoveKeepsInv(p: Pipeline, move: Move, managers: seq<Manager>)
    requires CanMove(p, move) && PipelineInv(p, managers)
    ensures PipelineInv(MoveTo(p, move), managers)
  {
    PubSubKept(p, move);
    WatchersKept(p, move);
    PublishKept(p, move, managers);
    MessagesKept(p, move);
  }

  predicate Reaches(p: Pipeline, moves: seq<Move>, p': Pipeline)
    decreases |moves|
  {
    if moves == [] then p == p'
    else CanMove(p, moves[0]) && Reaches(MoveTo(p, moves[0]), moves[1..], p')
  }

  lemma {:induction false} ReachableInv(p: Pipeline, moves: seq<Move>, p': Pipeline, managers: seq<Manager>)
    requires PipelineInv(p, managers) && Reaches(p, moves, p')
    ensures PipelineInv(p', managers)
    decreases |moves|
  {
    if moves != [] {
      MoveKeepsInv(p, moves[0], managers);
      ReachableInv(MoveTo(p, moves[0]), moves[1..], p', managers);
    }
  }

  // ---- What the moves say of the events and the watchers ----

  /** The query got an answer with a sample in it. */
  predicate HasSample(query: Query) {
    query.Samples? && query.values != []
  }

  /** What the end of a window makes of a watcher: only the query decides whether it fails. */
  predicate EndedWith(watcher: Watcher, query: Query, lookup: map<string, string>) {
    match watcher
    case Watching => false
    case Failed(q) => q == query && !HasSample(query)
    case Sent(q, l, _) => q == query && l == lookup && HasSample(query)
  }

  predicate HasEnded(p: Pipeline, id: nat) {
    id in p.watchers && !p.watchers[id].Watching?
  }

  /** Events and ended watchers stay as they are. */
  ghost predicate Settled(p: Pipeline, p': Pipeline) {
    && (forall id :: id in p.events ==> id in p'.events && p'.events[id] == p.events[id])
    && (forall id :: HasEnded(p, id) ==> HasEnded(p', id) && p'.watchers[id] == p.watchers[id])
  }

  /** What the state holds is what the moves have brought, and nothing else. */
  ghost predicate Recorded(p: Pipeline, moves: seq<Move>, p': Pipeline) {
    && (forall id, e :: EventArrives(id, e) in moves ==> id in p'.events && p'.events[id] == e)
    && (forall id, q, l :: WindowEnds(id, q, l) in moves ==> id in p'.watchers && EndedWith(p'.watchers[id], q, l))
    && (forall id :: id in p'.events && id !in p.events ==> EventArrives(id, p'.events[id]) in moves)
    && (forall id :: HasEnded(p', id) && !HasEnded(p, id) ==> exists q, l :: WindowEnds(id, q, l) in moves)
  }

  lemma MoveSettles(p: Pipeline, move: Move)
    requires CanMove(p, move) && WatcherInv(p)
    ensures Settled(p, MoveTo(p, move)) && Recorded(p, [move], MoveTo(p, move))
  {
    assert move in [move];
  }

  lemma RecordsJoin(p: Pipeline, move: Move, p1: Pipeline, rest: seq<Move>, p2: Pipeline)
    requires Settled(p, p1) && Recorded(p, [move], p1) && Settled(p1, p2) && Recorded(p1, rest, p2)
    ensures Settled(p, p2) && Recorded(p, [move] + rest, p2)
  {
    assert move in [move];
    forall id | HasEnded(p2, id) && !HasEnded(p, id) ensures exists q, l :: WindowEnds(id, q, l) in [move] + rest {
      if HasEnded(p1, id) {
        var q, l :| WindowEnds(id, q, l) in [move];
        assert WindowEnds(id, q, l) in [move] + rest;
      } else {
        var q, l :| WindowEnds(id, q, l) in rest;
        assert WindowEnds(id, q, l) in [move] + rest;
      }
    }
  }

  lemma {:induction false} MovesAreRecorded(p: Pipeline, moves: seq<Move>, p': Pipeline, managers: seq<Manager>)
    requires PipelineInv(p, managers) && Reaches(p, moves, p')
    ensures Settled(p, p') && Recorded(p, moves, p')
    decreases |moves|
  {
    if moves != [] {
      var p1 := MoveTo(p, moves[0]);
      MoveKeepsInv(p, moves[0], managers);
      MoveSettles(p, moves[0]);
      MovesAreRecorded(p1, moves[1..], p', managers);
      RecordsJoin(p, moves[0], p1, moves[1..], p');
      assert moves == [moves[0]] + moves[1..];
    }
  }

  /**
    Among the moves, event `id` arrived as a labelled pod whose config exists and is relative to the peak, and
    the query of its watcher got a sample. Of the device lookups nothing is asked.
  */
  ghost predicate IsDue(moves: seq<Move>, id: nat) {
    && (exists e :: && EventArrives(id, e) in moves
                    && e.isPod && e.powerCapLabel != "" && e.config == Found(RelativeToPeak))
    && exists q, l :: WindowEnds(id, q, l) in moves && HasSample(q)
  }

  /** In every reachable state, the alerted events are exactly those. */
  lemma AlertedIsDue(p0: Pipeline, moves: seq<Move>, p: Pipeline, managers: seq<Manager>, id: nat)
    requires Starts(p0, managers) && Reaches(p0, moves, p)
    ensures Alerted(p, id) <==> IsDue(moves, id)
    ensures Alerted(p, id) ==>
              && EventArrives(id, p.events[id]) in moves
              && WindowEnds(id, p.watchers[id].query, p.watchers[id].lookup) in moves
              && HasSample(p.watchers[id].query)
  {
    StartsInv(p0, managers);
    ReachableInv(p0, moves, p, managers);
    MovesAreRecorded(p0, moves, p, managers);
    if Alerted(p, id) {
      RecordedAlertIsDue(p0, moves, p, id);
    }
    if IsDue(moves, id) {
      DueIsAlerted(p0, moves, p, id);
    }
  }

  lemma RecordedAlertIsDue(p0: Pipeline, moves: seq<Move>, p: Pipeline, id: nat)
    requires Recorded(p0, moves, p) && p0.events == map[] && p0.watchers == map[] && Alerted(p, id)
    ensures IsDue(moves, id) && EventArrives(id, p.events[id]) in moves && HasSample(p.watchers[id].query)
    ensures WindowEnds(id, p.watchers[id].query, p.watchers[id].lookup) in moves
  {
    assert HasEnded(p, id) && !HasEnded(p0, id);
    var q, l :| WindowEnds(id, q, l) in moves;
    assert EndedWith(p.watchers[id], q, l);
    assert EventArrives(id, p.events[id]) in moves;
  }

  lemma DueIsAlerted(p0: Pipeline, moves: seq<Move>, p: Pipeline, id: nat)
    requires Recorded(p0, moves, p) && WatcherInv(p) && IsDue(moves, id)
    ensures Alerted(p, id)
  {
    var q, l :| WindowEnds(id, q, l) in moves && HasSample(q);
    assert EndedWith(p.watchers[id], q, l);
  }

  /**
    Provenance. In every reachable state, every delivery, waiting or done, comes once from one labelled pod
    event that arrived, whose config exists and is relative to the peak and whose watcher's query got a sample;
    it goes to one of the configured managers and carries that event's alert, whose cap is the whole watts in
    the label's percentage of the sample.
  */
  lemma Provenance(p0: Pipeline, moves: seq<Move>, p: Pipeline, managers: seq<Manager>, d: Delivery)
    requires Starts(p0, managers) && Reaches(p0, moves, p)
    requires d in p.ps.pending || d in p.ps.finished
    ensures Copies(p.ps, d) == 1
    ensures Alerted(p, d.publisher) && IsDue(moves, d.publisher)
    ensures EventArrives(d.publisher, p.events[d.publisher]) in moves
    ensures WindowEnds(d.publisher, p.watchers[d.publisher].query, p.watchers[d.publisher].lookup) in moves
    ensures d.index < |managers| && d.manager == managers[d.index]
    ensures IsAlertOf(p, d.publisher, d.message)
  {
    StartsInv(p0, managers);
    ReachableInv(p0, moves, p, managers);
    IssuedIsAlerted(p, managers, d);
    SentIsAlert(p, d.publisher);
    AlertedIsDue(p0, moves, p, managers, d.publisher);
  }

  /** The message names the event's pod, caps it at its label's percentage of the sample, and lists its devices. */
  ghost predicate IsAlertOf(p: Pipeline, id: nat, message: Message)
    requires Alerted(p, id)
  {
    var query := p.watchers[id].query;
    && HasSample(query)
    && message.podName == p.events[id].podName
    && IsCapOf(message.powerCapValue, query.values[0], PowerCapPercentage(p.events[id].powerCapLabel))
    && message.devices == PodDevices(p.watchers[id].lookup)
  }

  lemma SentIsAlert(p: Pipeline, id: nat)
    requires MessageInv(p) && Alerted(p, id)
    ensures IsAlertOf(p, id, p.watchers[id].message)
  {
    CapBounds(QueryPodPeakPower(p.watchers[id].query).value, p.events[id].powerCapLabel);
  }

  lemma StartsInv(p: Pipeline, managers: seq<Manager>)
    requires Starts(p, managers)
    ensures PipelineInv(p, managers)
  {
    InitInv(p.ps);
  }

  lemma IssuedIsAlerted(p: Pipeline, managers: seq<Manager>, d: Delivery)
    requires PipelineInv(p, managers) && (d in p.ps.pending || d in p.ps.finished)
    ensures Copies(p.ps, d) == 1
    ensures Alerted(p, d.publisher) && d.message == p.watchers[d.publisher].message
    ensures d.index < |managers| && d.manager == managers[d.index]
  {
    assert Copies(p.ps, d) >= 1;
    assert Issued(p.ps, d);
  }

  /** Nothing is under way: no window is open, no publish is running, no goroutine is left. */
  predicate AtRest(p: Pipeline) {
    (forall id :: id in p.watchers ==> !p.watchers[id].Watching?) && Quiescent(p.ps)
  }

  /** The alerts that must have gone out, by event: whatever became of the device lookups. */
  function Alerts(p: Pipeline): map<nat, Message> {
    map id | id in p.events && Alerted(p, id) :: p.watchers[id].message
  }

  /** One delivery for each alert and each configured manager. */
  function DueDeliveries(alerts: map<nat, Message>, managers: seq<Manager>): set<Delivery> {
    set id, i | id in alerts && 0 <= i < |managers| :: Delivery(id, i, managers[i], alerts[id])
  }

  /**
    Completeness. At rest, the finished deliveries are exactly one for each alerted event and each configured
    manager, and so as many as the product of the two numbers. An event is alerted exactly when it arrived and
    qualified and the query of its watcher got a sample; so device lookups suppress no alert.
  */
  lemma AtRestEveryAlertArrived(p0: Pipeline, moves: seq<Move>, p: Pipeline, managers: seq<Manager>)
    requires Starts(p0, managers) && Reaches(p0, moves, p) && AtRest(p)
    ensures multiset(p.ps.finished) == multiset(DueDeliveries(Alerts(p), managers))
    ensures |p.ps.finished| == |Alerts(p)| * |managers|
    ensures forall id :: id in Alerts(p) <==> IsDue(moves, id)
    ensures forall id, e :: EventArrives(id, e) in moves && Qualifies(e) ==>
              exists q, l :: WindowEnds(id, q, l) in moves
  {
    StartsInv(p0, managers);
    ReachableInv(p0, moves, p, managers);
    RestDelivered(p, managers);
    RestCount(p, managers);
    forall id ensures id in Alerts(p) <==> IsDue(moves, id) {
      AlertedIsDue(p0, moves, p, managers, id);
    }
    RestWatched(p0, moves, p, managers);
  }

  /** At rest, every event that qualified has had its window end. */
  lemma RestWatched(p0: Pipeline, moves: seq<Move>, p: Pipeline, managers: seq<Manager>)
    requires Starts(p0, managers) && Reaches(p0, moves, p) && AtRest(p)
    ensures forall id, e :: EventArrives(id, e) in moves && Qualifies(e) ==>
              exists q, l :: WindowEnds(id, q, l) in moves
  {
    StartsInv(p0, managers);
    ReachableInv(p0, moves, p, managers);
    MovesAreRecorded(p0, moves, p, managers);
    forall id, e | EventArrives(id, e) in moves && Qualifies(e) ensures exists q, l :: WindowEnds(id, q, l) in moves {
      assert p.events[id] == e && id in p.watchers;
    }
  }

  lemma RestCount(p: Pipeline, managers: seq<Manager>)
    requires multiset(p.ps.finished) == multiset(DueDeliveries(Alerts(p), managers))
    ensures |p.ps.finished| == |Alerts(p)| * |managers|
  {
    DueCount(Alerts(p), managers);
    assert |multiset(p.ps.finished)| == |p.ps.finished|;
  }

  lemma RestDelivered(p: Pipeline, managers: seq<Manager>)
    requires PipelineInv(p, managers) && AtRest(p)
    ensures multiset(p.ps.finished) == multiset(DueDeliveries(Alerts(p), managers))
  {
    forall d ensures multiset(p.ps.finished)[d] == multiset(DueDeliveries(Alerts(p), managers))[d] {
      assert Copies(p.ps, d) == if Issued(p.ps, d) then 1 else 0;
      IssuedIsDue(p, managers, d);
    }
  }

  /** What it means to be due, without the set. */
  lemma DueMeans(alerts: map<nat, Message>, managers: seq<Manager>, d: Delivery)
    ensures d in DueDeliveries(alerts, managers) <==>
            && d.publisher in alerts && d.index < |managers|
            && d.manager == managers[d.index] && d.message == alerts[d.publisher]
  {
    if && d.publisher in alerts && d.index < |managers|
       && d.manager == managers[d.index] && d.message == alerts[d.publisher] {
      assert d == Delivery(d.publisher, d.index, managers[d.index], alerts[d.publisher]);
    }
  }

  lemma IssuedIsDue(p: Pipeline, managers: seq<Manager>, d: Delivery)
    requires PipelineInv(p, managers) && AtRest(p)
    ensures Issued(p.ps, d) <==> d in DueDeliveries(Alerts(p), managers)
  {
    DueMeans(Alerts(p), managers, d);
  }

  function Row(id: nat, managers: seq<Manager>, n: nat, message: Message): set<Delivery>
    requires n <= |managers|
  {
    set i | 0 <= i < n :: Delivery(id, i, managers[i], message)
  }

  lemma {:induction false} RowCount(id: nat, managers: seq<Manager>, n: nat, message: Message)
    requires n <= |managers|
    ensures |Row(id, managers, n, message)| == n
  {
    if n > 0 {
      RowCount(id, managers, n - 1, message);
      var last := Delivery(id, n - 1, managers[n - 1], message);
      assert last !in Row(id, managers, n - 1, message);
      assert Row(id, managers, n, message) == Row(id, managers, n - 1, message) + {last};
    }
  }

  lemma AlertRowCount(alerts: map<nat, Message>, managers: seq<Manager>, id: nat)
    requires id in alerts
    ensures |DueDeliveries(alerts, managers)| == |DueDeliveries(alerts - {id}, managers)| + |managers|
    ensures |alerts| == |alerts - {id}| + 1
  {
    RowCount(id, managers, |managers|, alerts[id]);
    OneRowMore(alerts, managers, id);
    DisjointCount(DueDeliveries(alerts - {id}, managers), Row(id, managers, |managers|, alerts[id]));
    OneAlertLess(alerts, id);
  }

  lemma DisjointCount(a: set<Delivery>, b: set<Delivery>)
    requires a !! b
    ensures |a + b| == |a| + |b|
  {
  }

  lemma OneAlertLess(alerts: map<nat, Message>, id: nat)
    requires id in alerts
    ensures |alerts| == |alerts - {id}| + 1
  {
    assert alerts == (alerts - {id})[id := alerts[id]];
  }

  /** A row an event, a column a manager. */
  lemma {:induction false} DueCount(alerts: map<nat, Message>, managers: seq<Manager>)
    ensures |DueDeliveries(alerts, managers)| == |alerts| * |managers|
    decreases |alerts|
  {
    if alerts == map[] {
      assert DueDeliveries(alerts, managers) == {};
    } else {
      var id :| id in alerts;
      AlertRowCount(alerts, managers, id);
      DueCount(alerts - {id}, managers);
      OneMoreTimes(|alerts - {id}|, |managers|);
    }
  }

  lemma OneMoreTimes(rows: nat, columns: nat)
    ensures (rows + 1) * columns == rows * columns + columns
  {
  }

  lemma OneRowMore(alerts: map<nat, Message>, managers: seq<Manager>, id: nat)
    requires id in alerts
    ensures var row := Row(id, managers, |managers|, alerts[id]);
            && DueDeliveries(alerts, managers) == DueDeliveries(alerts - {id}, managers) + row
            && DueDeliveries(alerts - {id}, managers) !! row
  {
    var row := Row(id, managers, |managers|, alerts[id]);
    forall d ensures d in DueDeliveries(alerts, managers) <==> d in DueDeliveries(alerts - {id}, managers) || d in row {
      DueMeans(alerts, managers, d);
      DueMeans(alerts - {id}, managers, d);
      if d.publisher == id && d.index < |managers| && d.manager == managers[d.index] && d.message == alerts[id] {
        assert d == Delivery(id, d.index, managers[d.index], alerts[id]);
      }
    }
  }
}
