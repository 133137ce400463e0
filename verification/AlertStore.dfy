/** End to end: from pod events to the GitOps store, whatever the order of the deliveries. */
module AlertStore {
  import opened Prelude
  import opened AlertFactory
  import opened PubSub
  import opened PubSubSystem
  import opened Controller
  import opened GitOpsAlert

  /** The messages that the manager in position `j` was handed, in the order its calls finished. */
  function MessagesTo(finished: seq<Delivery>, j: nat): seq<Message> {
    if finished == [] then []
    else
      var last := finished[|finished| - 1];
      MessagesTo(finished[..|finished| - 1], j) + if last.index == j then [last.message] else []
  }

  lemma {:induction false} MessagesToMeans(finished: seq<Delivery>, j: nat, m: Message)
    ensures m in MessagesTo(finished, j) <==> exists d :: d in finished && d.index == j && d.message == m
  {
    if finished != [] {
      var init, last := finished[..|finished| - 1], finished[|finished| - 1];
      assert finished == init + [last];
      MessagesToMeans(init, j, m);
    }
  }

  /** A delivery to position `j` is a message there, in its place among the deliveries to `j`. */
  lemma {:induction false} MessageInPlace(finished: seq<Delivery>, j: nat, i: nat)
    requires i < |finished| && finished[i].index == j
    ensures var place := |MessagesTo(finished[..i], j)|;
            place < |MessagesTo(finished, j)| && MessagesTo(finished, j)[place] == finished[i].message
    decreases |finished|
  {
    var init := finished[..|finished| - 1];
    if i < |init| {
      assert init[..i] == finished[..i];
      MessageInPlace(init, j, i);
    }
  }

  /** And every message after it is of a later delivery to `j`. */
  lemma {:induction false} LaterMessage(finished: seq<Delivery>, j: nat, i: nat, k: nat) returns (later: nat)
    requires i < |finished| && finished[i].index == j && |MessagesTo(finished[..i], j)| < k < |MessagesTo(finished, j)|
    ensures i < later < |finished| && finished[later].index == j
    ensures finished[later].message == MessagesTo(finished, j)[k]
    decreases |finished|
  {
    var init := finished[..|finished| - 1];
    assert finished[..i] == init[..i];
    assert init[..|init|] == init;
    if k < |MessagesTo(init, j)| {
      later := LaterMessage(init, j, i, k);
    } else {
      later := |init|;
    }
  }

  /** The calls that the GitOps manager in position `j` has finished, each with the time and order it saw. */
  ghost predicate AreCalls(writes: seq<Write>, finished: seq<Delivery>, j: nat) {
    && AllValid(writes)
    && |writes| == |MessagesTo(finished, j)|
    && forall i :: 0 <= i < |writes| ==> writes[i].message == MessagesTo(finished, j)[i]
  }

  /** A file of the store is the alert file of an alerted event's pod, and holds that event's alert. */
  ghost predicate IsFileOf(p: Pipeline, alertsDir: string, store: map<string, string>, file: string, id: nat,
                           w: Write) {
    && Alerted(p, id) && w.Valid() && Holds(store, file, w)
    && file == AlertFile(alertsDir, p.events[id].podName)
    && IsAlertOf(p, id, w.message)
  }

  /** `store` is what the GitOps manager in position `j` holds after the calls that it has finished. */
  ghost predicate IsStoreOf(store: map<string, string>, managers: seq<Manager>, j: nat, writes: seq<Write>,
                            finished: seq<Delivery>) {
    && j < |managers| && managers[j].GitOps?
    && AreCalls(writes, finished, j)
    && store == StoreAfter(AlertsDir(managers[j].repoDir), writes)
  }

  /** In every reachable state, each file of a GitOps manager's store holds a true alert of an event of its own pod. */
  lemma StoreIsFromEvents(p0: Pipeline, moves: seq<Move>, p: Pipeline, managers: seq<Manager>,
                          j: nat, writes: seq<Write>, store: map<string, string>, file: string)
    returns (id: nat, w: Write)
    requires Starts(p0, managers) && Reaches(p0, moves, p)
    requires IsStoreOf(store, managers, j, writes, p.ps.finished) && file in store
    ensures IsFileOf(p, AlertsDir(managers[j].repoDir), store, file, id, w)
    ensures IsDue(moves, id) && EventArrives(id, p.events[id]) in moves
  {
    var i := StoreHoldsOwn(AlertsDir(managers[j].repoDir), writes, file);
    w := writes[i];
    id := MessageIsFromEvent(p0, moves, p, managers, j, w.message);
  }

  lemma MessageIsFromEvent(p0: Pipeline, moves: seq<Move>, p: Pipeline, managers: seq<Manager>, j: nat, m: Message)
    returns (id: nat)
    requires Starts(p0, managers) && Reaches(p0, moves, p) && m in MessagesTo(p.ps.finished, j)
    ensures Alerted(p, id) && IsAlertOf(p, id, m) && m.podName == p.events[id].podName
    ensures IsDue(moves, id) && EventArrives(id, p.events[id]) in moves
  {
    MessagesToMeans(p.ps.finished, j, m);
    var d :| d in p.ps.finished && d.index == j && d.message == m;
    Provenance(p0, moves, p, managers, d);
    id := d.publisher;
  }

  /**
    The order of the deliveries decides: the file of a pod holds the message of the last finished delivery to the
    manager that is about this pod.
  */
  lemma StoreHoldsLatestDelivery(store: map<string, string>, managers: seq<Manager>, j: nat, writes: seq<Write>,
                                 finished: seq<Delivery>, i: nat)
    returns (w: Write)
    requires IsStoreOf(store, managers, j, writes, finished) && i < |finished| && finished[i].index == j
    requires forall i' :: i < i' < |finished| && finished[i'].index == j ==>
               finished[i'].message.podName != finished[i].message.podName
    ensures w.Valid() && w.message == finished[i].message
    ensures Holds(store, AlertFile(AlertsDir(managers[j].repoDir), finished[i].message.podName), w)
  {
    var place := |MessagesTo(finished[..i], j)|;
    MessageInPlace(finished, j, i);
    w := writes[place];
    forall k | place < k < |writes| ensures writes[k].message.podName != w.message.podName {
      var later := LaterMessage(finished, j, i, k);
    }
    StoreHoldsLast(AlertsDir(managers[j].repoDir), writes, place);
  }

  lemma AtRestAlertIsHanded(p0: Pipeline, moves: seq<Move>, p: Pipeline, managers: seq<Manager>, j: nat, id: nat)
    requires Starts(p0, managers) && Reaches(p0, moves, p) && AtRest(p) && j < |managers|
    requires Alerted(p, id)
    ensures p.watchers[id].message in MessagesTo(p.ps.finished, j)
    ensures p.watchers[id].message.podName == p.events[id].podName
  {
    AtRestEveryAlertArrived(p0, moves, p, managers);
    var d := Delivery(id, j, managers[j], p.watchers[id].message);
    DueMeans(Alerts(p), managers, d);
    assert d in multiset(p.ps.finished);
    Provenance(p0, moves, p, managers, d);
    MessagesToMeans(p.ps.finished, j, d.message);
  }

  /** And at rest every alerted pod has its file in the store of every GitOps manager. */
  lemma StoreIsComplete(p0: Pipeline, moves: seq<Move>, p: Pipeline, managers: seq<Manager>,
                        j: nat, writes: seq<Write>, store: map<string, string>, id: nat)
    requires Starts(p0, managers) && Reaches(p0, moves, p) && AtRest(p)
    requires IsStoreOf(store, managers, j, writes, p.ps.finished)
    requires Alerted(p, id)
    ensures AlertFile(AlertsDir(managers[j].repoDir), p.events[id].podName) in store
  {
    AtRestAlertIsHanded(p0, moves, p, managers, j, id);
    HandedIsStored(p.ps.finished, j, AlertsDir(managers[j].repoDir), writes, p.watchers[id].message);
  }

  lemma HandedIsStored(finished: seq<Delivery>, j: nat, alertsDir: string, writes: seq<Write>, message: Message)
    requires AreCalls(writes, finished, j) && message in MessagesTo(finished, j)
    ensures AlertFile(alertsDir, message.podName) in StoreAfter(alertsDir, writes)
  {
    var i :| 0 <= i < |writes| && MessagesTo(finished, j)[i] == message;
    assert writes[i] in writes;
    StoreFiles(alertsDir, writes, AlertFile(alertsDir, message.podName));
  }

  /** With a service that CreateAlertService built: every alerted event reached the manager of every configured type. */
  lemma EveryConfiguredManagerIsServed(p0: Pipeline, moves: seq<Move>, p: Pipeline, managers: seq<Manager>,
                                       order: seq<AlertManagerType>, config: Config, unparsable: set<string>,
                                       id: nat, t: AlertManagerType)
    returns (i: nat)
    requires Built(managers, order, config.Keys, config, unparsable)
    requires Starts(p0, managers) && Reaches(p0, moves, p) && AtRest(p)
    requires Alerted(p, id) && t in config
    ensures i < |managers| && IsManagerOf(managers[i], t, config[t])
    ensures multiset(p.ps.finished)[Delivery(id, i, managers[i], p.watchers[id].message)] == 1
    ensures |p.ps.finished| == |Alerts(p)| * |config|
  {
    AtRestEveryAlertArrived(p0, moves, p, managers);
    assert t in multiset(config.Keys);
    assert t in order by { assert t in multiset(order); }
    i :| 0 <= i < |order| && order[i] == t;
    assert |multiset(order)| == |order| && |multiset(config.Keys)| == |config.Keys| == |config|;
    DueMeans(Alerts(p), managers, Delivery(id, i, managers[i], p.watchers[id].message));
    WhatIsBuilt(t, config[t], unparsable);
  }
}
