/** Progress of the pipeline: once no more pod events arrive, every alert is delivered. */
module ControllerProgress {
  import opened PowerCaps
  import opened PubSub
  import opened PubSubRefinement
  import opened PubSubProgress
  import opened Controller

  /** The watchers whose window is open. */
  function Open(p: Pipeline): set<nat> {
    set id | id in p.watchers && p.watchers[id].Watching?
  }

  /** An open window counts for its own end and for the publish it may lead to. */
  ghost function PipelineDistance(p: Pipeline, managers: seq<Manager>): nat {
    Distance(p.ps) + |Open(p)| * (2 * |managers| + 6)
  }

  /** Nobody subscribes in the pipeline. */
  lemma NobodyAppends(p: Pipeline, managers: seq<Manager>)
    requires PublishInv(p, managers)
    ensures Appending(p.ps) == {}
  {
    forall t | t in p.ps.threads ensures t !in Appending(p.ps) {
      assert IsPublishOf(p.ps.threads[t], p.watchers[t].message);
    }
  }

  lemma OneWindowLess(open: nat, cost: nat)
    requires open > 0
    ensures (open - 1) * cost + cost == open * cost
  {
  }

  lemma OpenAfterWindow(p: Pipeline, id: nat, query: Query, lookup: map<string, string>)
    requires CanMove(p, WindowEnds(id, query, lookup))
    ensures |Open(MoveTo(p, WindowEnds(id, query, lookup)))| == |Open(p)| - 1
  {
    assert Open(MoveTo(p, WindowEnds(id, query, lookup))) == Open(p) - {id};
  }

  lemma DistanceAfterWindow(p: Pipeline, id: nat, query: Query, lookup: map<string, string>, managers: seq<Manager>)
    requires PublishInv(p, managers) && CanMove(p, WindowEnds(id, query, lookup))
    ensures Distance(MoveTo(p, WindowEnds(id, query, lookup)).ps) <= Distance(p.ps) + 2 * |managers| + 5
  {
    NobodyAppends(p, managers);
    if QueryPodPeakPower(query).Ok? {
      NewPublishAdds(p.ps, id, ALERTS, AlertFor(p.events[id], query, lookup));
    }
  }

  lemma WindowEndDrops(p: Pipeline, id: nat, query: Query, lookup: map<string, string>, managers: seq<Manager>)
    requires PublishInv(p, managers) && CanMove(p, WindowEnds(id, query, lookup))
    ensures PipelineDistance(MoveTo(p, WindowEnds(id, query, lookup)), managers) < PipelineDistance(p, managers)
  {
    OpenAfterWindow(p, id, query, lookup);
    OneWindowLess(|Open(p)|, 2 * |managers| + 6);
    DistanceAfterWindow(p, id, query, lookup, managers);
  }

  /** Every move but a new event brings the pipeline closer to rest. */
  lemma MoveDrops(p: Pipeline, move: Move, managers: seq<Manager>)
    requires PipelineInv(p, managers) && CanMove(p, move) && !move.EventArrives?
    ensures PipelineDistance(MoveTo(p, move), managers) < PipelineDistance(p, managers)
  {
    match move
    case WindowEnds(id, query, lookup) => WindowEndDrops(p, id, query, lookup, managers);
    case Inner(step) =>
      StepDrops(p.ps, step);
      assert Open(MoveTo(p, move)) == Open(p);
  }

  /** Until rest there is some move other than a new event. */
  lemma NextMove(p: Pipeline, managers: seq<Manager>) returns (move: Move)
    requires PipelineInv(p, managers) && !AtRest(p)
    ensures CanMove(p, move) && !move.EventArrives?
  {
    if id :| id in p.watchers && p.watchers[id].Watching? {
      move := WindowEnds(id, QueryFailed, map[]);
    } else {
      var step := NoDeadlock(p.ps);
      move := Inner(step);
    }
  }

  /**
    Without new events the pipeline comes to rest, however its moves are ordered and whatever its watchers find:
    the number of moves is bounded from the start, and where none is left it is at rest.
  */
  lemma {:induction false} PipelineComesToRest(p: Pipeline, moves: seq<Move>, p': Pipeline, managers: seq<Manager>)
    requires PipelineInv(p, managers) && Reaches(p, moves, p')
    requires forall move :: move in moves ==> !move.EventArrives?
    ensures PipelineInv(p', managers)
    ensures |moves| + PipelineDistance(p', managers) <= PipelineDistance(p, managers)
    ensures (forall move :: CanMove(p', move) ==> move.EventArrives?) ==> AtRest(p')
    decreases |moves|
  {
    if moves == [] {
      if !AtRest(p') {
        var move := NextMove(p', managers);
      }
    } else {
      MoveKeepsInv(p, moves[0], managers);
      MoveDrops(p, moves[0], managers);
      PipelineComesToRest(MoveTo(p, moves[0]), moves[1..], p', managers);
    }
  }

  lemma ReachesFirst(p: Pipeline, moves: seq<Move>, p': Pipeline)
    requires moves != [] && CanMove(p, moves[0]) && Reaches(MoveTo(p, moves[0]), moves[1..], p')
    ensures Reaches(p, moves, p')
  {
  }

  lemma {:induction false} ReachesFurther(p: Pipeline, moves: seq<Move>, p1: Pipeline, more: seq<Move>, p2: Pipeline)
    requires Reaches(p, moves, p1) && Reaches(p1, more, p2)
    ensures Reaches(p, moves + more, p2)
    decreases |moves|
  {
    if moves == [] {
      assert moves + more == more;
    } else {
      var all := moves + more;
      assert all[0] == moves[0] && all[1..] == moves[1..] + more;
      ReachesFurther(MoveTo(p, moves[0]), moves[1..], p1, more, p2);
      ReachesFirst(p, all, p2);
    }
  }

  /**
    Delivery, without the hypothesis of being at rest: after any execution, as soon as the moves that can still
    be made without new events have all been made, each alerted event has reached each configured manager once.
  */
  lemma EveryAlertArrives(p0: Pipeline, moves: seq<Move>, p: Pipeline, more: seq<Move>, p': Pipeline,
                          managers: seq<Manager>)
    requires Starts(p0, managers) && Reaches(p0, moves, p)
    requires Reaches(p, more, p') && forall move :: move in more ==> !move.EventArrives?
    ensures |more| <= PipelineDistance(p, managers)
    ensures (forall move :: CanMove(p', move) ==> move.EventArrives?) ==>
              && multiset(p'.ps.finished) == multiset(DueDeliveries(Alerts(p'), managers))
              && |p'.ps.finished| == |Alerts(p')| * |managers|
              && forall id :: id in Alerts(p') <==> IsDue(moves + more, id)
  {
    StartsInv(p0, managers);
    ReachableInv(p0, moves, p, managers);
    PipelineComesToRest(p, more, p', managers);
    if forall move :: CanMove(p', move) ==> move.EventArrives? {
      ReachesFurther(p0, moves, p, more, p');
      AtRestEveryAlertArrived(p0, moves + more, p', managers);
    }
  }

  // ---- What can always happen ----

  /** Any event can arrive under a new number, and an open window can end with any answers. */
  lemma AnythingCanArrive(p: Pipeline, managers: seq<Manager>)
    requires PipelineInv(p, managers)
    ensures forall id, e :: id !in p.events ==> CanMove(p, EventArrives(id, e))
    ensures forall id, q, l :: id in p.watchers && p.watchers[id].Watching? ==> CanMove(p, WindowEnds(id, q, l))
  {
  }

  /** The alert of a pod labelled high that draws 200 W, when the lookup of its second device fails. */
  lemma HighAlert(e: PodEvent, lookup: map<string, string>)
    requires e.powerCapLabel == "high" && "gpu" !in lookup
    ensures AlertFor(e, Samples([200.0]), lookup) == Message(e.podName, 180, map[])
  {
    CapBounds(200.0, "high");
  }

  /**
    A failed lookup suppresses nothing: a pod arrives, its window ends with 200 W and one device only, and the alert
    is on its way, with a cap of 180 W and no devices.
  */
  lemma FailedLookupStillAlerts(p0: Pipeline, managers: seq<Manager>, e: PodEvent)
    returns (moves: seq<Move>, p: Pipeline)
    requires Starts(p0, managers)
    requires e.isPod && e.powerCapLabel == "high" && e.config == Found(RelativeToPeak)
    ensures moves == [EventArrives(0, e), WindowEnds(0, Samples([200.0]), map["package" := "p0"])]
    ensures Reaches(p0, moves, p) && Alerted(p, 0) && Alerts(p)[0] == Message(e.podName, 180, map[])
  {
    var lookup := map["package" := "p0"];
    var first, second := EventArrives(0, e), WindowEnds(0, Samples([200.0]), lookup);
    moves := [first, second];
    StartsInv(p0, managers);
    var p1 := MoveTo(p0, first);
    MoveKeepsInv(p0, first, managers);
    p := MoveTo(p1, second);
    HighAlert(e, lookup);
    assert moves[1..] == [second] && [second][1..] == [];
    ReachesFirst(p1, [second], p);
    ReachesFirst(p0, moves, p);
  }
}
