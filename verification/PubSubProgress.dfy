/**
  Progress: every step of a running call or goroutine brings the PubSub closer to rest, so once nobody calls
  any more every execution ends, and it ends at rest.
*/
module PubSubProgress {
  import opened PubSub
  import opened PubSubSystem
  import opened PubSubRefinement

  // ---- Totals of a table ----

  ghost function Total(ranks: map<nat, nat>): nat {
    if ranks == map[] then 0
    else
      var t :| t in ranks;
      ranks[t] + Total(ranks - {t})
  }

  lemma {:induction false} TotalSplit(ranks: map<nat, nat>, t: nat)
    requires t in ranks
    ensures Total(ranks) == ranks[t] + Total(ranks - {t})
    decreases ranks
  {
    var first :| first in ranks && Total(ranks) == ranks[first] + Total(ranks - {first});
    if first != t {
      TotalSplit(ranks - {first}, t);
      TotalSplit(ranks - {t}, first);
      assert ranks - {first} - {t} == ranks - {t} - {first};
    }
  }

  lemma {:induction false} TotalMonotone(ranks: map<nat, nat>, ranks': map<nat, nat>)
    requires ranks'.Keys == ranks.Keys && forall t :: t in ranks ==> ranks'[t] <= ranks[t]
    ensures Total(ranks') <= Total(ranks)
    decreases ranks
  {
    if t :| t in ranks {
      TotalSplit(ranks, t);
      TotalSplit(ranks', t);
      TotalMonotone(ranks - {t}, ranks' - {t});
    } else {
      assert ranks' == map[];
    }
  }

  /** If no entry grows and one falls by `drop`, so does the total. */
  lemma TotalDrops(ranks: map<nat, nat>, ranks': map<nat, nat>, t: nat, drop: nat)
    requires ranks'.Keys == ranks.Keys && forall u :: u in ranks ==> ranks'[u] <= ranks[u]
    requires t in ranks && ranks'[t] + drop <= ranks[t]
    ensures Total(ranks') + drop <= Total(ranks)
  {
    TotalSplit(ranks, t);
    TotalSplit(ranks', t);
    TotalMonotone(ranks - {t}, ranks' - {t});
  }

  lemma TotalAdds(ranks: map<nat, nat>, t: nat, rank: nat)
    requires t !in ranks
    ensures Total(ranks[t := rank]) == Total(ranks) + rank
  {
    TotalSplit(ranks[t := rank], t);
    assert ranks[t := rank] - {t} == ranks;
  }

  // ---- How far from rest ----

  /** The subscribe calls that have yet to append. */
  function Appending(s: State): set<nat> {
    set t | && t in s.threads
            && (s.threads[t].SubscribeWaits? || s.threads[t].SubscribeAnnounced? || s.threads[t].SubscribeLocked?)
  }

  /** No loop of a publish on `topic` that starts from here on, without new calls, has more iterations. */
  function Reach(s: State, topic: string): nat {
    |SubscribersOf(s.subscribers, topic)| + |Appending(s)|
  }

  /** The most steps a call can still take, counting two for each goroutine: its start and its end. */
  function Rank(s: State, thread: Thread): nat {
    match thread
    case SubscribeWaits(_, _) => 4
    case SubscribeAnnounced(_, _) => 3
    case SubscribeLocked(_, _) => 2
    case SubscribeAppended => 1
    case SubscribeDone => 0
    case PublishWaits(topic, _) => 2 * Reach(s, topic) + 5
    case PublishBlocked(topic, _) => 2 * Reach(s, topic) + 4
    case PublishLocked(topic, _) => 2 * Reach(s, topic) + 3
    case PublishLoops(_, _, bound, next) => if next <= bound then 2 * (bound - next) + 1 else 0
    case PublishDone(_, _) => 0
  }

  function Ranks(s: State): (ranks: map<nat, nat>)
    ensures ranks.Keys == s.threads.Keys
  {
    map t | t in s.threads :: Rank(s, s.threads[t])
  }

  ghost function Distance(s: State): nat {
    Total(Ranks(s)) + |s.pending|
  }

  /** Every append makes one list longer and uses up one subscribe call. */
  lemma ReachNeverGrows(s: State, step: Step, topic: string)
    requires Enabled(s, step) && !step.IsCall()
    ensures Reach(Apply(s, step), topic) <= Reach(s, topic)
  {
    var s' := Apply(s, step);
    if step.Append? {
      assert Appending(s') == Appending(s) - {step.t};
    } else {
      assert Appending(s') <= Appending(s);
      SubsetIsSmaller(Appending(s'), Appending(s));
    }
  }

  lemma {:induction false} SubsetIsSmaller(a: set<nat>, b: set<nat>)
    requires a <= b
    ensures |a| <= |b|
  {
    assert b == a + (b - a);
  }

  /** How far a step lowers the rank of its thread: by two if it starts a goroutine, which counts one by itself. */
  function Drop(step: Step): nat {
    if step.Spawn? then 2 else 1
  }

  lemma SubscribeStepLowersRank(s: State, step: Step)
    requires Inv(s) && Enabled(s, step) && (step.Announce? || step.Lock? || step.Append? || step.Unlock?)
    ensures var s' := Apply(s, step); Rank(s', s'.threads[step.t]) < Rank(s, s.threads[step.t])
  {
  }

  lemma LockStepLowersRank(s: State, step: Step)
    requires Inv(s) && Enabled(s, step) && (step.RLock? || step.Wake?)
    ensures var s' := Apply(s, step); Rank(s', s'.threads[step.t]) < Rank(s, s.threads[step.t])
  {
    ReachNeverGrows(s, step, s.threads[step.t].topic);
  }

  lemma LoopStepLowersRank(s: State, step: Step)
    requires Inv(s) && Enabled(s, step) && (step.EnterLoop? || step.Spawn? || step.RUnlock?)
    ensures var s' := Apply(s, step); Rank(s', s'.threads[step.t]) + Drop(step) <= Rank(s, s.threads[step.t])
  {
  }

  /** The thread that steps gets a smaller rank. */
  lemma StepLowersRank(s: State, step: Step)
    requires Inv(s) && Enabled(s, step) && !step.IsCall() && !step.Finish?
    ensures var s' := Apply(s, step);
            step.t in s'.threads && Rank(s', s'.threads[step.t]) + Drop(step) <= Rank(s, s.threads[step.t])
  {
    if step.EnterLoop? || step.Spawn? || step.RUnlock? {
      LoopStepLowersRank(s, step);
    } else if step.RLock? || step.Wake? {
      LockStepLowersRank(s, step);
    } else {
      SubscribeStepLowersRank(s, step);
    }
  }

  lemma OtherRanksFall(s: State, step: Step, u: nat)
    requires Inv(s) && Enabled(s, step) && !step.IsCall() && !step.Finish? && u in s.threads && u != step.t
    ensures var s' := Apply(s, step);
            u in s'.threads && Rank(s', s'.threads[u]) <= Rank(s, s.threads[u])
  {
    assert Apply(s, step).threads[u] == s.threads[u];
    match s.threads[u]
    case PublishWaits(topic, _) => ReachNeverGrows(s, step, topic);
    case PublishBlocked(topic, _) => ReachNeverGrows(s, step, topic);
    case PublishLocked(topic, _) => ReachNeverGrows(s, step, topic);
    case _ =>
  }

  lemma StepKeepsThreads(s: State, step: Step)
    requires Enabled(s, step) && !step.IsCall() && !step.Finish?
    ensures Apply(s, step).threads.Keys == s.threads.Keys
    ensures |Apply(s, step).pending| == |s.pending| + Drop(step) - 1
  {
  }

  lemma ThreadStepDrops(s: State, step: Step)
    requires Inv(s) && Enabled(s, step) && !step.IsCall() && !step.Finish?
    ensures Distance(Apply(s, step)) < Distance(s)
  {
    var ranks, ranks' := Ranks(s), Ranks(Apply(s, step));
    StepKeepsThreads(s, step);
    StepLowersRank(s, step);
    forall u | u in ranks ensures ranks'[u] <= ranks[u] {
      if u != step.t { OtherRanksFall(s, step, u); }
    }
    TotalDrops(ranks, ranks', step.t, Drop(step));
  }

  lemma FinishDrops(s: State, d: Delivery)
    requires Enabled(s, Finish(d))
    ensures Distance(Apply(s, Finish(d))) < Distance(s)
  {
    var s' := Apply(s, Finish(d));
    assert Appending(s') == Appending(s);
    assert Ranks(s') == Ranks(s);
  }

  /** Every step that is not a new call brings the PubSub closer to rest. */
  lemma StepDrops(s: State, step: Step)
    requires Inv(s) && Enabled(s, step) && !step.IsCall()
    ensures Distance(Apply(s, step)) < Distance(s)
  {
    if step.Finish? {
      FinishDrops(s, step.delivery);
    } else {
      ThreadStepDrops(s, step);
    }
  }

  /** Ranks depend on the lists and on the number of pending appends only. */
  lemma SameRanks(s: State, s': State)
    requires Appending(s) == {} && s'.subscribers == s.subscribers
    requires forall t :: t in s'.threads && t !in s.threads ==> s'.threads[t].PublishWaits?
    requires forall t :: t in s.threads ==> t in s'.threads && s'.threads[t] == s.threads[t]
    ensures forall thread: Thread :: Rank(s', thread) == Rank(s, thread)
  {
    forall t | t in Appending(s') ensures t in Appending(s) { assert t in s.threads; }
    assert Appending(s') == {};
  }

  /** A new publish adds the rank of a call that has everything before it, and changes no other rank. */
  lemma NewPublishAdds(s: State, t: nat, topic: string, message: Message)
    requires Enabled(s, CallPublish(t, topic, message)) && Appending(s) == {}
    ensures Distance(Apply(s, CallPublish(t, topic, message)))
            == Distance(s) + 2 * |SubscribersOf(s.subscribers, topic)| + 5
  {
    var s' := Apply(s, CallPublish(t, topic, message));
    var rank := 2 * |SubscribersOf(s.subscribers, topic)| + 5;
    SameRanks(s, s');
    assert Ranks(s') == Ranks(s)[t := rank];
    TotalAdds(Ranks(s), t, rank);
  }

  /**
    Without new calls every execution is over after a number of steps that is fixed at its start, and where it
    cannot go on it is at rest.
  */
  lemma {:induction false} ExecutionsEnd(s: State, steps: seq<Step>, s': State)
    requires Inv(s) && Leads(s, steps, s') && forall step :: step in steps ==> !step.IsCall()
    ensures |steps| + Distance(s') <= Distance(s)
    ensures (forall step :: Enabled(s', step) ==> step.IsCall()) <==> Quiescent(s')
    decreases |steps|
  {
    if steps == [] {
      if !Quiescent(s') {
        var step := NoDeadlock(s');
      } else {
        forall step | Enabled(s', step) ensures step.IsCall() { NothingToDo(s', step); }
      }
    } else {
      StepKeepsInv(s, steps[0]);
      StepDrops(s, steps[0]);
      ExecutionsEnd(Apply(s, steps[0]), steps[1..], s');
    }
  }

  lemma NothingToDo(s: State, step: Step)
    requires Quiescent(s) && Enabled(s, step)
    ensures step.IsCall()
  {
  }
}
