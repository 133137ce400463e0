/** Whole histories: create events, ticks and other clients, in any order and number. */
module Runs {
  import opened Prelude
  import opened Cluster
  import opened ChangeLog
  import opened WriteLoop
  import opened ReadLoop
  import opened Ticks
  import opened TickProperties

  datatype Event =
    | Created(spec: Spec, namespace: string, script: Script)
    | Ticked(spec: Spec, namespace: string, env: Env)
    | OthersActed(edits: Edits)

  datatype Outcome = Outcome(store: Store, changes: seq<Change>)

  ghost function Step(s: Store, e: Event): Outcome {
    match e
    case Created(spec, namespace, script) =>
      var r := Create(s, spec, namespace, script); Outcome(r.store, r.changes)
    case Ticked(spec, namespace, env) =>
      var r := Tick(s, spec, namespace, env); Outcome(r.store, r.changes)
    case OthersActed(edits) => Outcome(Interfere(s, edits), Logged(edits))
  }

  /** A history: the store it ends in and all that happened to it, in order. */
  ghost function Run(s: Store, events: seq<Event>): Outcome
    decreases |events|
  {
    if events == [] then Outcome(s, [])
    else
      var first := Step(s, events[0]);
      var rest := Run(first.store, events[1..]);
      Outcome(rest.store, first.changes + rest.changes)
  }

  /** The edits are those that the event's environment makes. */
  ghost predicate MadeIn(edits: Edits, e: Event) {
    && edits != map[]
    && match e
       case Created(_, _, script) => InScript(edits, script)
       case Ticked(_, _, env) => InScript(edits, env.readScript) || InScript(edits, env.writeScript)
       case OthersActed(others) => edits == others
  }

  /** The objects that the references of an event name. */
  function Objects(e: Event): set<ObjectKey> {
    match e
    case Created(spec, namespace, _) => Referenced(KeysOf(spec.Refs(), namespace))
    case Ticked(spec, namespace, _) => Referenced(KeysOf(spec.Refs(), namespace))
    case OthersActed(_) => {}
  }

  /** The whole hundreds in a cap. */
  predicate IsHundreds(count: int, cap: int) {
    100 * count <= cap < 100 * (count + 1)
  }

  /**
    A patch that the event makes when it starts from `s`: of an object that it references; by a create event
    with the whole hundreds in its valid cap, by a tick with 1 or the limit of a deployment measured in it.
  */
  ghost predicate IsPatchOf(s: Store, e: Event, patch: Patch) {
    && Patched(patch) in Step(s, e).changes && patch.key in Objects(e)
    && match e
       case Created(spec, _, _) => ValidSpec(spec) && IsHundreds(patch.maxReplicaCount, spec.powerCapLimit.value)
       case Ticked(spec, namespace, env) =>
         var readings := ReadFrom(s, KeysOf(spec.Refs(), namespace), env, 0, map[]).readings;
         readings.Some? && IsMeasuredLimit(Powers(readings.value), spec.powerCapLimit, patch.maxReplicaCount)
       case OthersActed(_) => false
  }

  /** A patch of the event at `i`, which starts from what the events before it have left. */
  ghost predicate PatchedAt(s: Store, events: seq<Event>, i: int, patch: Patch) {
    0 <= i < |events| && IsPatchOf(Run(s, events[..i]).store, events[i], patch)
  }

  /** The history led from one store to the other, by edits of the events' environments. */
  ghost predicate Explains(s: Store, changes: seq<Change>, s': Store, events: seq<Event>) {
    && s' == ApplyChanges(s, changes) && Accepted(s, changes)
    && forall c :: c in changes && c.Edited? ==> exists e :: e in events && MadeIn(c.edits, e)
  }

  /** And every patch in it is made by some event. */
  ghost predicate PatchesExplained(s: Store, changes: seq<Change>, events: seq<Event>) {
    forall patch :: Patched(patch) in changes ==> exists i :: PatchedAt(s, events, i, patch)
  }

  lemma CreateExplained(s: Store, spec: Spec, namespace: string, script: Script)
    ensures var e := Created(spec, namespace, script); Explains(s, Step(s, e).changes, Step(s, e).store, [e])
  {
    var e := Created(spec, namespace, script);
    assert e in [e];
    if ValidSpec(spec) {
      var count := InitialMaxReplicas(spec.powerCapLimit.value);
      WritesComeFromTable(s, KeysOf(spec.Refs(), namespace), map[], count, script, 0);
    }
  }

  lemma StepExplained(s: Store, e: Event)
    ensures Explains(s, Step(s, e).changes, Step(s, e).store, [e])
  {
    assert e in [e];
    match e
    case Created(spec, namespace, script) => CreateExplained(s, spec, namespace, script);
    case Ticked(spec, namespace, env) => TickExplained(s, KeysOf(spec.Refs(), namespace), spec.powerCapLimit, env);
    case OthersActed(edits) =>
      AppliedLogged(s, edits);
      if edits != map[] { assert Logged(edits)[..0] == []; }
  }

  lemma StepPatchesExplained(s: Store, e: Event, patch: Patch)
    requires Patched(patch) in Step(s, e).changes
    ensures IsPatchOf(s, e, patch)
  {
    match e
    case Created(spec, namespace, script) =>
      var count := InitialMaxReplicas(spec.powerCapLimit.value);
      WritesComeFromTable(s, KeysOf(spec.Refs(), namespace), map[], count, script, 0);
      InitialCountIsHundreds(spec.powerCapLimit.value);
    case Ticked(spec, namespace, env) =>
      DisturbedTickWritesMeasuredLimits(s, KeysOf(spec.Refs(), namespace), spec.powerCapLimit, env, patch);
    case OthersActed(_) =>
  }

  /** Every edit is one of the tick's scripts. */
  ghost predicate EditsInTick(changes: seq<Change>, env: Env) {
    forall c :: c in changes && c.Edited? ==>
                  c.edits != map[] && (InScript(c.edits, env.readScript) || InScript(c.edits, env.writeScript))
  }

  /** A stretch of a tick's history. */
  ghost predicate StretchOfTick(s: Store, changes: seq<Change>, s': Store, env: Env) {
    s' == ApplyChanges(s, changes) && Accepted(s, changes) && EditsInTick(changes, env)
  }

  lemma StretchesJoin(s: Store, a: seq<Change>, s1: Store, b: seq<Change>, s2: Store, env: Env)
    requires StretchOfTick(s, a, s1, env) && StretchOfTick(s1, b, s2, env)
    ensures StretchOfTick(s, a + b, s2, env)
  {
    ApplyAppended(s, a, b);
    AcceptedAppended(s, a, b);
  }

  lemma ReadsExplained(s: Store, keys: seq<Option<ObjectKey>>, env: Env)
    ensures var m := ReadFrom(s, keys, env, 0, map[]); StretchOfTick(s, m.changes, m.store, env)
  {
    ReadsWriteNothing(s, keys, env, 0, map[]);
  }

  lemma WritesExplained(s: Store, keys: seq<Option<ObjectKey>>, limits: map<string, int>, env: Env)
    ensures var w := WriteFrom(s, keys, limits, 1, env.writeScript, 0); StretchOfTick(s, w.changes, w.store, env)
  {
    WritesComeFromTable(s, keys, limits, 1, env.writeScript, 0);
  }

  lemma TickExplained(s: Store, keys: seq<Option<ObjectKey>>, cap: Option<int>, env: Env)
    ensures var r := TickOn(s, keys, cap, env); StretchOfTick(s, r.changes, r.store, env)
  {
    ReadsExplained(s, keys, env);
    var m := ReadFrom(s, keys, env, 0, map[]);
    if m.readings.Some? {
      var limits := LimitsFor(Powers(m.readings.value), cap);
      if limits.Ok? {
        ReadsAndWritesExplained(s, m.changes, m.store, keys, limits.value, env);
      }
    }
  }

  lemma ReadsAndWritesExplained(s: Store, done: seq<Change>, s1: Store, keys: seq<Option<ObjectKey>>,
                                limits: map<string, int>, env: Env)
    requires StretchOfTick(s, done, s1, env)
    ensures var w := WriteFrom(s1, keys, limits, 1, env.writeScript, 0);
            StretchOfTick(s, done + w.changes, w.store, env)
  {
    var w := WriteFrom(s1, keys, limits, 1, env.writeScript, 0);
    WritesExplained(s1, keys, limits, env);
    StretchesJoin(s, done, s1, w.changes, w.store, env);
  }

  lemma {:induction false} RunExplained(s: Store, events: seq<Event>)
    ensures Explains(s, Run(s, events).changes, Run(s, events).store, events)
    decreases |events|
  {
    if events != [] {
      var first := Step(s, events[0]);
      var rest := Run(first.store, events[1..]);
      StepExplained(s, events[0]);
      RunExplained(first.store, events[1..]);
      HistoriesJoin(s, first, rest, events);
    }
  }

  /** The first event's history, and that of the events after it. */
  lemma HistoriesJoin(s: Store, first: Outcome, rest: Outcome, events: seq<Event>)
    requires events != [] && Explains(s, first.changes, first.store, [events[0]])
    requires Explains(first.store, rest.changes, rest.store, events[1..])
    ensures Explains(s, first.changes + rest.changes, rest.store, events)
  {
    ApplyAppended(s, first.changes, rest.changes);
    AcceptedAppended(s, first.changes, rest.changes);
    assert events == [events[0]] + events[1..];
    assert forall e :: e in [events[0]] || e in events[1..] ==> e in events;
  }

  /** What an event later in the history starts from, seen from the first event and from the second. */
  lemma RunPrefix(s: Store, events: seq<Event>, i: nat)
    requires i < |events| - 1
    ensures Run(s, events[..i + 1]).store == Run(Step(s, events[0]).store, events[1..][..i]).store
  {
    var prefix := events[..i + 1];
    assert prefix[0] == events[0] && prefix[1..] == events[1..][..i];
  }

  lemma {:induction false} RunPatchesExplained(s: Store, events: seq<Event>)
    ensures PatchesExplained(s, Run(s, events).changes, events)
    decreases |events|
  {
    if events != [] {
      var first := Step(s, events[0]);
      RunPatchesExplained(first.store, events[1..]);
      forall patch | Patched(patch) in Run(s, events).changes ensures exists i :: PatchedAt(s, events, i, patch) {
        if Patched(patch) in first.changes {
          StepPatchesExplained(s, events[0], patch);
          assert events[..0] == [];
          assert PatchedAt(s, events, 0, patch);
        } else {
          var i :| PatchedAt(first.store, events[1..], i, patch);
          RunPrefix(s, events, i);
          assert PatchedAt(s, events, i + 1, patch);
        }
      }
    }
  }

  /**
    The last-writer law. After any history, however many of its events stopped midway and whatever other
    clients edited, created or deleted at any moment: of each object, everything but the count is as the other
    clients alone would have left it; its count is that of the last patch accepted for it, unless another
    client edited the object after that patch. Nothing else has happened: the history consists of the edits of
    others and of patches that its events make. So a count that the operator has left is the whole hundreds
    in the cap of a valid create event, or 1, or the limit of a deployment measured in some tick.
  */
  lemma LastWriterWins(s: Store, events: seq<Event>, k: ObjectKey)
    ensures var r := Run(s, events);
            var theirs := ObjectAt(ApplyChanges(s, EditsOf(r.changes)), k);
            && Explains(s, r.changes, r.store, events) && PatchesExplained(s, r.changes, events)
            && match LastChange(r.changes, k)
               case Some(Patched(patch)) =>
                 && k in r.store && theirs.Some?
                 && r.store[k] == theirs.value.(maxReplicaCount := patch.maxReplicaCount)
                 && patch.key == k && exists i :: PatchedAt(s, events, i, patch)
               case _ => ObjectAt(r.store, k) == theirs
  {
    RunExplained(s, events);
    RunPatchesExplained(s, events);
    var changes := Run(s, events).changes;
    LastChangeDecides(s, changes, k);
    if LastChange(changes, k).Some? && LastChange(changes, k).value.Patched? {
      LastPatchIsThere(s, changes, k);
      LastChangeIsThere(changes, k);
    }
  }

  /** What one event more adds: its tick, its create event or its edits, on the store as it then is. */
  lemma OneEventMore(s: Store, events: seq<Event>, e: Event)
    ensures var before, after := Run(s, events), Run(s, events + [e]);
            match e
            case Created(spec, namespace, script) =>
              var r := Create(before.store, spec, namespace, script);
              after == Outcome(r.store, before.changes + r.changes)
            case Ticked(spec, namespace, env) =>
              var r := TickOn(before.store, KeysOf(spec.Refs(), namespace), spec.powerCapLimit, env);
              after == Outcome(r.store, before.changes + r.changes)
            case OthersActed(edits) =>
              after == Outcome(Interfere(before.store, edits), before.changes + Logged(edits))
  {
    RunSnoc(s, events, e);
  }

  /** One outcome after another. */
  function Then(first: Outcome, rest: Outcome): Outcome {
    Outcome(rest.store, first.changes + rest.changes)
  }

  lemma ThenAssociates(a: Outcome, b: Outcome, c: Outcome)
    ensures Then(a, Then(b, c)) == Then(Then(a, b), c)
  {
  }

  lemma {:induction false} RunSnoc(s: Store, events: seq<Event>, e: Event)
    ensures Run(s, events + [e]) == Then(Run(s, events), Step(Run(s, events).store, e))
    decreases |events|
  {
    if events == [] {
      assert events + [e] == [e];
      RunOfOne(s, e);
    } else {
      var first, tail := Step(s, events[0]), events[1..];
      var all := events + [e];
      assert all[0] == events[0] && all[1..] == tail + [e];
      RunUnfolds(s, events);
      RunUnfolds(s, all);
      RunSnoc(first.store, tail, e);
      ThenAssociates(first, Run(first.store, tail), Step(Run(first.store, tail).store, e));
    }
  }

  lemma RunUnfolds(s: Store, events: seq<Event>)
    requires events != []
    ensures Run(s, events) == Then(Step(s, events[0]), Run(Step(s, events[0]).store, events[1..]))
  {
  }

  lemma RunOfOne(s: Store, e: Event)
    ensures Run(s, [e]) == Step(s, e)
  {
    RunUnfolds(s, [e]);
    assert Step(s, e).changes + [] == Step(s, e).changes;
  }

  /** Without other clients. */
  ghost predicate Alone(e: Event) {
    match e
    case Created(_, _, script) => Undisturbed(script)
    case Ticked(_, _, env) => Undisturbed(env.readScript) && Undisturbed(env.writeScript)
    case OthersActed(edits) => edits == map[]
  }

  /** The handlers by themselves: every field of the final store is the first one's, but for the last patched counts. */
  lemma AloneOnlyCountsChange(s: Store, events: seq<Event>, k: ObjectKey)
    requires forall e :: e in events ==> Alone(e)
    ensures var r := Run(s, events);
            && (k in r.store <==> k in s)
            && (k in s ==>
                  r.store[k] == match LastChange(r.changes, k)
                                case Some(Patched(patch)) => s[k].(maxReplicaCount := patch.maxReplicaCount)
                                case _ => s[k])
  {
    var changes := Run(s, events).changes;
    RunExplained(s, events);
    assert PatchesOnly(changes);
    AppliedPatches(s, changes);
    assert ObjectAt(ApplyChanges(s, changes), k) == ObjectAt(Run(s, events).store, k);
  }

  /** The count that a create event writes: the whole hundreds in the cap. */
  lemma InitialCountIsHundreds(cap: int)
    requires cap >= 0
    ensures IsHundreds(InitialMaxReplicas(cap), cap)
  {
    var q := InitialMaxReplicas(cap);
    assert q as real <= cap as real / 100.0 < q as real + 1.0;
  }

  /** The reference can be read and patched in iteration `i`. */
  predicate Reachable(s: Store, ref: Ref, namespace: string, script: Script, i: nat) {
    KeyOf(ref, namespace).Some? && KeyOf(ref, namespace).value in s && CallAt(script, i).succeeds
  }

  /**
    A create event whose spec lacks its cap or its references, has a negative cap, or has a reference without
    its apiVersion, kind or name, writes nothing and raises. With any other spec, each patch goes to a
    referenced object and carries the whole hundreds in the cap. If nobody disturbs it, it completes exactly when
    every reference can be read and patched, and then that value is on every referenced object and nothing else
    has changed.
  */
  lemma CreateWrites(s: Store, spec: Spec, namespace: string, script: Script)
    ensures var r := Create(s, spec, namespace, script);
            if spec.powerCapLimit.None? || spec.powerCapLimit.value < 0 || spec.scaledObjectRefs.None?
               || exists ref :: && ref in spec.scaledObjectRefs.value
                                && (ref.apiVersion.None? || ref.kind.None? || ref.name.None?)
            then r == CreateResult(s, [], false)
            else
              var refs, cap := spec.scaledObjectRefs.value, spec.powerCapLimit.value;
              var keys := Referenced(KeysOf(refs, namespace));
              && (forall p :: Patched(p) in r.changes ==> p.key in keys && IsHundreds(p.maxReplicaCount, cap))
              && (Undisturbed(script) ==>
                    && (r.completed <==> forall i :: 0 <= i < |refs| ==> Reachable(s, refs[i], namespace, script, i))
                    && (r.completed ==> HoldsHundreds(s, r.store, keys, cap)))
  {
    if ValidSpec(spec) {
      var keys, cap := KeysOf(spec.Refs(), namespace), spec.powerCapLimit.value;
      InitialCountIsHundreds(cap);
      WritesComeFromTable(s, keys, map[], InitialMaxReplicas(cap), script, 0);
      if Undisturbed(script) {
        CreateCompletes(s, spec.Refs(), namespace, InitialMaxReplicas(cap), script);
      }
    }
  }

  lemma CreateCompletes(s: Store, refs: seq<Ref>, namespace: string, count: int, script: Script)
    requires Undisturbed(script)
    ensures var keys := KeysOf(refs, namespace);
            var w := WriteFrom(s, keys, map[], count, script, 0);
            && (w.completed <==> forall i :: 0 <= i < |refs| ==> Reachable(s, refs[i], namespace, script, i))
            && (w.completed ==>
                  Referenced(keys) <= s.Keys && w.store == PointwiseWrites(s, Referenced(keys), map[], count))
  {
    var keys := KeysOf(refs, namespace);
    WritesComplete(s, keys, map[], count, script, 0);
    assert forall i :: 0 <= i < |refs| ==>
        (Reads(s, keys[i], CallAt(script, i).succeeds) <==> Reachable(s, refs[i], namespace, script, i));
    if WriteFrom(s, keys, map[], count, script, 0).completed {
      WritesArePointwise(s, keys, map[], count, script, 0);
      assert keys[0..] == keys;
    }
  }

  /** Each object of `keys` holds the whole hundreds in the cap, and nothing else differs. */
  ghost predicate HoldsHundreds(s: Store, s': Store, keys: set<ObjectKey>, cap: int) {
    && s'.Keys == s.Keys && keys <= s.Keys
    && (forall k :: k in s && k !in keys ==> s'[k] == s[k])
    && forall k :: k in keys ==>
         && s'[k] == s[k].(maxReplicaCount := s'[k].maxReplicaCount)
         && IsHundreds(s'[k].maxReplicaCount, cap)
  }
}
