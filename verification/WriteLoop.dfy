/** What the write loop does to the store: its patches, where they come from, and what it cannot touch. */
module WriteLoop {
  import opened Prelude
  import opened Cluster
  import opened ChangeLog

  /** The objects the references name. */
  function Referenced(keys: seq<Option<ObjectKey>>): set<ObjectKey> {
    set i | 0 <= i < |keys| && keys[i].Some? :: keys[i].value
  }

  /** Same objects, same targets: all that the handlers look at. */
  ghost predicate SameTargets(s: Store, s': Store) {
    s.Keys == s'.Keys && forall k :: k in s ==> s[k].target == s'[k].target
  }

  /** The same, of these objects. */
  ghost predicate SameTargetsAt(s: Store, s': Store, keys: set<ObjectKey>) {
    forall k :: k in keys ==> (k in s <==> k in s') && (k in s ==> s[k].target == s'[k].target)
  }

  lemma InterferenceKeepsTargets(s: Store, s': Store, edits: Edits, keys: set<ObjectKey>)
    requires SameTargetsAt(s, s', keys)
    ensures SameTargetsAt(Interfere(s, edits), Interfere(s', edits), keys)
  {
    forall k | k in keys
      ensures ObjectAt(Interfere(s, edits), k).None? <==> ObjectAt(Interfere(s', edits), k).None?
    {
      assert ObjectAt(s, k).None? <==> ObjectAt(s', k).None?;
    }
  }

  /** `objects` has all that the references name. */
  predicate Names(keys: seq<Option<ObjectKey>>, objects: set<ObjectKey>) {
    forall i :: 0 <= i < |keys| && keys[i].Some? ==> keys[i].value in objects
  }

  lemma WriteOneIgnoresCounts(s: Store, s': Store, key: Option<ObjectKey>, objects: set<ObjectKey>,
                              limits: map<string, int>, default: int, succeeds: bool)
    requires SameTargetsAt(s, s', objects) && (key.Some? ==> key.value in objects)
    ensures var patch := WriteOne(s, key, limits, default, succeeds);
            && WriteOne(s', key, limits, default, succeeds) == patch
            && (patch.Some? ==>
                  SameTargetsAt(SetCount(s, patch.value.key, patch.value.maxReplicaCount),
                                SetCount(s', patch.value.key, patch.value.maxReplicaCount), objects))
  {
  }

  lemma {:induction false} WritesLookAt(s: Store, s': Store, keys: seq<Option<ObjectKey>>, objects: set<ObjectKey>,
                                        limits: map<string, int>, default: int, script: Script, i: nat)
    requires i <= |keys| && Names(keys, objects) && SameTargetsAt(s, s', objects)
    ensures var w := WriteFrom(s, keys, limits, default, script, i);
            var w' := WriteFrom(s', keys, limits, default, script, i);
            w.changes == w'.changes && w.completed == w'.completed && SameTargetsAt(w.store, w'.store, objects)
    decreases |keys| - i
  {
    if i < |keys| {
      var s1, s1' := Interfere(s, CallAt(script, i).edits), Interfere(s', CallAt(script, i).edits);
      InterferenceKeepsTargets(s, s', CallAt(script, i).edits, objects);
      WriteOneIgnoresCounts(s1, s1', keys[i], objects, limits, default, CallAt(script, i).succeeds);
      var patch := WriteOne(s1, keys[i], limits, default, CallAt(script, i).succeeds);
      if patch.Some? {
        WritesLookAt(SetCount(s1, patch.value.key, patch.value.maxReplicaCount),
                     SetCount(s1', patch.value.key, patch.value.maxReplicaCount),
                     keys, objects, limits, default, script, i + 1);
      }
    }
  }

  /**
    The loop never looks at a count, nor at an object it does not reference: from stores with the same targets,
    under any environment, it sends the same patches and stops at the same place.
  */
  lemma WritesIgnoreCounts(s: Store, s': Store, keys: seq<Option<ObjectKey>>, limits: map<string, int>, default: int,
                           script: Script, i: nat)
    requires i <= |keys| && SameTargetsAt(s, s', Referenced(keys))
    ensures var w := WriteFrom(s, keys, limits, default, script, i);
            var w' := WriteFrom(s', keys, limits, default, script, i);
            w.changes == w'.changes && w.completed == w'.completed && SameTargetsAt(w.store, w'.store, Referenced(keys))
  {
    WritesLookAt(s, s', keys, Referenced(keys), limits, default, script, i);
  }

  /** `count` is the default or the limit of some deployment. */
  predicate FromTable(count: int, limits: map<string, int>, default: int) {
    count == default || count in limits.Values
  }

  /** A patch of a referenced object with the limit of some measured deployment or the default. */
  predicate IsTablePatch(patch: Patch, keys: set<ObjectKey>, limits: map<string, int>, default: int) {
    patch.key in keys && FromTable(patch.maxReplicaCount, limits, default)
  }

  /** Each patch carries the entry of the target that its object has at that moment, or the default. */
  ghost predicate FollowsTable(s: Store, changes: seq<Change>, limits: map<string, int>, default: int) {
    changes == [] ||
    var init, last := changes[..|changes| - 1], changes[|changes| - 1];
    && FollowsTable(s, init, limits, default)
    && (last.Patched? ==> IsEntryFor(last.patch, ApplyChanges(s, init), limits, default))
  }

  predicate IsEntryFor(patch: Patch, s: Store, limits: map<string, int>, default: int) {
    && patch.key in s
    && patch.maxReplicaCount == if s[patch.key].target in limits then limits[s[patch.key].target] else default
  }

  lemma {:induction false} FollowsTableAt(s: Store, changes: seq<Change>, limits: map<string, int>, default: int,
                                          i: nat)
    requires FollowsTable(s, changes, limits, default) && i < |changes| && changes[i].Patched?
    ensures IsEntryFor(changes[i].patch, ApplyChanges(s, changes[..i]), limits, default)
  {
    var init := changes[..|changes| - 1];
    if i < |init| {
      assert init[..i] == changes[..i];
      FollowsTableAt(s, init, limits, default, i);
    }
  }

  lemma {:induction false} FollowsTableAppended(s: Store, a: seq<Change>, b: seq<Change>, limits: map<string, int>,
                                                default: int)
    requires FollowsTable(s, a, limits, default) && FollowsTable(ApplyChanges(s, a), b, limits, default)
    ensures FollowsTable(s, a + b, limits, default)
  {
    if b == [] {
      assert a + b == a;
    } else {
      var init, last := b[..|b| - 1], b[|b| - 1];
      FollowsTableAppended(s, a, init, limits, default);
      ApplyAppended(s, a, init);
      assert (a + b)[..|a + b| - 1] == a + init && (a + b)[|a + b| - 1] == last;
    }
  }

  /** An edit that the script holds. */
  ghost predicate InScript(edits: Edits, script: Script) {
    exists i: nat :: edits == CallAt(script, i).edits
  }

  /** The history of a write loop: table patches to objects that are there, and the edits of its script. */
  ghost predicate WrittenBy(s: Store, changes: seq<Change>, s': Store, keys: set<ObjectKey>, limits: map<string, int>,
                            default: int, script: Script) {
    && s' == ApplyChanges(s, changes) && Accepted(s, changes) && FollowsTable(s, changes, limits, default)
    && (forall c :: c in changes && c.Patched? ==> IsTablePatch(c.patch, keys, limits, default))
    && (forall c :: c in changes && c.Edited? ==> c.edits != map[] && InScript(c.edits, script))
  }

  /** One iteration that goes through. */
  lemma WrittenOne(s: Store, keys: set<ObjectKey>, limits: map<string, int>, default: int, script: Script, i: nat,
                   patch: Patch)
    requires IsTablePatch(patch, keys, limits, default)
    requires IsEntryFor(patch, Interfere(s, CallAt(script, i).edits), limits, default)
    ensures var edits := CallAt(script, i).edits;
            WrittenBy(s, Logged(edits) + [Patched(patch)],
                      SetCount(Interfere(s, edits), patch.key, patch.maxReplicaCount), keys, limits, default, script)
  {
    var edits := CallAt(script, i).edits;
    EditedOne(s, keys, limits, default, script, i);
    var changes := Logged(edits) + [Patched(patch)];
    assert changes[..|changes| - 1] == Logged(edits);
  }

  /** The edits before an iteration. */
  lemma EditedOne(s: Store, keys: set<ObjectKey>, limits: map<string, int>, default: int, script: Script, i: nat)
    ensures var edits := CallAt(script, i).edits;
            WrittenBy(s, Logged(edits), Interfere(s, edits), keys, limits, default, script)
  {
    var edits := CallAt(script, i).edits;
    AppliedLogged(s, edits);
    if edits != map[] {
      assert Logged(edits)[..0] == [];
    }
  }

  lemma WrittenFurther(s: Store, a: seq<Change>, s1: Store, b: seq<Change>, s2: Store, keys: set<ObjectKey>,
                       limits: map<string, int>, default: int, script: Script)
    requires WrittenBy(s, a, s1, keys, limits, default, script) && WrittenBy(s1, b, s2, keys, limits, default, script)
    ensures WrittenBy(s, a + b, s2, keys, limits, default, script)
  {
    ApplyAppended(s, a, b);
    AcceptedAppended(s, a, b);
    FollowsTableAppended(s, a, b, limits, default);
  }

  /**
    Whatever others do meanwhile, edits, deletions and new objects, the history of the loop is theirs and the
    loop's patches, and every patch names a referenced object that is there and carries the entry of the target
    that the object has at that moment, or the default if the table has none.
  */
  lemma {:induction false} WritesComeFromTable(s: Store, keys: seq<Option<ObjectKey>>, limits: map<string, int>,
                                               default: int, script: Script, i: nat)
    requires i <= |keys|
    ensures var w := WriteFrom(s, keys, limits, default, script, i);
            WrittenBy(s, w.changes, w.store, Referenced(keys), limits, default, script)
    decreases |keys| - i
  {
    if i < |keys| {
      var edits := CallAt(script, i).edits;
      var s1 := Interfere(s, edits);
      var patch := WriteOne(s1, keys[i], limits, default, CallAt(script, i).succeeds);
      if patch.Some? {
        var s2 := SetCount(s1, patch.value.key, patch.value.maxReplicaCount);
        var rest := WriteFrom(s2, keys, limits, default, script, i + 1);
        WrittenOne(s, Referenced(keys), limits, default, script, i, patch.value);
        WritesComeFromTable(s2, keys, limits, default, script, i + 1);
        WrittenFurther(s, Logged(edits) + [Patched(patch.value)], s2, rest.changes, rest.store,
                       Referenced(keys), limits, default, script);
      } else {
        EditedOne(s, Referenced(keys), limits, default, script, i);
      }
    }
  }

  /** The patches of a history, in order. */
  function PatchesIn(changes: seq<Change>): seq<Patch> {
    if changes == [] then []
    else
      var last := changes[|changes| - 1];
      PatchesIn(changes[..|changes| - 1]) + if last.Patched? then [last.patch] else []
  }

  lemma {:induction false} PatchesInAppended(a: seq<Change>, b: seq<Change>)
    ensures PatchesIn(a + b) == PatchesIn(a) + PatchesIn(b)
  {
    if b == [] {
      assert a + b == a;
    } else {
      var init, last := b[..|b| - 1], b[|b| - 1];
      PatchesInAppended(a, init);
      assert (a + b)[..|a + b| - 1] == a + init && (a + b)[|a + b| - 1] == last;
    }
  }

  lemma PatchesInOne(edits: Edits, patch: Patch)
    ensures PatchesIn(Logged(edits)) == []
    ensures PatchesIn(Logged(edits) + [Patched(patch)]) == [patch]
  {
    var changes := Logged(edits) + [Patched(patch)];
    assert changes[..|changes| - 1] == Logged(edits);
    if edits != map[] { assert Logged(edits)[..0] == []; }
  }

  /**
    One patch an iteration, for the references in order, up to the first iteration that fails; none after it.
    An iteration fails for a bad reference, for an object that is not there at that moment, or for a failed call.
  */
  ghost predicate InOrder(keys: seq<Option<ObjectKey>>, script: Script, i: nat, patches: seq<Patch>, w: Written)
    requires i <= |keys|
  {
    var n := i + |patches|;
    && n <= |keys|
    && (forall j :: 0 <= j < |patches| ==> keys[i + j] == Some(patches[j].key) && CallAt(script, i + j).succeeds)
    && (w.completed <==> n == |keys|)
    && (!w.completed ==> keys[n].None? || keys[n].value !in w.store || !CallAt(script, n).succeeds)
  }

  lemma {:induction false} WritesAreInOrder(s: Store, keys: seq<Option<ObjectKey>>, limits: map<string, int>,
                                            default: int, script: Script, i: nat)
    requires i <= |keys|
    ensures var w := WriteFrom(s, keys, limits, default, script, i);
            InOrder(keys, script, i, PatchesIn(w.changes), w)
    decreases |keys| - i
  {
    if i < |keys| {
      var edits := CallAt(script, i).edits;
      var s1 := Interfere(s, edits);
      var patch := WriteOne(s1, keys[i], limits, default, CallAt(script, i).succeeds);
      if patch.Some? {
        var s2 := SetCount(s1, patch.value.key, patch.value.maxReplicaCount);
        var rest := WriteFrom(s2, keys, limits, default, script, i + 1);
        WritesAreInOrder(s2, keys, limits, default, script, i + 1);
        PatchesInOne(edits, patch.value);
        PatchesInAppended(Logged(edits) + [Patched(patch.value)], rest.changes);
        OneMoreInOrder(keys, script, i, patch.value, PatchesIn(rest.changes), rest,
                       WriteFrom(s, keys, limits, default, script, i));
      } else {
        PatchesInOne(edits, Patch(ObjectKey("", "", "", "", ""), 0));
      }
    }
  }

  lemma OneMoreInOrder(keys: seq<Option<ObjectKey>>, script: Script, i: nat, patch: Patch, patches: seq<Patch>,
                       rest: Written, w: Written)
    requires i < |keys| && keys[i] == Some(patch.key) && CallAt(script, i).succeeds
    requires InOrder(keys, script, i + 1, patches, rest) && w.store == rest.store && w.completed == rest.completed
    ensures InOrder(keys, script, i, [patch] + patches, w)
  {
    var all := [patch] + patches;
    forall j | 0 <= j < |all| ensures keys[i + j] == Some(all[j].key) && CallAt(script, i + j).succeeds {
      if j > 0 { assert keys[i + 1 + (j - 1)] == Some(patches[j - 1].key); }
    }
  }

  /** Undisturbed, the history is the loop's patches alone. */
  lemma UndisturbedWritesArePatches(s: Store, keys: seq<Option<ObjectKey>>, limits: map<string, int>, default: int,
                                    script: Script, i: nat)
    requires i <= |keys| && Undisturbed(script)
    ensures PatchesOnly(WriteFrom(s, keys, limits, default, script, i).changes)
  {
    WritesComeFromTable(s, keys, limits, default, script, i);
  }

  /** Undisturbed, the loop ends as it should exactly when every reference can be read and patched. */
  lemma {:induction false} WritesComplete(s: Store, keys: seq<Option<ObjectKey>>, limits: map<string, int>,
                                          default: int, script: Script, i: nat)
    requires i <= |keys| && Undisturbed(script)
    ensures WriteFrom(s, keys, limits, default, script, i).completed <==>
            forall j :: i <= j < |keys| ==> Reads(s, keys[j], CallAt(script, j).succeeds)
    decreases |keys| - i
  {
    if i < |keys| {
      NoEdits(s);
      var patch := WriteOne(s, keys[i], limits, default, CallAt(script, i).succeeds);
      if patch.Some? {
        var s2 := SetCount(s, patch.value.key, patch.value.maxReplicaCount);
        WritesComplete(s2, keys, limits, default, script, i + 1);
        assert forall j :: i <= j < |keys| ==>
            (Reads(s, keys[j], CallAt(script, j).succeeds) <==> Reads(s2, keys[j], CallAt(script, j).succeeds));
      }
    }
  }

  /** The pointwise result of a complete loop: the entry of its target on each referenced object, nothing elsewhere. */
  ghost function PointwiseWrites(s: Store, keys: set<ObjectKey>, limits: map<string, int>, default: int): Store {
    map k | k in s :: if k in keys then s[k].(maxReplicaCount := Lookup(limits, s[k].target, default)) else s[k]
  }

  lemma {:induction false} WritesArePointwise(s: Store, keys: seq<Option<ObjectKey>>, limits: map<string, int>,
                                              default: int, script: Script, i: nat)
    requires i <= |keys| && Undisturbed(script)
    requires WriteFrom(s, keys, limits, default, script, i).completed
    ensures WriteFrom(s, keys, limits, default, script, i).store
            == PointwiseWrites(s, Referenced(keys[i..]), limits, default)
    decreases |keys| - i
  {
    if i < |keys| {
      NoEdits(s);
      var patch := WriteOne(s, keys[i], limits, default, CallAt(script, i).succeeds);
      var s2 := SetCount(s, patch.value.key, patch.value.maxReplicaCount);
      WritesArePointwise(s2, keys, limits, default, script, i + 1);
      ReferencedHead(keys, i);
    }
  }

  lemma ReferencedHead(keys: seq<Option<ObjectKey>>, i: nat)
    requires i < |keys| && keys[i].Some?
    ensures Referenced(keys[i..]) == {keys[i].value} + Referenced(keys[i + 1..])
  {
    forall k | k in Referenced(keys[i..]) ensures k == keys[i].value || k in Referenced(keys[i + 1..]) {
      var j :| 0 <= j < |keys[i..]| && keys[i..][j] == Some(k);
      if j > 0 { assert keys[i + 1..][j - 1] == Some(k); }
    }
    assert keys[i..][0] == keys[i];
    forall k | k in Referenced(keys[i + 1..]) ensures k in Referenced(keys[i..]) {
      var j :| 0 <= j < |keys[i + 1..]| && keys[i + 1..][j] == Some(k);
      assert keys[i..][j + 1] == Some(k);
    }
  }
}
