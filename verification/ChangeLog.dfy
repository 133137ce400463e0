/**
  The history of a store: the edits of other clients and the patches of the operator, in order, and who has
  the last word on each object.
*/
module ChangeLog {
  import opened Prelude
  import opened Cluster

  function ApplyChange(s: Store, change: Change): Store {
    match change
    case Edited(edits) => Interfere(s, edits)
    case Patched(patch) => SetCount(s, patch.key, patch.maxReplicaCount)
  }

  function ApplyChanges(s: Store, changes: seq<Change>): Store {
    if changes == [] then s
    else ApplyChange(ApplyChanges(s, changes[..|changes| - 1]), changes[|changes| - 1])
  }

  lemma {:induction false} ApplyAppended(s: Store, a: seq<Change>, b: seq<Change>)
    ensures ApplyChanges(s, a + b) == ApplyChanges(ApplyChanges(s, a), b)
  {
    if b == [] {
      assert a + b == a;
    } else {
      var init, last := b[..|b| - 1], b[|b| - 1];
      ApplyAppended(s, a, init);
      assert (a + b)[..|a + b| - 1] == a + init && (a + b)[|a + b| - 1] == last;
    }
  }

  lemma AppliedOne(s: Store, change: Change)
    ensures ApplyChanges(s, [change]) == ApplyChange(s, change)
  {
    assert [change][..0] == [];
  }

  lemma AppliedLogged(s: Store, edits: Edits)
    ensures ApplyChanges(s, Logged(edits)) == Interfere(s, edits)
  {
    if edits == map[] {
      NoEdits(s);
    } else {
      AppliedOne(s, Edited(edits));
    }
  }

  lemma NoEdits(s: Store)
    ensures Interfere(s, map[]) == s
  {
    forall k ensures k in Interfere(s, map[]) <==> k in s {
      assert ObjectAt(Interfere(s, map[]), k) == ObjectAt(s, k);
    }
  }

  predicate Touches(change: Change, k: ObjectKey) {
    match change
    case Edited(edits) => k in edits
    case Patched(patch) => patch.key == k
  }

  /** The last change that concerns `k`. */
  function LastChange(changes: seq<Change>, k: ObjectKey): Option<Change> {
    if changes == [] then None
    else if Touches(changes[|changes| - 1], k) then Some(changes[|changes| - 1])
    else LastChange(changes[..|changes| - 1], k)
  }

  /** LastChange is what its name says. */
  lemma {:induction false} LastChangeIsLast(changes: seq<Change>, k: ObjectKey, i: nat)
    requires i < |changes| && Touches(changes[i], k)
    requires forall j :: i < j < |changes| ==> !Touches(changes[j], k)
    ensures LastChange(changes, k) == Some(changes[i])
  {
    if i < |changes| - 1 {
      LastChangeIsLast(changes[..|changes| - 1], k, i);
    }
  }

  lemma {:induction false} LastChangeIsThere(changes: seq<Change>, k: ObjectKey)
    requires LastChange(changes, k).Some?
    ensures LastChange(changes, k).value in changes && Touches(LastChange(changes, k).value, k)
  {
    if !Touches(changes[|changes| - 1], k) {
      LastChangeIsThere(changes[..|changes| - 1], k);
    }
  }

  lemma {:induction false} NoLastChange(changes: seq<Change>, k: ObjectKey)
    ensures LastChange(changes, k).None? <==> forall change :: change in changes ==> !Touches(change, k)
  {
    if changes != [] {
      var init, last := changes[..|changes| - 1], changes[|changes| - 1];
      assert changes == init + [last];
      NoLastChange(init, k);
    }
  }

  /** The changes that other clients made. */
  function EditsOf(changes: seq<Change>): (edits: seq<Change>)
    ensures forall c :: c in edits ==> c.Edited? && c in changes
  {
    if changes == [] then []
    else
      var last := changes[|changes| - 1];
      EditsOf(changes[..|changes| - 1]) + if last.Edited? then [last] else []
  }

  function WithCount(o: Option<ScaledObject>, count: int): Option<ScaledObject> {
    if o.Some? then Some(o.value.(maxReplicaCount := count)) else None
  }

  /** What one change does to the object at `k`. */
  lemma ChangeAt(s: Store, change: Change, k: ObjectKey)
    ensures ObjectAt(ApplyChange(s, change), k) ==
            if !Touches(change, k) then ObjectAt(s, k)
            else if change.Edited? then change.edits[k]
            else WithCount(ObjectAt(s, k), change.patch.maxReplicaCount)
  {
  }

  lemma {:induction false} UntouchedObject(s: Store, changes: seq<Change>, k: ObjectKey)
    requires forall c :: c in changes ==> !Touches(c, k)
    ensures ObjectAt(ApplyChanges(s, changes), k) == ObjectAt(s, k)
  {
    if changes != [] {
      var init, last := changes[..|changes| - 1], changes[|changes| - 1];
      UntouchedObject(s, init, k);
      ChangeAt(ApplyChanges(s, init), last, k);
    }
  }

  /** What changes do to an object depends on that object only. */
  lemma {:induction false} AppliedAlike(s: Store, s': Store, changes: seq<Change>, k: ObjectKey)
    requires ObjectAt(s, k) == ObjectAt(s', k)
    ensures ObjectAt(ApplyChanges(s, changes), k) == ObjectAt(ApplyChanges(s', changes), k)
  {
    if changes != [] {
      var init, last := changes[..|changes| - 1], changes[|changes| - 1];
      AppliedAlike(s, s', init, k);
      ChangeAt(ApplyChanges(s, init), last, k);
      ChangeAt(ApplyChanges(s', init), last, k);
    }
  }

  /**
    Who has the last word. Of each object, everything but the count is as the other clients alone would have
    left it; the count is that of the last patch, unless another client edited the object after it.
  */
  lemma {:induction false} LastChangeDecides(s: Store, changes: seq<Change>, k: ObjectKey)
    ensures var theirs := ObjectAt(ApplyChanges(s, EditsOf(changes)), k);
            ObjectAt(ApplyChanges(s, changes), k) ==
            match LastChange(changes, k)
            case Some(Patched(patch)) => WithCount(theirs, patch.maxReplicaCount)
            case _ => theirs
  {
    if changes != [] {
      var init, last := changes[..|changes| - 1], changes[|changes| - 1];
      LastChangeDecides(s, init, k);
      ChangeAt(ApplyChanges(s, init), last, k);
      if last.Edited? {
        var theirs := ApplyChanges(s, EditsOf(init));
        ApplyAppended(s, EditsOf(init), [last]);
        AppliedOne(theirs, last);
        ChangeAt(theirs, last, k);
      } else {
        assert EditsOf(changes) == EditsOf(init) + [] == EditsOf(init);
      }
    }
  }

  /** Only patches: nobody else changed anything. */
  predicate PatchesOnly(changes: seq<Change>) {
    forall c :: c in changes ==> c.Patched?
  }

  /** A history of patches changes counts only, and the last patch of an object wins. */
  lemma AppliedPatches(s: Store, changes: seq<Change>)
    requires PatchesOnly(changes)
    ensures ApplyChanges(s, changes).Keys == s.Keys
    ensures forall k :: ObjectAt(ApplyChanges(s, changes), k) ==
                        match LastChange(changes, k)
                        case Some(Patched(patch)) => WithCount(ObjectAt(s, k), patch.maxReplicaCount)
                        case _ => ObjectAt(s, k)
  {
    assert forall c :: c !in EditsOf(changes);
    forall k { LastChangeDecides(s, changes, k); }
    forall k ensures k in ApplyChanges(s, changes) <==> k in s { LastChangeDecides(s, changes, k); }
  }

  /** Each patch went to an object that was there. */
  ghost predicate Accepted(s: Store, changes: seq<Change>) {
    changes == [] ||
    var init, last := changes[..|changes| - 1], changes[|changes| - 1];
    Accepted(s, init) && (last.Patched? ==> last.patch.key in ApplyChanges(s, init))
  }

  lemma {:induction false} AcceptedAppended(s: Store, a: seq<Change>, b: seq<Change>)
    requires Accepted(s, a) && Accepted(ApplyChanges(s, a), b)
    ensures Accepted(s, a + b)
  {
    if b == [] {
      assert a + b == a;
    } else {
      var init, last := b[..|b| - 1], b[|b| - 1];
      AcceptedAppended(s, a, init);
      ApplyAppended(s, a, init);
      assert (a + b)[..|a + b| - 1] == a + init && (a + b)[|a + b| - 1] == last;
    }
  }

  /** So an object that was patched after all edits is there, with the count of its last patch. */
  lemma {:induction false} LastPatchIsThere(s: Store, changes: seq<Change>, k: ObjectKey)
    requires Accepted(s, changes) && LastChange(changes, k).Some? && LastChange(changes, k).value.Patched?
    ensures k in ApplyChanges(s, changes)
  {
    var init, last := changes[..|changes| - 1], changes[|changes| - 1];
    ChangeAt(ApplyChanges(s, init), last, k);
    if !Touches(last, k) {
      LastPatchIsThere(s, init, k);
    }
  }
}
