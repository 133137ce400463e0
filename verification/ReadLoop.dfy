/** What the read loop measures: one reading a deployment, the last one taken. */
module ReadLoop {
  import opened Prelude
  import opened Cluster
  import opened ChangeLog
  import opened WriteLoop
  import opened Ticks

  lemma ReadOneIgnoresCounts(s: Store, s': Store, key: Option<ObjectKey>, objects: set<ObjectKey>, env: Env, i: nat)
    requires SameTargetsAt(s, s', objects) && (key.Some? ==> key.value in objects)
    ensures var reading := ReadOne(s, key, env, i);
            && ReadOne(s', key, env, i) == reading
            && (reading.Some? ==> s[key.value].target == s'[key.value].target)
  {
  }

  lemma {:induction false} ReadsLookAt(s: Store, s': Store, keys: seq<Option<ObjectKey>>, objects: set<ObjectKey>,
                                       env: Env, i: nat, readings: Readings)
    requires i <= |keys| && Names(keys, objects) && SameTargetsAt(s, s', objects)
    ensures var m, m' := ReadFrom(s, keys, env, i, readings), ReadFrom(s', keys, env, i, readings);
            m.readings == m'.readings && m.changes == m'.changes && SameTargetsAt(m.store, m'.store, objects)
    decreases |keys| - i
  {
    if i < |keys| {
      var s1, s1' := Interfere(s, CallAt(env.readScript, i).edits), Interfere(s', CallAt(env.readScript, i).edits);
      InterferenceKeepsTargets(s, s', CallAt(env.readScript, i).edits, objects);
      ReadOneIgnoresCounts(s1, s1', keys[i], objects, env, i);
      var reading := ReadOne(s1, keys[i], env, i);
      if reading.Some? {
        ReadsLookAt(s1, s1', keys, objects, env, i + 1, readings[s1[keys[i].value].target := reading.value]);
      }
    }
  }

  /** The measurements depend on the targets of the referenced objects only, not on the counts. */
  lemma ReadsIgnoreCounts(s: Store, s': Store, keys: seq<Option<ObjectKey>>, env: Env, i: nat, readings: Readings)
    requires i <= |keys| && SameTargetsAt(s, s', Referenced(keys))
    ensures var m, m' := ReadFrom(s, keys, env, i, readings), ReadFrom(s', keys, env, i, readings);
            m.readings == m'.readings && m.changes == m'.changes && SameTargetsAt(m.store, m'.store, Referenced(keys))
  {
    ReadsLookAt(s, s', keys, Referenced(keys), env, i, readings);
  }

  /** Only edits of the script: the handler itself changed nothing. */
  ghost predicate EditsOnly(s: Store, changes: seq<Change>, s': Store, script: Script) {
    && s' == ApplyChanges(s, changes) && Accepted(s, changes)
    && forall c :: c in changes ==> c.Edited? && c.edits != map[] && InScript(c.edits, script)
  }

  /** Reading changes nothing: whatever differs afterwards, others did. */
  lemma {:induction false} ReadsWriteNothing(s: Store, keys: seq<Option<ObjectKey>>, env: Env, i: nat,
                                             readings: Readings)
    requires i <= |keys|
    ensures var m := ReadFrom(s, keys, env, i, readings);
            && EditsOnly(s, m.changes, m.store, env.readScript)
            && (Undisturbed(env.readScript) ==> m.changes == [] && m.store == s)
    decreases |keys| - i
  {
    if i < |keys| {
      var edits := CallAt(env.readScript, i).edits;
      var s1 := Interfere(s, edits);
      NoEdits(s);
      EditedOne(s, {}, map[], 0, env.readScript, i);
      var reading := ReadOne(s1, keys[i], env, i);
      if reading.Some? {
        var readings' := readings[s1[keys[i].value].target := reading.value];
        ReadsWriteNothing(s1, keys, env, i + 1, readings');
        ApplyAppended(s, Logged(edits), ReadFrom(s1, keys, env, i + 1, readings').changes);
        AcceptedAppended(s, Logged(edits), ReadFrom(s1, keys, env, i + 1, readings').changes);
      }
    }
  }

  /** The deployments that the referenced objects target. */
  function TargetsOf(s: Store, keys: seq<Option<ObjectKey>>): set<string> {
    set i | 0 <= i < |keys| && keys[i].Some? && keys[i].value in s :: s[keys[i].value].target
  }

  /** No reference after `j` targets the deployment that reference `j` targets. */
  ghost predicate LastToRead(s: Store, keys: seq<Option<ObjectKey>>, j: nat)
    requires forall i :: 0 <= i < |keys| ==> keys[i].Some? && keys[i].value in s
    requires j < |keys|
  {
    forall i :: j < i < |keys| ==> s[keys[i].value].target != s[keys[j].value].target
  }

  /** Every iteration of the read loop gets its object and its answers. */
  ghost predicate ReadsSucceed(s: Store, keys: seq<Option<ObjectKey>>, env: Env, i: nat)
  {
    forall j: nat :: i <= j < |keys| ==> ReadOne(s, keys[j], env, j).Some?
  }

  /** One entry for each targeted deployment: the answer of the last iteration that read it. */
  ghost predicate IsMeasurement(s: Store, keys: seq<Option<ObjectKey>>, env: Env, readings: Readings)
    requires ReadsSucceed(s, keys, env, 0)
  {
    && readings.Keys == TargetsOf(s, keys)
    && forall j: nat :: j < |keys| && LastToRead(s, keys, j) ==>
                          AnswerAt(env, j, s[keys[j].value].target) == Some(readings[s[keys[j].value].target])
  }

  /** Undisturbed, the read loop ends exactly when every iteration succeeds, and then it has the measurement. */
  lemma ReadsAreMeasurement(s: Store, keys: seq<Option<ObjectKey>>, env: Env)
    requires Undisturbed(env.readScript)
    ensures var m := ReadFrom(s, keys, env, 0, map[]);
            && (m.readings.Some? <==> ReadsSucceed(s, keys, env, 0))
            && (m.readings.Some? ==> IsMeasurement(s, keys, env, m.readings.value))
  {
    ReadsAccumulate(s, keys, env, 0, map[]);
    assert keys[0..] == keys;
  }

  /** Reference `j` is read, and no later one targets the same deployment. */
  ghost predicate ReadsLast(s: Store, keys: seq<Option<ObjectKey>>, j: nat)
    requires j < |keys|
  {
    && keys[j].Some? && keys[j].value in s
    && forall j' :: j < j' < |keys| && keys[j'].Some? && keys[j'].value in s ==>
                      s[keys[j'].value].target != s[keys[j].value].target
  }

  /** What the iterations from `i` on add to the readings: each targeted deployment, with its last answer. */
  ghost predicate Accumulated(s: Store, keys: seq<Option<ObjectKey>>, env: Env, i: nat, before: Readings,
                              after: Readings)
    requires i <= |keys|
  {
    && after.Keys == before.Keys + TargetsOf(s, keys[i..])
    && (forall d :: d in before && d !in TargetsOf(s, keys[i..]) ==> after[d] == before[d])
    && forall j: nat :: i <= j < |keys| && ReadsLast(s, keys, j) ==>
                          && s[keys[j].value].target in after
                          && AnswerAt(env, j, s[keys[j].value].target) == Some(after[s[keys[j].value].target])
  }

  lemma {:induction false} ReadsAccumulate(s: Store, keys: seq<Option<ObjectKey>>, env: Env, i: nat, readings: Readings)
    requires i <= |keys| && Undisturbed(env.readScript)
    ensures var m := ReadFrom(s, keys, env, i, readings);
            && (m.readings.Some? <==> ReadsSucceed(s, keys, env, i))
            && (m.readings.Some? ==> Accumulated(s, keys, env, i, readings, m.readings.value))
    decreases |keys| - i
  {
    if i < |keys| {
      ReadsFirst(s, keys, env, i, readings);
      var reading := ReadOne(s, keys[i], env, i);
      if reading.Some? {
        var readings' := readings[s[keys[i].value].target := reading.value];
        ReadsAccumulate(s, keys, env, i + 1, readings');
        var m := ReadFrom(s, keys, env, i + 1, readings');
        if m.readings.Some? {
          OneMoreAccumulated(s, keys, env, i, readings, reading.value, m.readings.value);
        }
      }
    }
  }

  /** One iteration of an undisturbed read loop, and the rest. */
  lemma ReadsFirst(s: Store, keys: seq<Option<ObjectKey>>, env: Env, i: nat, readings: Readings)
    requires i < |keys| && Undisturbed(env.readScript)
    ensures var reading := ReadOne(s, keys[i], env, i);
            && (ReadsSucceed(s, keys, env, i) <==> reading.Some? && ReadsSucceed(s, keys, env, i + 1))
            && ReadFrom(s, keys, env, i, readings).readings
               == (if reading.None? then None
                   else ReadFrom(s, keys, env, i + 1, readings[s[keys[i].value].target := reading.value]).readings)
  {
    NoEdits(s);
  }

  lemma OneMoreAccumulated(s: Store, keys: seq<Option<ObjectKey>>, env: Env, i: nat, before: Readings, reading: Reading,
                           after: Readings)
    requires i < |keys| && ReadOne(s, keys[i], env, i) == Some(reading)
    requires Accumulated(s, keys, env, i + 1, before[s[keys[i].value].target := reading], after)
    ensures Accumulated(s, keys, env, i, before, after)
  {
    TargetsHead(s, keys, i);
    if ReadsLast(s, keys, i) {
      NotTargetedLater(s, keys, i);
    }
  }

  lemma NotTargetedLater(s: Store, keys: seq<Option<ObjectKey>>, i: nat)
    requires i < |keys| && ReadsLast(s, keys, i)
    ensures s[keys[i].value].target !in TargetsOf(s, keys[i + 1..])
  {
    var rest := keys[i + 1..];
    forall j | 0 <= j < |rest| && rest[j].Some? && rest[j].value in s
      ensures s[rest[j].value].target != s[keys[i].value].target
    {
      assert rest[j] == keys[i + 1 + j];
    }
  }

  lemma TargetsHead(s: Store, keys: seq<Option<ObjectKey>>, i: nat)
    requires i < |keys| && keys[i].Some? && keys[i].value in s
    ensures TargetsOf(s, keys[i..]) == {s[keys[i].value].target} + TargetsOf(s, keys[i + 1..])
  {
    assert keys[i..][0] == keys[i];
    assert keys[i..][1..] == keys[i + 1..];
    forall d | d in TargetsOf(s, keys[i + 1..]) ensures d in TargetsOf(s, keys[i..]) {
      var j :| 0 <= j < |keys[i + 1..]| && keys[i + 1..][j].Some? && keys[i + 1..][j].value in s
               && s[keys[i + 1..][j].value].target == d;
      assert keys[i..][j + 1] == keys[i + 1..][j];
    }
    forall d | d in TargetsOf(s, keys[i..]) ensures d == s[keys[i].value].target || d in TargetsOf(s, keys[i + 1..]) {
      var j :| 0 <= j < |keys[i..]| && keys[i..][j].Some? && keys[i..][j].value in s
               && s[keys[i..][j].value].target == d;
      if j > 0 { assert keys[i + 1..][j - 1] == keys[i..][j]; }
    }
  }

  // ---- Reading while others edit ----

  /** The store as iteration `j` finds it, after the edits of the iterations from `i` to `j`. */
  function StoreAtRead(s: Store, script: Script, i: nat, j: nat): Store
    requires i <= j
    decreases j
  {
    Interfere(if i == j then s else StoreAtRead(s, script, i, j - 1), CallAt(script, j).edits)
  }

  lemma {:induction false} StoreAtLaterRead(s: Store, script: Script, i: nat, j: nat)
    requires i < j
    ensures StoreAtRead(Interfere(s, CallAt(script, i).edits), script, i + 1, j) == StoreAtRead(s, script, i, j)
    decreases j
  {
    if i + 1 < j {
      StoreAtLaterRead(s, script, i, j - 1);
    }
  }

  /** The deployment that an iteration asks for: the target its object has at that moment. */
  function TargetNow(s: Store, key: Option<ObjectKey>, succeeds: bool): Option<string> {
    if key.Some? && key.value in s && succeeds then Some(s[key.value].target) else None
  }

  /** The deployments that the iterations from `i` on ask for, as far as they get. */
  function TargetsRead(s: Store, keys: seq<Option<ObjectKey>>, script: Script, i: nat): (targets: seq<Option<string>>)
    requires i <= |keys|
    ensures |targets| == |keys| - i
    decreases |keys| - i
  {
    if i == |keys| then []
    else
      var s1 := Interfere(s, CallAt(script, i).edits);
      [TargetNow(s1, keys[i], CallAt(script, i).succeeds)] + TargetsRead(s1, keys, script, i + 1)
  }

  /** Each is the target at its own moment, after all edits until then. */
  lemma {:induction false} TargetsAreRead(s: Store, keys: seq<Option<ObjectKey>>, script: Script, i: nat, j: nat)
    requires i <= j < |keys|
    ensures TargetsRead(s, keys, script, i)[j - i]
            == TargetNow(StoreAtRead(s, script, i, j), keys[j], CallAt(script, j).succeeds)
    decreases |keys| - i
  {
    if i < j {
      var s1 := Interfere(s, CallAt(script, i).edits);
      TargetsAreRead(s1, keys, script, i + 1, j);
      StoreAtLaterRead(s, script, i, j);
    }
  }

  /** Every iteration finds its object and gets its answers. */
  ghost predicate AllAnswered(targets: seq<Option<string>>, env: Env, i: nat) {
    forall k :: 0 <= k < |targets| ==> targets[k].Some? && AnswerAt(env, i + k, targets[k].value).Some?
  }

  /** No later iteration asks for the deployment of iteration `k`. */
  ghost predicate AsksLast(targets: seq<Option<string>>, k: int)
    requires 0 <= k < |targets|
  {
    forall k' :: k < k' < |targets| ==> targets[k'] != targets[k]
  }

  /** The readings have the answer of iteration `k` for its deployment. */
  ghost predicate HasAnswer(targets: seq<Option<string>>, env: Env, i: nat, after: Readings, k: int)
    requires 0 <= k < |targets|
  {
    && targets[k].Some? && targets[k].value in after
    && AnswerAt(env, i + k, targets[k].value) == Some(after[targets[k].value])
  }

  /** Each deployment asked for has its last answer. */
  ghost predicate LastAnswers(targets: seq<Option<string>>, env: Env, i: nat, after: Readings) {
    forall k :: 0 <= k < |targets| && AsksLast(targets, k) ==> HasAnswer(targets, env, i, after, k)
  }

  /** The deployments asked for are there, and those that were there before; these stay unless asked for again. */
  ghost predicate OnlyAnswers(targets: seq<Option<string>>, before: Readings, after: Readings) {
    && (forall d :: d in after <==> d in before || Some(d) in targets)
    && (forall d :: d in before && Some(d) !in targets ==> after[d] == before[d])
  }

  lemma OneMoreAnswered(target: string, rest: seq<Option<string>>, env: Env, i: nat)
    requires AnswerAt(env, i, target).Some? && AllAnswered(rest, env, i + 1)
    ensures AllAnswered([Some(target)] + rest, env, i)
  {
    var targets := [Some(target)] + rest;
    forall k | 0 <= k < |targets| ensures targets[k].Some? && AnswerAt(env, i + k, targets[k].value).Some? {
      if k > 0 { assert targets[k] == rest[k - 1] && AnswerAt(env, i + 1 + (k - 1), rest[k - 1].value).Some?; }
    }
  }

  lemma AsksLastLater(target: Option<string>, rest: seq<Option<string>>, k: int)
    requires 0 <= k < |rest| && AsksLast([target] + rest, k + 1)
    ensures AsksLast(rest, k)
  {
    assert forall k' :: k < k' < |rest| ==> rest[k'] == ([target] + rest)[k' + 1];
  }

  lemma AsksLastFirst(target: Option<string>, rest: seq<Option<string>>)
    requires AsksLast([target] + rest, 0)
    ensures target !in rest
  {
    assert forall k' :: 0 <= k' < |rest| ==> rest[k'] == ([target] + rest)[k' + 1];
  }

  lemma LaterAnswer(target: Option<string>, rest: seq<Option<string>>, env: Env, i: nat, after: Readings, k: int)
    requires 0 <= k < |rest| && HasAnswer(rest, env, i + 1, after, k)
    ensures HasAnswer([target] + rest, env, i, after, k + 1)
  {
  }

  lemma OneMoreLastAnswer(target: string, rest: seq<Option<string>>, env: Env, i: nat, before: Readings,
                          after: Readings)
    requires AnswerAt(env, i, target).Some? && LastAnswers(rest, env, i + 1, after)
    requires OnlyAnswers(rest, before[target := AnswerAt(env, i, target).value], after)
    ensures LastAnswers([Some(target)] + rest, env, i, after)
  {
    var targets := [Some(target)] + rest;
    forall k | 0 <= k < |targets| && AsksLast(targets, k) ensures HasAnswer(targets, env, i, after, k) {
      if k > 0 {
        AsksLastLater(Some(target), rest, k - 1);
        LaterAnswer(Some(target), rest, env, i, after, k - 1);
      } else {
        AsksLastFirst(Some(target), rest);
      }
    }
  }

  lemma OneMoreOnlyAnswer(target: string, rest: seq<Option<string>>, reading: Reading, before: Readings,
                          after: Readings)
    requires OnlyAnswers(rest, before[target := reading], after)
    ensures OnlyAnswers([Some(target)] + rest, before, after)
  {
    assert forall t :: t in [Some(target)] + rest <==> t == Some(target) || t in rest;
  }

  lemma NotAllAnswered(target: Option<string>, rest: seq<Option<string>>, env: Env, i: nat)
    ensures AllAnswered([target] + rest, env, i) ==>
              target.Some? && AnswerAt(env, i, target.value).Some? && AllAnswered(rest, env, i + 1)
  {
    var targets := [target] + rest;
    if AllAnswered(targets, env, i) {
      assert targets[0] == target && AnswerAt(env, i + 0, targets[0].value).Some?;
      forall k | 0 <= k < |rest| ensures rest[k].Some? && AnswerAt(env, i + 1 + k, rest[k].value).Some? {
        assert targets[k + 1] == rest[k] && AnswerAt(env, i + (k + 1), targets[k + 1].value).Some?;
      }
    }
  }

  /**
    The read loop under any edits: it ends exactly when each iteration finds its object and gets its answers, and
    then there is one entry for each deployment asked for, with the answer taken last.
  */
  lemma {:induction false} DisturbedReads(s: Store, keys: seq<Option<ObjectKey>>, env: Env, i: nat, readings: Readings)
    requires i <= |keys|
    ensures var m, targets := ReadFrom(s, keys, env, i, readings), TargetsRead(s, keys, env.readScript, i);
            && (m.readings.Some? <==> AllAnswered(targets, env, i))
            && (m.readings.Some? ==>
                  LastAnswers(targets, env, i, m.readings.value) && OnlyAnswers(targets, readings, m.readings.value))
    decreases |keys| - i
  {
    if i < |keys| {
      var s1 := Interfere(s, CallAt(env.readScript, i).edits);
      var target := TargetNow(s1, keys[i], CallAt(env.readScript, i).succeeds);
      var rest := TargetsRead(s1, keys, env.readScript, i + 1);
      NotAllAnswered(target, rest, env, i);
      if target.Some? && AnswerAt(env, i, target.value).Some? {
        var readings' := readings[target.value := AnswerAt(env, i, target.value).value];
        DisturbedReads(s1, keys, env, i + 1, readings');
        if AllAnswered(rest, env, i + 1) {
          var after := ReadFrom(s1, keys, env, i + 1, readings').readings.value;
          OneMoreAnswered(target.value, rest, env, i);
          OneMoreLastAnswer(target.value, rest, env, i, readings, after);
          OneMoreOnlyAnswer(target.value, rest, AnswerAt(env, i, target.value).value, readings, after);
        }
      }
    }
  }
}
