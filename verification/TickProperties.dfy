/** What holds of every tick and every create event, and of pairs of them. */
module TickProperties {
  import opened Prelude
  import opened Rounding
  import opened Sums
  import opened Strategies
  import opened Cluster
  import opened ChangeLog
  import opened WriteLoop
  import opened ReadLoop
  import opened Ticks

  ghost predicate UndisturbedEnv(env: Env) {
    Undisturbed(env.readScript) && Undisturbed(env.writeScript)
  }

  /** The count the timer must leave on an object that targets `d`, from the tick's measurements. */
  ghost function DueCount(readings: Readings, cap: Option<int>, d: string): int
    requires d in readings
    requires Sum(Powers(readings)) > 0.0 ==> !StrategyRaises(Powers(readings), cap)
  {
    if Sum(Powers(readings)) > 0.0 then Trunc(cap.value as real / readings[d].power) else 1
  }

  /**
    A tick that nobody disturbs publishes exactly when every read succeeds, the strategy is not needed or
    does not raise on the measurements, and every write succeeds.
  */
  lemma WhenTickPublishes(s: Store, keys: seq<Option<ObjectKey>>, cap: Option<int>, env: Env)
    requires UndisturbedEnv(env)
    ensures TickOn(s, keys, cap, env).published.Some? <==>
            && ReadsSucceed(s, keys, env, 0)
            && StrategyServes(ReadFrom(s, keys, env, 0, map[]).readings, cap)
            && WritesSucceed(s, keys, env.writeScript)
  {
    ReadsAreMeasurement(s, keys, env);
    ReadsWriteNothing(s, keys, env, 0, map[]);
    var m := ReadFrom(s, keys, env, 0, map[]);
    if m.readings.Some? {
      var limits := LimitsFor(Powers(m.readings.value), cap);
      if limits.Ok? {
        WritesComplete(s, keys, limits.value, 1, env.writeScript, 0);
      }
    }
  }

  /** There are measurements, and no power to divide or nothing that makes a division raise. */
  ghost predicate StrategyServes(readings: Option<Readings>, cap: Option<int>) {
    readings.Some? && !(Sum(Powers(readings.value)) > 0.0 && StrategyRaises(Powers(readings.value), cap))
  }

  /** Every iteration of the write loop gets and patches its object. */
  ghost predicate WritesSucceed(s: Store, keys: seq<Option<ObjectKey>>, script: Script) {
    forall j :: 0 <= j < |keys| ==> Reads(s, keys[j], CallAt(script, j).succeeds)
  }

  /** The forecast of each measured deployment: its due count times its measured power. */
  ghost function DueForecast(readings: Readings, cap: Option<int>): (forecast: map<string, real>)
    requires Sum(Powers(readings)) > 0.0 ==> !StrategyRaises(Powers(readings), cap)
    ensures forecast.Keys == readings.Keys
  {
    map d | d in readings :: Draw(DueCount(readings, cap, d), readings[d].power)
  }

  /** Each referenced object holds the count due to its target, and nothing else differs. */
  ghost predicate HoldsDueCounts(s: Store, s': Store, keys: set<ObjectKey>, readings: Readings, cap: Option<int>) {
    && s'.Keys == s.Keys && keys <= s.Keys
    && (Sum(Powers(readings)) > 0.0 ==> !StrategyRaises(Powers(readings), cap))
    && (forall k :: k in s && k !in keys ==> s'[k] == s[k])
    && forall k :: k in keys ==>
         s[k].target in readings && s'[k] == s[k].(maxReplicaCount := DueCount(readings, cap, s[k].target))
  }

  /**
    Functional correctness of a published, undisturbed tick. References may come in any order, repeat, or
    share a deployment: the measurement has one reading a targeted deployment, the last one taken; each
    referenced object holds the count due to its target, every other object and every other field is as
    before; and the status counts each deployment once, with its measured power and with its due count times
    that power.
  */
  lemma PublishedTickIsPointwise(s: Store, keys: seq<Option<ObjectKey>>, cap: Option<int>, env: Env)
    requires UndisturbedEnv(env) && TickOn(s, keys, cap, env).published.Some?
    ensures ReadsSucceed(s, keys, env, 0)
    ensures var r := TickOn(s, keys, cap, env);
            && IsMeasurement(s, keys, env, r.published.value.readings)
            && HoldsDueCounts(s, r.store, Referenced(keys), r.published.value.readings, cap)
            && r.published.value.refCount == |keys|
            && r.published.value.forecast == DueForecast(r.published.value.readings, cap)
            && r.published.value.status == Status(Sum(Powers(r.published.value.readings)),
                                                  Sum(DueForecast(r.published.value.readings, cap)))
  {
    ReadsAreMeasurement(s, keys, env);
    ReadsWriteNothing(s, keys, env, 0, map[]);
    var readings := ReadFrom(s, keys, env, 0, map[]).readings.value;
    var limits := LimitsFor(Powers(readings), cap).value;
    CompletedWritesAreDue(s, keys, limits, env.writeScript, readings, cap);
    ForecastIsDue(readings, limits, cap);
  }

  lemma ForecastIsDue(readings: Readings, limits: map<string, int>, cap: Option<int>)
    requires LimitsFor(Powers(readings), cap) == Ok(limits)
    ensures Forecast(Powers(readings), limits) == DueForecast(readings, cap)
  {
  }

  lemma CompletedWritesAreDue(s: Store, keys: seq<Option<ObjectKey>>, limits: map<string, int>, script: Script,
                              readings: Readings, cap: Option<int>)
    requires Undisturbed(script) && WriteFrom(s, keys, limits, 1, script, 0).completed
    requires readings.Keys == TargetsOf(s, keys) && LimitsFor(Powers(readings), cap) == Ok(limits)
    ensures HoldsDueCounts(s, WriteFrom(s, keys, limits, 1, script, 0).store, Referenced(keys), readings, cap)
  {
    WritesArePointwise(s, keys, limits, 1, script, 0);
    assert keys[0..] == keys;
    forall k | k in Referenced(keys) ensures k in s && s[k].target in readings {
      CompletedWritesTarget(s, keys, limits, script, k);
    }
    LimitsAreDue(readings, limits, cap);
  }

  lemma CompletedWritesTarget(s: Store, keys: seq<Option<ObjectKey>>, limits: map<string, int>, script: Script,
                              k: ObjectKey)
    requires Undisturbed(script) && WriteFrom(s, keys, limits, 1, script, 0).completed && k in Referenced(keys)
    ensures k in s && s[k].target in TargetsOf(s, keys)
  {
    WritesComplete(s, keys, limits, 1, script, 0);
    var i :| 0 <= i < |keys| && keys[i] == Some(k);
    assert Reads(s, keys[i], CallAt(script, i).succeeds);
    assert s[keys[i].value].target in TargetsOf(s, keys);
  }

  /** The table's entry, or the default, is the due count. */
  lemma LimitsAreDue(readings: Readings, limits: map<string, int>, cap: Option<int>)
    requires LimitsFor(Powers(readings), cap) == Ok(limits)
    ensures forall d :: d in readings ==> Lookup(limits, d, 1) == DueCount(readings, cap, d)
  {
  }

  /**
    Failure before writes. Given successful reads of non-negative powers, the strategy call raises exactly
    when some deployment draws power and either another draws none or there is no cap; the tick then
    writes and publishes nothing, whatever others do meanwhile.
  */
  lemma StrategyFailureWritesNothing(s: Store, keys: seq<Option<ObjectKey>>, cap: Option<int>, env: Env)
    requires ReadFrom(s, keys, env, 0, map[]).readings.Some?
    requires var readings := ReadFrom(s, keys, env, 0, map[]).readings.value;
             forall d :: d in readings ==> readings[d].power >= 0.0
    ensures var readings, r := ReadFrom(s, keys, env, 0, map[]).readings.value, TickOn(s, keys, cap, env);
            var raises := LimitsFor(Powers(readings), cap).Raised?;
            && (raises <==> && (exists d :: d in readings && readings[d].power > 0.0)
                            && (cap.None? || exists d :: d in readings && readings[d].power == 0.0))
            && (raises ==> r.published.None? && EditsOnly(s, r.changes, r.store, env.readScript))
  {
    var readings := ReadFrom(s, keys, env, 0, map[]).readings.value;
    var power := Powers(readings);
    SumNonNegative(power);
    if d :| d in readings && readings[d].power > 0.0 {
      assert d in power && power[d] > 0.0;
      if cap.None? { assert StrategyRaises(power, cap); }
      if e :| e in readings && readings[e].power == 0.0 { assert e in power && power[e] == 0.0; }
    } else {
      assert forall d :: d in power ==> power[d] == 0.0;
    }
    ReadsWriteNothing(s, keys, env, 0, map[]);
  }

  /**
    A tick looks at the targets of its own objects only: neither a count nor any other object changes its
    patches or what it publishes.
  */
  lemma TickIgnoresCounts(s: Store, s': Store, keys: seq<Option<ObjectKey>>, cap: Option<int>, env: Env)
    requires SameTargetsAt(s, s', Referenced(keys))
    ensures TickOn(s, keys, cap, env).changes == TickOn(s', keys, cap, env).changes
    ensures TickOn(s, keys, cap, env).published == TickOn(s', keys, cap, env).published
  {
    ReadsIgnoreCounts(s, s', keys, env, 0, map[]);
    var m, m' := ReadFrom(s, keys, env, 0, map[]), ReadFrom(s', keys, env, 0, map[]);
    if m.readings.Some? {
      var limits := LimitsFor(Powers(m.readings.value), cap);
      if limits.Ok? {
        WritesIgnoreCounts(m.store, m'.store, keys, limits.value, 1, env.writeScript, 0);
      }
    }
  }

  /** Patches of objects with these keys, and nothing else. */
  ghost predicate PatchesOf(changes: seq<Change>, keys: set<ObjectKey>) {
    forall c :: c in changes ==> c.Patched? && c.patch.key in keys
  }

  /** Undisturbed, a tick is its patches: they name referenced objects, and the new store is the old one patched. */
  lemma UndisturbedTickIsItsPatches(s: Store, keys: seq<Option<ObjectKey>>, cap: Option<int>, env: Env)
    requires UndisturbedEnv(env)
    ensures var r := TickOn(s, keys, cap, env);
            r.store == ApplyChanges(s, r.changes) && PatchesOf(r.changes, Referenced(keys))
  {
    ReadsWriteNothing(s, keys, env, 0, map[]);
    var m := ReadFrom(s, keys, env, 0, map[]);
    if m.readings.Some? {
      var limits := LimitsFor(Powers(m.readings.value), cap);
      if limits.Ok? {
        var w := WriteFrom(s, keys, limits.value, 1, env.writeScript, 0);
        UndisturbedWritesArePatches(s, keys, limits.value, 1, env.writeScript, 0);
        WritesComeFromTable(s, keys, limits.value, 1, env.writeScript, 0);
        assert [] + w.changes == w.changes;
      }
    }
  }

  lemma PatchedTargets(s: Store, changes: seq<Change>)
    requires PatchesOnly(changes)
    ensures SameTargets(s, ApplyChanges(s, changes))
  {
    AppliedPatches(s, changes);
    forall k | k in s ensures ObjectAt(ApplyChanges(s, changes), k).value.target == s[k].target {
      assert ObjectAt(s, k) == Some(s[k]);
    }
  }

  /** Applying patches again changes nothing. */
  lemma PatchedTwice(s: Store, changes: seq<Change>)
    requires PatchesOnly(changes)
    ensures ApplyChanges(ApplyChanges(s, changes), changes) == ApplyChanges(s, changes)
  {
    var once := ApplyChanges(s, changes);
    var twice := ApplyChanges(once, changes);
    AppliedPatches(s, changes);
    AppliedPatches(once, changes);
    SameObjects(once, twice);
  }

  lemma SameObjects(s: Store, s': Store)
    requires forall k :: ObjectAt(s, k) == ObjectAt(s', k)
    ensures s == s'
  {
    forall k ensures k in s <==> k in s' { assert ObjectAt(s, k) == ObjectAt(s', k); }
    forall k | k in s ensures s[k] == s'[k] { assert ObjectAt(s, k) == ObjectAt(s', k); }
  }

  /** A second tick with the same answers repeats the first: same status, same patches, store unchanged by it. */
  lemma TickIsIdempotent(s: Store, keys: seq<Option<ObjectKey>>, cap: Option<int>, env: Env)
    requires UndisturbedEnv(env)
    ensures var first := TickOn(s, keys, cap, env);
            TickOn(first.store, keys, cap, env) == first
  {
    var first := TickOn(s, keys, cap, env);
    UndisturbedTickIsItsPatches(s, keys, cap, env);
    UndisturbedTickIsItsPatches(first.store, keys, cap, env);
    PatchedTargets(s, first.changes);
    TickIgnoresCounts(s, first.store, keys, cap, env);
    PatchedTwice(s, first.changes);
  }

  /**
    Ticks of two configs over disjoint objects commute, for every pair of caps and answers, the ticks
    that stop midway included: same store, same patches, same publications in either order.
  */
  lemma TicksCommute(s: Store, keysA: seq<Option<ObjectKey>>, capA: Option<int>, envA: Env,
                     keysB: seq<Option<ObjectKey>>, capB: Option<int>, envB: Env)
    requires UndisturbedEnv(envA) && UndisturbedEnv(envB)
    requires Referenced(keysA) !! Referenced(keysB)
    ensures var a, b := TickOn(s, keysA, capA, envA), TickOn(s, keysB, capB, envB);
            var ab, ba := TickOn(a.store, keysB, capB, envB), TickOn(b.store, keysA, capA, envA);
            && ab.store == ba.store
            && ab.changes == b.changes && ab.published == b.published
            && ba.changes == a.changes && ba.published == a.published
  {
    var a, b := TickOn(s, keysA, capA, envA), TickOn(s, keysB, capB, envB);
    TickAfter(s, a.changes, keysB, capB, envB) by { UndisturbedTickIsItsPatches(s, keysA, capA, envA); }
    TickAfter(s, b.changes, keysA, capA, envA) by { UndisturbedTickIsItsPatches(s, keysB, capB, envB); }
    UndisturbedTickIsItsPatches(s, keysA, capA, envA);
    UndisturbedTickIsItsPatches(s, keysB, capB, envB);
    DisjointPatchesCommute(s, a.changes, b.changes, Referenced(keysA), Referenced(keysB));
  }

  /** A tick after some patches does what it would have done before them. */
  lemma TickAfter(s: Store, changes: seq<Change>, keys: seq<Option<ObjectKey>>, cap: Option<int>, env: Env)
    requires UndisturbedEnv(env) && PatchesOnly(changes)
    ensures var before, after := TickOn(s, keys, cap, env), TickOn(ApplyChanges(s, changes), keys, cap, env);
            && after.changes == before.changes && after.published == before.published
            && after.store == ApplyChanges(ApplyChanges(s, changes), before.changes)
  {
    PatchedTargets(s, changes);
    TickIgnoresCounts(s, ApplyChanges(s, changes), keys, cap, env);
    UndisturbedTickIsItsPatches(ApplyChanges(s, changes), keys, cap, env);
  }

  lemma DisjointPatchesCommute(s: Store, pa: seq<Change>, pb: seq<Change>, ka: set<ObjectKey>, kb: set<ObjectKey>)
    requires ka !! kb && PatchesOf(pa, ka) && PatchesOf(pb, kb)
    ensures ApplyChanges(ApplyChanges(s, pa), pb) == ApplyChanges(ApplyChanges(s, pb), pa)
  {
    var ab, ba := ApplyChanges(ApplyChanges(s, pa), pb), ApplyChanges(ApplyChanges(s, pb), pa);
    AppliedPatches(s, pa);
    AppliedPatches(s, pb);
    AppliedPatches(ApplyChanges(s, pa), pb);
    AppliedPatches(ApplyChanges(s, pb), pa);
    forall k ensures ObjectAt(ab, k) == ObjectAt(ba, k) {
      NoLastChange(pa, k);
      NoLastChange(pb, k);
    }
    SameObjects(ab, ba);
  }

  /**
    Tolerance to disturbance: others may edit the objects in any way before every read and before every
    write, and still every patch names a referenced object and carries 1 or the strategy's value for a
    deployment measured in this tick.
  */
  lemma DisturbedTickWritesMeasuredLimits(s: Store, keys: seq<Option<ObjectKey>>, cap: Option<int>, env: Env, p: Patch)
    requires Patched(p) in TickOn(s, keys, cap, env).changes
    ensures p.key in Referenced(keys) && ReadFrom(s, keys, env, 0, map[]).readings.Some?
    ensures IsMeasuredLimit(Powers(ReadFrom(s, keys, env, 0, map[]).readings.value), cap, p.maxReplicaCount)
  {
    ReadsWriteNothing(s, keys, env, 0, map[]);
    var m := ReadFrom(s, keys, env, 0, map[]);
    assert Patched(p) !in m.changes;
    var power := Powers(m.readings.value);
    var limits := LimitsFor(power, cap);
    WritesComeFromTable(m.store, keys, limits.value, 1, env.writeScript, 0);
    if p.maxReplicaCount != 1 {
      TableEntryIsMeasuredLimit(power, cap, limits.value, p.maxReplicaCount);
    }
  }

  /**
    Which of them: every patch carries the value for the target that its object has at the moment it is read
    again. That is 1 for a deployment that was not measured, or without any power, and the quotient for its own
    measured power otherwise.
  */
  lemma DisturbedTickWritesDueCounts(s: Store, keys: seq<Option<ObjectKey>>, cap: Option<int>, env: Env, i: nat)
    requires i < |TickOn(s, keys, cap, env).changes| && TickOn(s, keys, cap, env).changes[i].Patched?
    ensures ReadFrom(s, keys, env, 0, map[]).readings.Some?
    ensures var changes := TickOn(s, keys, cap, env).changes;
            IsDuePatch(changes[i].patch, ApplyChanges(s, changes[..i]),
                       ReadFrom(s, keys, env, 0, map[]).readings.value, cap)
  {
    ReadsWriteNothing(s, keys, env, 0, map[]);
    var m := ReadFrom(s, keys, env, 0, map[]);
    assert TickOn(s, keys, cap, env).changes[i] !in m.changes;
    var limits := LimitsFor(Powers(m.readings.value), cap).value;
    var w := WriteFrom(m.store, keys, limits, 1, env.writeScript, 0);
    AfterReadsDue(s, m.changes, m.store, w.changes, w.store, Referenced(keys), limits, env.writeScript, i,
                  m.readings.value, cap) by {
      WritesComeFromTable(m.store, keys, limits, 1, env.writeScript, 0);
    }
  }

  lemma AfterReadsDue(s: Store, edits: seq<Change>, s1: Store, writes: seq<Change>, s2: Store, keys: set<ObjectKey>,
                      limits: map<string, int>, script: Script, i: nat, readings: Readings, cap: Option<int>)
    requires s1 == ApplyChanges(s, edits) && WrittenBy(s1, writes, s2, keys, limits, 1, script)
    requires i < |edits + writes| && (edits + writes)[i].Patched? && (edits + writes)[i] !in edits
    requires LimitsFor(Powers(readings), cap) == Ok(limits)
    ensures IsDuePatch((edits + writes)[i].patch, ApplyChanges(s, (edits + writes)[..i]), readings, cap)
  {
    assert i >= |edits|;
    var j := i - |edits|;
    assert (edits + writes)[..i] == edits + writes[..j];
    FollowsTableAt(s1, writes, limits, 1, j);
    ApplyAppended(s, edits, writes[..j]);
    EntryIsDue(writes[j].patch, ApplyChanges(s1, writes[..j]), readings, limits, cap);
  }

  ghost predicate IsDuePatch(patch: Patch, now: Store, readings: Readings, cap: Option<int>) {
    && patch.key in now
    && (if now[patch.key].target in readings && Sum(Powers(readings)) > 0.0 then
          && cap.Some? && readings[now[patch.key].target].power != 0.0
          && patch.maxReplicaCount == Trunc(cap.value as real / readings[now[patch.key].target].power)
        else patch.maxReplicaCount == 1)
  }

  lemma EntryIsDue(patch: Patch, now: Store, readings: Readings, limits: map<string, int>, cap: Option<int>)
    requires LimitsFor(Powers(readings), cap) == Ok(limits) && IsEntryFor(patch, now, limits, 1)
    ensures IsDuePatch(patch, now, readings, cap)
  {
  }

  /** 1, or the quotient for a measured deployment: the greatest count that fits, unless draw or cap are negative. */
  ghost predicate IsMeasuredLimit(power: map<string, real>, cap: Option<int>, count: int) {
    || count == 1
    || exists d :: && d in power && power[d] != 0.0 && cap.Some?
                   && count == Trunc(cap.value as real / power[d])
                   && (power[d] > 0.0 && cap.value >= 0 ==> IsGreatestFit(count, power[d], cap.value as real))
  }

  lemma TableEntryIsMeasuredLimit(power: map<string, real>, cap: Option<int>, limits: map<string, int>, count: int)
    requires LimitsFor(power, cap) == Ok(limits) && count in limits.Values
    ensures IsMeasuredLimit(power, cap, count)
  {
    var d :| d in limits && limits[d] == count;
    assert d in power && !(cap.None? || power[d] == 0.0);
    if power[d] > 0.0 && cap.value >= 0 {
      TruncIsGreatestFit(cap.value as real, power[d], count);
    }
  }
}
