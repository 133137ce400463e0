/**
  The part of the Kubernetes API server the operator writes to: the KEDA ScaledObjects.

  The handlers read one object, set its maxReplicaCount and send the whole object back, so the loop
  that does this for a list of references is shared by the create event and by the timer.
*/
module Cluster {
  import opened Prelude
  import opened Text

  /** One entry of spec.scaledObjectRefs; a field the user left out is none. */
  datatype Ref = Ref(apiVersion: Option<string>, kind: Option<string>, name: Option<string>)

  /** The spec of a PowerCappingConfig, as the handlers read it. */
  datatype Spec = Spec(powerCapLimit: Option<int>, scaledObjectRefs: Option<seq<Ref>>) {
    /** spec.get('scaledObjectRefs', []) */
    function Refs(): seq<Ref> {
      if scaledObjectRefs.Some? then scaledObjectRefs.value else []
    }
  }

  /** Where an object lives on the server. */
  datatype ObjectKey = ObjectKey(group: string, version: string, namespace: string, plural: string, name: string)

  /** The fields the operator uses; `rest` stands for every other field of the object. */
  datatype ScaledObject = ScaledObject(target: string, maxReplicaCount: int, rest: string)

  type Store = map<ObjectKey, ScaledObject>

  /** One accepted write. */
  datatype Patch = Patch(key: ObjectKey, maxReplicaCount: int)

  /** Python's str.lower, on the ASCII letters that Kubernetes kinds are made of. */
  function Lower(s: string): string {
    if s == "" then ""
    else [if 'A' <= s[0] <= 'Z' then (s[0] as int + 32) as char else s[0]] + Lower(s[1..])
  }

  /** The object a reference names; none when building the request raises (a missing field, no '/'). */
  function KeyOf(ref: Ref, namespace: string): Option<ObjectKey> {
    if ref.apiVersion.None? || ref.kind.None? || ref.name.None? then None
    else
      var parts := Split(ref.apiVersion.value, '/');
      if |parts| < 2 then None
      else Some(ObjectKey(parts[0], parts[1], namespace, Lower(ref.kind.value) + "s", ref.name.value))
  }

  /**
    What other clients do between two calls: some objects end up as others left them, in any state, created
    and deleted ones included.
  */
  type Edits = map<ObjectKey, Option<ScaledObject>>

  function ObjectAt(s: Store, k: ObjectKey): Option<ScaledObject> {
    if k in s then Some(s[k]) else None
  }

  function Interfere(s: Store, edits: Edits): (s': Store)
    ensures forall k :: ObjectAt(s', k) == if k in edits then edits[k] else ObjectAt(s, k)
  {
    map k | k in s.Keys + edits.Keys && (k in edits ==> edits[k].Some?) :: if k in edits then edits[k].value else s[k]
  }

  /** One entry in the history of the store. */
  datatype Change = Edited(edits: Edits) | Patched(patch: Patch)

  /** An edit of nothing leaves no entry. */
  function Logged(edits: Edits): seq<Change> {
    if edits == map[] then [] else [Edited(edits)]
  }

  /** What happens around one iteration: others edit objects first, then its calls succeed or one raises. */
  datatype Call = Call(succeeds: bool, edits: Edits)

  /** The environment of one loop, by iteration; what is not written down is an undisturbed success. */
  type Script = seq<Call>

  function CallAt(script: Script, i: nat): Call {
    if i < |script| then script[i] else Call(true, map[])
  }

  /** Nothing but the handlers changes the objects. */
  ghost predicate Undisturbed(script: Script) {
    forall i: nat :: CallAt(script, i).edits == map[]
  }

  /** updated_max_replicas.get(deployment_name, default) */
  function Lookup(limits: map<string, int>, target: string, default: int): int {
    if target in limits then limits[target] else default
  }

  /** Lower-casing keeps every character but the capitals, and turns each of those into its small letter. */
  lemma {:induction false} LowerIsPointwise(s: string)
    ensures |Lower(s)| == |s|
    ensures forall i :: 0 <= i < |s| ==>
              if 'A' <= s[i] <= 'Z' then 'a' <= Lower(s)[i] <= 'z' && Lower(s)[i] - 'a' == s[i] - 'A'
              else Lower(s)[i] == s[i]
  {
    if s != "" {
      LowerIsPointwise(s[1..]);
    }
  }

  /** The same letters, small or capital. */
  ghost predicate SameButCase(s: string, s': string) {
    && |s| == |s'|
    && forall i :: 0 <= i < |s| ==>
         || s[i] == s'[i]
         || ('A' <= s[i] <= 'Z' && 'a' <= s'[i] <= 'z' && s[i] - 'A' == s'[i] - 'a')
         || ('a' <= s[i] <= 'z' && 'A' <= s'[i] <= 'Z' && s[i] - 'a' == s'[i] - 'A')
  }

  /** Kinds that differ only in case name the same object. */
  lemma CaseDoesNotMatter(ref: Ref, ref': Ref, namespace: string)
    requires ref.apiVersion == ref'.apiVersion && ref.name == ref'.name
    requires ref.kind.Some? && ref'.kind.Some? && SameButCase(ref.kind.value, ref'.kind.value)
    ensures KeyOf(ref, namespace) == KeyOf(ref', namespace)
  {
    LowerIsPointwise(ref.kind.value);
    LowerIsPointwise(ref'.kind.value);
    assert Lower(ref.kind.value) == Lower(ref'.kind.value);
  }

  /** A text that is another one with its capitals made small. */
  lemma LowerIs(s: string, small: string)
    requires |small| == |s|
    requires forall i :: 0 <= i < |s| ==>
               if 'A' <= s[i] <= 'Z' then 'a' <= small[i] <= 'z' && small[i] - 'a' == s[i] - 'A' else small[i] == s[i]
    ensures Lower(s) == small
  {
    LowerIsPointwise(s);
  }

  lemma LowerScaledObject()
    ensures Lower("ScaledObject") == "scaledobject"
  {
    LowerIs("ScaledObject", "scaledobject");
  }

  /** References to ScaledObjects ask for the plural of the CRD. */
  lemma ScaledObjectPlural(ref: Ref, namespace: string)
    requires ref.kind == Some("ScaledObject") && KeyOf(ref, namespace).Some?
    ensures KeyOf(ref, namespace).value.plural == "scaledobjects"
  {
    LowerScaledObject();
    assert "scaledobject" + "s" == "scaledobjects";
  }

  /**
    Building the request raises exactly for a missing field or an apiVersion without '/'; else the key is
    made of what stands before the first '/' and between it and the second, if any.
  */
  lemma KeyOfReference(ref: Ref, namespace: string, group: string, version: string, rest: string)
    ensures KeyOf(ref, namespace).None? <==>
            ref.apiVersion.None? || ref.kind.None? || ref.name.None? || '/' !in ref.apiVersion.value
    ensures ref.apiVersion == Some(group + ['/'] + version + rest) && ref.kind.Some? && ref.name.Some?
            && '/' !in group && '/' !in version && (rest == "" || rest[0] == '/') ==>
              KeyOf(ref, namespace)
              == Some(ObjectKey(group, version, namespace, Lower(ref.kind.value) + "s", ref.name.value))
  {
    if ref.apiVersion.Some? {
      SplitCount(ref.apiVersion.value, '/');
    }
    if '/' !in group && '/' !in version && (rest == "" || rest[0] == '/') {
      FirstTwoPieces(group, version, rest, '/');
    }
  }

  /** The object of each reference, in order. */
  function KeysOf(refs: seq<Ref>, namespace: string): (keys: seq<Option<ObjectKey>>)
    ensures |keys| == |refs| && forall i :: 0 <= i < |refs| ==> keys[i] == KeyOf(refs[i], namespace)
  {
    seq(|refs|, i requires 0 <= i < |refs| => KeyOf(refs[i], namespace))
  }

  /** Reading the object of a reference raises for a bad reference, a missing object or a failed call. */
  predicate Reads(s: Store, key: Option<ObjectKey>, succeeds: bool) {
    key.Some? && key.value in s && succeeds
  }

  /** One accepted patch. */
  function SetCount(s: Store, k: ObjectKey, count: int): Store {
    if k in s then s[k := s[k].(maxReplicaCount := count)] else s
  }

  /** One iteration of the write loop: the patch that gets accepted, or none when a call raises. */
  function WriteOne(s: Store, key: Option<ObjectKey>, limits: map<string, int>, default: int,
                    succeeds: bool): Option<Patch> {
    if !Reads(s, key, succeeds) then None
    else Some(Patch(key.value, Lookup(limits, s[key.value].target, default)))
  }

  /** `changes` is all that happened to the store, in order. */
  datatype Written = Written(store: Store, changes: seq<Change>, completed: bool)

  /** The write loop from reference `i` on: the first call that fails ends it. */
  function WriteFrom(s: Store, keys: seq<Option<ObjectKey>>, limits: map<string, int>, default: int,
                     script: Script, i: nat): Written
    requires i <= |keys|
    decreases |keys| - i
  {
    if i == |keys| then Written(s, [], true)
    else
      var edits := CallAt(script, i).edits;
      var s1 := Interfere(s, edits);
      var patch := WriteOne(s1, keys[i], limits, default, CallAt(script, i).succeeds);
      if patch.None? then Written(s1, Logged(edits), false)
      else
        var s2 := SetCount(s1, patch.value.key, patch.value.maxReplicaCount);
        var rest := WriteFrom(s2, keys, limits, default, script, i + 1);
        Written(rest.store, Logged(edits) + [Patched(patch.value)] + rest.changes, rest.completed)
  }

  /** What is done and what is to come. */
  lemma Shift<T>(done: seq<T>, a: seq<T>, b: seq<T>, rest: seq<T>)
    ensures done + (a + b + rest) == done + a + b + rest
  {
  }

  /** The server as an object: the store, and the log of what happened to it. */
  class ApiServer {
    var objects: Store
    ghost var log: seq<Change>

    constructor (objects: Store)
      ensures this.objects == objects && log == []
    {
      this.objects := objects;
      log := [];
    }

    /** Other clients act. */
    method Disturb(edits: Edits)
      modifies this
      ensures objects == Interfere(old(objects), edits) && log == old(log) + Logged(edits)
    {
      objects := Interfere(objects, edits);
      log := log + Logged(edits);
    }

    /** Reads one object, sets its maxReplicaCount and sends the whole object back. */
    method WriteCount(key: Option<ObjectKey>, limits: map<string, int>, default: int, succeeds: bool)
      returns (accepted: bool)
      modifies this
      ensures var patch := WriteOne(old(objects), key, limits, default, succeeds);
              if patch.None? then !accepted && objects == old(objects) && log == old(log)
              else accepted && log == old(log) + [Patched(patch.value)]
                   && objects == SetCount(old(objects), patch.value.key, patch.value.maxReplicaCount)
    {
      if !Reads(objects, key, succeeds) {
        return false;
      }
      var scaledObject := objects[key.value];
      var count := Lookup(limits, scaledObject.target, default);
      objects := objects[key.value := scaledObject.(maxReplicaCount := count)];
      log := log + [Patched(Patch(key.value, count))];
      accepted := true;
    }

    /**
      The loop of create_power_capping_config (lines 72 to 99) and of monitor_power_usage (lines
      155 to 184): a failed call ends it.
    */
    method WriteCounts(keys: seq<Option<ObjectKey>>, limits: map<string, int>, default: int, script: Script)
      returns (completed: bool)
      modifies this
      ensures var w := WriteFrom(old(objects), keys, limits, default, script, 0);
              objects == w.store && completed == w.completed && log == old(log) + w.changes
    {
      ghost var w := WriteFrom(objects, keys, limits, default, script, 0);
      ghost var final, finalLog, finalCompleted := w.store, log + w.changes, w.completed;
      for i := 0 to |keys|
        invariant w == WriteFrom(objects, keys, limits, default, script, i)
        invariant w.store == final && w.completed == finalCompleted && log + w.changes == finalLog
      {
        ghost var before := log;
        Disturb(CallAt(script, i).edits);
        ghost var patch := WriteOne(objects, keys[i], limits, default, CallAt(script, i).succeeds);
        var accepted := WriteCount(keys[i], limits, default, CallAt(script, i).succeeds);
        if !accepted {
          return false;
        }
        ghost var rest := WriteFrom(objects, keys, limits, default, script, i + 1);
        Shift(before, Logged(CallAt(script, i).edits), [Patched(patch.value)], rest.changes);
        w := rest;
      }
      completed := true;
    }
  }
}
