/**
  Handlers of several configs at once. The operator's framework runs the handlers of different configs
  concurrently, so their API calls interleave in any way, among themselves and with the edits of other clients.
  As long as the configs name different objects and the others keep off them, each handler does what it would
  have done alone.
*/
module Interleaving {
  import opened Prelude
  import opened Cluster
  import opened ChangeLog
  import opened WriteLoop
  import opened ReadLoop
  import opened Ticks
  import opened TickProperties

  datatype Handler = OnTimer | OnCreate

  /** Which call of an iteration raises, when one does: by iteration; the last call if it is named nowhere. */
  datatype Blame = Blame(readGet: set<nat>, readDeployment: set<nat>, writeGet: set<nat>)

  /** One call of a handler for one config, and the answers it gets; a create event has the write loop only. */
  datatype Job = Job(handler: Handler, spec: Spec, namespace: string, env: Env, blame: Blame) {
    function Keys(): seq<Option<ObjectKey>> {
      KeysOf(spec.Refs(), namespace)
    }

    /** The objects it names. */
    function Objects(): set<ObjectKey> {
      Referenced(Keys())
    }

    /** Some call of an iteration of the read loop raises. */
    predicate ReadRaises(i: nat, target: string) {
      !CallAt(env.readScript, i).succeeds || AnswerAt(env, i, target).None?
    }

    predicate WriteRaises(i: nat) {
      !CallAt(env.writeScript, i).succeeds
    }
  }

  /** What the write loop works with; `readings` are none for a create event. */
  datatype Plan = Plan(limits: map<string, int>, default: int, readings: Option<Readings>)

  /** The next API call of a handler: get, deployment and power in the read loop, get and patch in the write loop. */
  datatype Phase =
    | Fetching(i: nat, readings: Readings)
    | Asking(i: nat, readings: Readings, target: string)
    | Querying(i: nat, readings: Readings, target: string)
    | Getting(plan: Plan, i: nat, done: seq<Change>)
    | Patching(plan: Plan, i: nat, done: seq<Change>, held: ScaledObject)
    | Ended(done: seq<Change>, completed: bool, published: Option<Published>)
  {
    predicate InReads() { Fetching? || Asking? || Querying? }
    predicate InWrites() { Getting? || Patching? }
  }

  const RAISED := Ended([], false, None)

  ghost function FirstPhase(job: Job): Phase {
    if job.handler.OnTimer? then Fetching(0, map[])
    else if ValidSpec(job.spec) then Getting(Plan(map[], InitialMaxReplicas(job.spec.powerCapLimit.value), None), 0, [])
    else RAISED
  }

  /** The call that gets an object. */
  ghost function Fetch(job: Job, i: nat, readings: Readings, s: Store): Phase
    requires i < |job.Keys()|
  {
    var key := job.Keys()[i];
    if key.None? || key.value !in s then RAISED
    else if i in job.blame.readGet && job.ReadRaises(i, s[key.value].target) then RAISED
    else Asking(i, readings, s[key.value].target)
  }

  /** Between the loops: the strategy is asked, which is no API call. */
  ghost function Decide(job: Job, readings: Readings): Phase {
    var limits := LimitsFor(Powers(readings), job.spec.powerCapLimit);
    if limits.Raised? then RAISED else Getting(Plan(limits.value, 1, Some(readings)), 0, [])
  }

  ghost function Get(job: Job, plan: Plan, i: nat, done: seq<Change>, s: Store): Phase
    requires i < |job.Keys()|
  {
    var key := job.Keys()[i];
    if key.None? || key.value !in s || (i in job.blame.writeGet && job.WriteRaises(i)) then Ended(done, false, None)
    else Patching(plan, i, done, s[key.value])
  }

  ghost function Finish(job: Job, plan: Plan, done: seq<Change>): Phase {
    Ended(done, true,
          if plan.readings.None? then None
          else Some(Publication(|job.Keys()|, plan.readings.value, plan.limits)))
  }

  /** The patch that the call sends, made from the object that was got. */
  function PatchOf(key: ObjectKey, plan: Plan, held: ScaledObject): Patch {
    Patch(key, Lookup(plan.limits, held.target, plan.default))
  }

  /** The patch goes through: no call raises, and the object is still the one that was got. */
  predicate PatchGoes(job: Job, i: nat, held: ScaledObject, s: Store) {
    && !job.WriteRaises(i)
    && i < |job.Keys()| && job.Keys()[i].Some? && ObjectAt(s, job.Keys()[i].value) == Some(held)
  }

  ghost function NextPhase(job: Job, phase: Phase, s: Store): Phase {
    match phase
    case Fetching(i, readings) => if i < |job.Keys()| then Fetch(job, i, readings, s) else Decide(job, readings)
    case Asking(i, readings, target) =>
      if i in job.blame.readDeployment && job.ReadRaises(i, target) then RAISED else Querying(i, readings, target)
    case Querying(i, readings, target) =>
      if job.ReadRaises(i, target) then RAISED
      else Fetching(i + 1, readings[target := AnswerAt(job.env, i, target).value])
    case Getting(plan, i, done) => if i < |job.Keys()| then Get(job, plan, i, done, s) else Finish(job, plan, done)
    case Patching(plan, i, done, held) =>
      if PatchGoes(job, i, held, s) then
        Getting(plan, i + 1, done + [Patched(PatchOf(job.Keys()[i].value, plan, held))])
      else Ended(done, false, None)
    case Ended(_, _, _) => phase
  }

  /** The store after that: the whole object is sent back, with its new count. */
  function NextStore(job: Job, phase: Phase, s: Store): Store {
    if phase.Patching? && PatchGoes(job, phase.i, phase.held, s) then
      var patch := PatchOf(job.Keys()[phase.i].value, phase.plan, phase.held);
      s[patch.key := phase.held.(maxReplicaCount := patch.maxReplicaCount)]
    else s
  }

  function Done(phase: Phase): seq<Change> {
    if phase.InReads() then [] else phase.done
  }

  // ---- Schedules ----

  /** `edited` is history: what other clients did. */
  datatype State = State(store: Store, phases: map<nat, Phase>, edited: seq<Change>)

  /** One API call of a handler, or an action of other clients. */
  datatype Turn = Proceed(j: nat) | Others(edits: Edits)

  /** The others keep off the objects of the configs. */
  ghost predicate CanTake(jobs: map<nat, Job>, s: State, turn: Turn) {
    match turn
    case Proceed(j) => j in jobs && j in s.phases
    case Others(edits) => forall j, k :: j in jobs && k in edits ==> k !in jobs[j].Objects()
  }

  ghost function Take(jobs: map<nat, Job>, s: State, turn: Turn): State
    requires CanTake(jobs, s, turn)
  {
    match turn
    case Proceed(j) =>
      s.(store := NextStore(jobs[j], s.phases[j], s.store),
         phases := s.phases[j := NextPhase(jobs[j], s.phases[j], s.store)])
    case Others(edits) => s.(store := Interfere(s.store, edits), edited := s.edited + [Edited(edits)])
  }

  ghost predicate Leads(jobs: map<nat, Job>, s: State, schedule: seq<Turn>, s': State)
    decreases |schedule|
  {
    if schedule == [] then s' == s
    else CanTake(jobs, s, schedule[0]) && Leads(jobs, Take(jobs, s, schedule[0]), schedule[1..], s')
  }

  ghost function Start(store: Store, jobs: map<nat, Job>): State {
    State(store, map j | j in jobs :: FirstPhase(jobs[j]), [])
  }

  /** Different configs, different objects; nobody edits them, which the turns of the others see to. */
  ghost predicate Apart(jobs: map<nat, Job>) {
    && (forall j :: j in jobs ==> UndisturbedEnv(jobs[j].env))
    && forall j, j' :: j in jobs && j' in jobs && j != j' ==> jobs[j].Objects() !! jobs[j'].Objects()
  }

  // ---- What a handler does alone ----

  datatype Result = Result(changes: seq<Change>, completed: bool, published: Option<Published>)

  ghost function Alone(job: Job, s: Store): Result {
    if job.handler.OnTimer? then
      var r := Tick(s, job.spec, job.namespace, job.env);
      Result(r.changes, r.published.Some?, r.published)
    else
      var r := Create(s, job.spec, job.namespace, job.env.writeScript);
      Result(r.changes, r.completed, None)
  }

  ghost function StoreAlone(job: Job, s: Store): Store {
    if job.handler.OnTimer? then Tick(s, job.spec, job.namespace, job.env).store
    else Create(s, job.spec, job.namespace, job.env.writeScript).store
  }

  lemma AloneIsItsPatches(job: Job, s: Store)
    requires UndisturbedEnv(job.env)
    ensures StoreAlone(job, s) == ApplyChanges(s, Alone(job, s).changes)
    ensures PatchesOf(Alone(job, s).changes, job.Objects())
  {
    if job.handler.OnTimer? {
      UndisturbedTickIsItsPatches(s, job.Keys(), job.spec.powerCapLimit, job.env);
    } else if ValidSpec(job.spec) {
      var count := InitialMaxReplicas(job.spec.powerCapLimit.value);
      WritesComeFromTable(s, job.Keys(), map[], count, job.env.writeScript, 0);
      UndisturbedWritesArePatches(s, job.Keys(), map[], count, job.env.writeScript, 0);
    }
  }

  // ---- What a handler is heading for ----

  /** What it will have done if it goes on alone from here; an iteration that has begun counts as not begun. */
  ghost function Outlook(job: Job, phase: Phase, s: Store): Result
    requires InBounds(job, phase)
  {
    match phase
    case Ended(done, completed, published) => Result(done, completed, published)
    case Getting(plan, i, done) => WriteOutlook(job, plan, i, done, s)
    case Patching(plan, i, done, _) => WriteOutlook(job, plan, i, done, s)
    case _ => ReadOutlook(job, phase.i, phase.readings, s)
  }

  ghost function ReadOutlook(job: Job, i: nat, readings: Readings, s: Store): Result
    requires i <= |job.Keys()|
  {
    var m := ReadFrom(s, job.Keys(), job.env, i, readings);
    if m.readings.None? then Result(m.changes, false, None)
    else AfterReading(job, m.readings.value, m.changes, s)
  }

  ghost function AfterReading(job: Job, readings: Readings, done: seq<Change>, s: Store): Result {
    var limits := LimitsFor(Powers(readings), job.spec.powerCapLimit);
    if limits.Raised? then Result(done, false, None)
    else WriteOutlook(job, Plan(limits.value, 1, Some(readings)), 0, done, s)
  }

  ghost function WriteOutlook(job: Job, plan: Plan, i: nat, done: seq<Change>, s: Store): Result
    requires i <= |job.Keys()|
  {
    var w := WriteFrom(s, job.Keys(), plan.limits, plan.default, job.env.writeScript, i);
    if w.completed then
      var end := Finish(job, plan, done + w.changes); Result(end.done, end.completed, end.published)
    else Result(done + w.changes, false, None)
  }

  /** The loops have not gone past their last reference. */
  predicate InBounds(job: Job, phase: Phase) {
    match phase
    case Fetching(i, _) => i <= |job.Keys()|
    case Asking(i, _, _) => i < |job.Keys()|
    case Querying(i, _, _) => i < |job.Keys()|
    case Getting(_, i, _) => i <= |job.Keys()|
    case Patching(_, i, _, _) => i < |job.Keys()|
    case Ended(_, _, _) => true
  }

  /** What a handler has in hand in the middle of an iteration is still what the store holds. */
  ghost predicate UpToDate(job: Job, phase: Phase, s: Store)
    requires InBounds(job, phase)
  {
    match phase
    case Asking(i, _, target) => TargetAt(job.Keys()[i], target, s)
    case Querying(i, _, target) => TargetAt(job.Keys()[i], target, s)
    case Patching(_, i, _, held) => job.Keys()[i].Some? && ObjectAt(s, job.Keys()[i].value) == Some(held)
    case _ => true
  }

  ghost predicate TargetAt(key: Option<ObjectKey>, target: string, s: Store) {
    key.Some? && key.value in s && s[key.value].target == target
  }

  lemma OutlookAtStart(job: Job, s: Store)
    requires UndisturbedEnv(job.env)
    ensures InBounds(job, FirstPhase(job)) && UpToDate(job, FirstPhase(job), s)
    ensures Outlook(job, FirstPhase(job), s) == Alone(job, s)
  {
    if job.handler.OnTimer? {
      ReadsWriteNothing(s, job.Keys(), job.env, 0, map[]);
    } else if ValidSpec(job.spec) {
      var count := InitialMaxReplicas(job.spec.powerCapLimit.value);
      var w := WriteFrom(s, job.Keys(), map[], count, job.env.writeScript, 0);
      assert [] + w.changes == w.changes;
    }
  }

  lemma WriteOutlookIsLocal(job: Job, plan: Plan, i: nat, done: seq<Change>, s: Store, s': Store)
    requires i <= |job.Keys()| && SameTargetsAt(s, s', job.Objects())
    ensures WriteOutlook(job, plan, i, done, s) == WriteOutlook(job, plan, i, done, s')
  {
    WritesIgnoreCounts(s, s', job.Keys(), plan.limits, plan.default, job.env.writeScript, i);
  }

  lemma ReadOutlookIsLocal(job: Job, i: nat, readings: Readings, s: Store, s': Store)
    requires i <= |job.Keys()| && SameTargetsAt(s, s', job.Objects())
    ensures ReadOutlook(job, i, readings, s) == ReadOutlook(job, i, readings, s')
  {
    ReadsIgnoreCounts(s, s', job.Keys(), job.env, i, readings);
    var m := ReadFrom(s, job.Keys(), job.env, i, readings);
    if m.readings.Some? {
      AfterReadingIsLocal(job, m.readings.value, m.changes, s, s');
    }
  }

  lemma AfterReadingIsLocal(job: Job, readings: Readings, done: seq<Change>, s: Store, s': Store)
    requires SameTargetsAt(s, s', job.Objects())
    ensures AfterReading(job, readings, done, s) == AfterReading(job, readings, done, s')
  {
    var limits := LimitsFor(Powers(readings), job.spec.powerCapLimit);
    if limits.Ok? {
      WriteOutlookIsLocal(job, Plan(limits.value, 1, Some(readings)), 0, done, s, s');
    }
  }

  /** The outlook depends on the targets of the handler's own objects only. */
  lemma OutlookIsLocal(job: Job, phase: Phase, s: Store, s': Store)
    requires InBounds(job, phase) && SameTargetsAt(s, s', job.Objects())
    ensures Outlook(job, phase, s) == Outlook(job, phase, s')
  {
    if phase.InReads() {
      ReadOutlookIsLocal(job, phase.i, phase.readings, s, s');
    } else if phase.InWrites() {
      WriteOutlookIsLocal(job, phase.plan, phase.i, phase.done, s, s');
    }
  }

  lemma AloneIsLocal(job: Job, s: Store, s': Store)
    requires UndisturbedEnv(job.env) && SameTargetsAt(s, s', job.Objects())
    ensures Alone(job, s) == Alone(job, s')
  {
    OutlookAtStart(job, s);
    OutlookAtStart(job, s');
    OutlookIsLocal(job, FirstPhase(job), s, s');
  }

  // ---- Every call keeps the outlook ----

  lemma ReadFromStep(job: Job, i: nat, readings: Readings, s: Store)
    requires UndisturbedEnv(job.env) && i < |job.Keys()|
    ensures var key := job.Keys()[i];
            ReadFrom(s, job.Keys(), job.env, i, readings) ==
            if key.None? || key.value !in s || job.ReadRaises(i, s[key.value].target) then Measured(s, [], None)
            else
              var target := s[key.value].target;
              ReadFrom(s, job.Keys(), job.env, i + 1, readings[target := AnswerAt(job.env, i, target).value])
  {
    NoEdits(s);
    var reading := ReadOne(s, job.Keys()[i], job.env, i);
    if reading.Some? {
      var target := s[job.Keys()[i].value].target;
      var rest := ReadFrom(s, job.Keys(), job.env, i + 1, readings[target := reading.value]);
      assert [] + rest.changes == rest.changes;
    }
  }

  /** An iteration of the read loop that raises, at whichever call, and one that does not. */
  lemma ReadOutlookStep(job: Job, i: nat, readings: Readings, s: Store)
    requires UndisturbedEnv(job.env) && i < |job.Keys()|
    ensures var key := job.Keys()[i];
            ReadOutlook(job, i, readings, s) ==
            if key.None? || key.value !in s || job.ReadRaises(i, s[key.value].target) then Result([], false, None)
            else
              var target := s[key.value].target;
              ReadOutlook(job, i + 1, readings[target := AnswerAt(job.env, i, target).value], s)
  {
    ReadFromStep(job, i, readings, s);
  }

  lemma ReadOutlookEnd(job: Job, readings: Readings, s: Store)
    ensures ReadOutlook(job, |job.Keys()|, readings, s) == AfterReading(job, readings, [], s)
  {
  }

  lemma WriteOutlookStep(job: Job, plan: Plan, i: nat, done: seq<Change>, s: Store)
    requires UndisturbedEnv(job.env) && i < |job.Keys()|
    ensures var key := job.Keys()[i];
            WriteOutlook(job, plan, i, done, s) ==
            if key.None? || key.value !in s || job.WriteRaises(i) then Result(done, false, None)
            else
              var patch := PatchOf(key.value, plan, s[key.value]);
              WriteOutlook(job, plan, i + 1, done + [Patched(patch)], SetCount(s, patch.key, patch.maxReplicaCount))
  {
    NoEdits(s);
    var patch := WriteOne(s, job.Keys()[i], plan.limits, plan.default, CallAt(job.env.writeScript, i).succeeds);
    if patch.Some? {
      var s2 := SetCount(s, patch.value.key, patch.value.maxReplicaCount);
      var rest := WriteFrom(s2, job.Keys(), plan.limits, plan.default, job.env.writeScript, i + 1).changes;
      assert done + ([] + [Patched(patch.value)] + rest) == done + [Patched(patch.value)] + rest;
    } else {
      assert done + [] == done;
    }
  }

  lemma WriteOutlookEnd(job: Job, plan: Plan, done: seq<Change>, s: Store)
    ensures var end := Finish(job, plan, done);
            WriteOutlook(job, plan, |job.Keys()|, done, s) == Result(end.done, end.completed, end.published)
  {
    assert done + [] == done;
  }

  lemma FetchKeepsOutlook(job: Job, i: nat, readings: Readings, s: Store)
    requires UndisturbedEnv(job.env) && i < |job.Keys()|
    ensures var phase' := Fetch(job, i, readings, s);
            && InBounds(job, phase') && UpToDate(job, phase', s)
            && Outlook(job, phase', s) == ReadOutlook(job, i, readings, s)
  {
    ReadOutlookStep(job, i, readings, s);
  }

  lemma DecideKeepsOutlook(job: Job, readings: Readings, s: Store)
    ensures var phase' := Decide(job, readings);
            && InBounds(job, phase') && UpToDate(job, phase', s)
            && Outlook(job, phase', s) == ReadOutlook(job, |job.Keys()|, readings, s)
  {
    ReadOutlookEnd(job, readings, s);
  }

  lemma AskingKeepsOutlook(job: Job, phase: Phase, s: Store)
    requires UndisturbedEnv(job.env) && InBounds(job, phase) && UpToDate(job, phase, s)
    requires phase.Asking? || phase.Querying?
    ensures var phase' := NextPhase(job, phase, s);
            && InBounds(job, phase') && UpToDate(job, phase', s)
            && Outlook(job, phase', s) == ReadOutlook(job, phase.i, phase.readings, s)
  {
    ReadOutlookStep(job, phase.i, phase.readings, s);
  }

  lemma ReadCallKeepsOutlook(job: Job, phase: Phase, s: Store)
    requires UndisturbedEnv(job.env) && InBounds(job, phase) && UpToDate(job, phase, s) && phase.InReads()
    ensures var phase' := NextPhase(job, phase, s);
            InBounds(job, phase') && UpToDate(job, phase', s) && Outlook(job, phase', s) == Outlook(job, phase, s)
  {
    if !phase.Fetching? {
      AskingKeepsOutlook(job, phase, s);
    } else if phase.i < |job.Keys()| {
      FetchKeepsOutlook(job, phase.i, phase.readings, s);
    } else {
      DecideKeepsOutlook(job, phase.readings, s);
    }
  }

  /** The patch that goes through is the one of the specification: the object has not changed since it was got. */
  lemma PatchIsSetCount(job: Job, plan: Plan, i: nat, held: ScaledObject, s: Store)
    requires PatchGoes(job, i, held, s)
    ensures var patch := PatchOf(job.Keys()[i].value, plan, held);
            && patch == PatchOf(job.Keys()[i].value, plan, s[job.Keys()[i].value])
            && s[patch.key := held.(maxReplicaCount := patch.maxReplicaCount)]
               == SetCount(s, patch.key, patch.maxReplicaCount)
  {
  }

  lemma PatchCallKeepsOutlook(job: Job, plan: Plan, i: nat, done: seq<Change>, held: ScaledObject, s: Store)
    requires var phase := Patching(plan, i, done, held);
             UndisturbedEnv(job.env) && InBounds(job, phase) && UpToDate(job, phase, s)
    ensures var phase := Patching(plan, i, done, held);
            var phase', s' := NextPhase(job, phase, s), NextStore(job, phase, s);
            InBounds(job, phase') && UpToDate(job, phase', s') && Outlook(job, phase', s') == Outlook(job, phase, s)
  {
    WriteOutlookStep(job, plan, i, done, s);
    if PatchGoes(job, i, held, s) {
      PatchIsSetCount(job, plan, i, held, s);
    }
  }

  lemma WriteCallKeepsOutlook(job: Job, phase: Phase, s: Store)
    requires UndisturbedEnv(job.env) && InBounds(job, phase) && UpToDate(job, phase, s) && phase.InWrites()
    ensures var phase', s' := NextPhase(job, phase, s), NextStore(job, phase, s);
            InBounds(job, phase') && UpToDate(job, phase', s') && Outlook(job, phase', s') == Outlook(job, phase, s)
  {
    if phase.Patching? {
      PatchCallKeepsOutlook(job, phase.plan, phase.i, phase.done, phase.held, s);
    } else if phase.i < |job.Keys()| {
      WriteOutlookStep(job, phase.plan, phase.i, phase.done, s);
    } else {
      WriteOutlookEnd(job, phase.plan, phase.done, s);
    }
  }

  /** A handler taken one API call at a time is heading for its result alone, before and after every call. */
  lemma CallKeepsOutlook(job: Job, phase: Phase, s: Store)
    requires UndisturbedEnv(job.env) && InBounds(job, phase) && UpToDate(job, phase, s)
    ensures var phase', s' := NextPhase(job, phase, s), NextStore(job, phase, s);
            InBounds(job, phase') && UpToDate(job, phase', s') && Outlook(job, phase', s') == Outlook(job, phase, s)
  {
    if phase.InReads() {
      ReadCallKeepsOutlook(job, phase, s);
    } else if phase.InWrites() {
      WriteCallKeepsOutlook(job, phase, s);
    }
  }

  // ---- What every turn keeps ----

  /** A call of a handler adds at most one patch, of an object of its own, and changes the store accordingly. */
  lemma CallPatchesOwn(job: Job, phase: Phase, s: Store)
    ensures var done, done' := Done(phase), Done(NextPhase(job, phase, s));
            || (done' == done && NextStore(job, phase, s) == s)
            || exists patch: Patch ::
                 && patch.key in job.Objects() && done' == done + [Patched(patch)]
                 && NextStore(job, phase, s) == SetCount(s, patch.key, patch.maxReplicaCount)
  {
    if phase.Patching? && PatchGoes(job, phase.i, phase.held, s) {
      assert PatchOf(job.Keys()[phase.i].value, phase.plan, phase.held).key in job.Objects();
    }
  }

  /** The objects of handler `j` are as its own patches left them. */
  ghost predicate OwnObjects(s0: Store, s: State, j: nat, keys: set<ObjectKey>)
    requires j in s.phases
  {
    forall k :: k in keys ==> ObjectAt(s.store, k) == ObjectAt(ApplyChanges(s0, Done(s.phases[j])), k)
  }

  /** Each handler is on its way to what it would do alone, and has patched its own objects only. */
  ghost predicate JobInv(s0: Store, job: Job, s: State, j: nat)
    requires j in s.phases
  {
    && InBounds(job, s.phases[j]) && UpToDate(job, s.phases[j], s.store)
    && Outlook(job, s.phases[j], s.store) == Alone(job, s0)
    && PatchesOf(Done(s.phases[j]), job.Objects())
    && OwnObjects(s0, s, j, job.Objects())
  }

  /** A handler that has ended has its result alone. */
  lemma EndedIsAlone(s0: Store, job: Job, s: State, j: nat)
    requires j in s.phases && JobInv(s0, job, s, j) && s.phases[j].Ended?
    ensures s.phases[j] == Ended(Alone(job, s0).changes, Alone(job, s0).completed, Alone(job, s0).published)
  {
  }

  /** An object of no config. */
  ghost predicate Foreign(jobs: map<nat, Job>, k: ObjectKey) {
    forall j :: j in jobs ==> k !in jobs[j].Objects()
  }

  ghost predicate Inv(s0: Store, jobs: map<nat, Job>, s: State) {
    && s.phases.Keys == jobs.Keys
    && (forall j :: j in jobs ==> JobInv(s0, jobs[j], s, j))
    && (forall k :: Foreign(jobs, k) ==> ObjectAt(s.store, k) == ObjectAt(ApplyChanges(s0, s.edited), k))
    && (forall c, k :: c in s.edited && Touches(c, k) ==> Foreign(jobs, k))
  }

  lemma StartInv(s0: Store, jobs: map<nat, Job>)
    requires Apart(jobs)
    ensures Inv(s0, jobs, Start(s0, jobs))
  {
    forall j | j in jobs ensures JobInv(s0, jobs[j], Start(s0, jobs), j) {
      OutlookAtStart(jobs[j], s0);
    }
  }

  lemma OnePatchMore(s0: Store, s: Store, done: seq<Change>, patch: Patch, keys: set<ObjectKey>)
    requires forall k :: k in keys ==> ObjectAt(s, k) == ObjectAt(ApplyChanges(s0, done), k)
    ensures forall k :: k in keys ==> ObjectAt(SetCount(s, patch.key, patch.maxReplicaCount), k)
                                      == ObjectAt(ApplyChanges(s0, done + [Patched(patch)]), k)
  {
    ApplyAppended(s0, done, [Patched(patch)]);
    AppliedOne(ApplyChanges(s0, done), Patched(patch));
    forall k | k in keys
      ensures ObjectAt(SetCount(s, patch.key, patch.maxReplicaCount), k)
              == ObjectAt(ApplyChanges(s0, done + [Patched(patch)]), k)
    {
      ChangeAt(s, Patched(patch), k);
      ChangeAt(ApplyChanges(s0, done), Patched(patch), k);
    }
  }

  /** The handler whose turn it is keeps its objects in step with its patches, and touches no others. */
  lemma CallKeepsOwnObjects(s0: Store, jobs: map<nat, Job>, s: State, j: nat)
    requires CanTake(jobs, s, Proceed(j)) && PatchesOf(Done(s.phases[j]), jobs[j].Objects())
    requires OwnObjects(s0, s, j, jobs[j].Objects())
    ensures var s' := Take(jobs, s, Proceed(j));
            && PatchesOf(Done(s'.phases[j]), jobs[j].Objects()) && OwnObjects(s0, s', j, jobs[j].Objects())
            && forall k :: k !in jobs[j].Objects() ==> ObjectAt(s'.store, k) == ObjectAt(s.store, k)
  {
    var job, phase, s' := jobs[j], s.phases[j], Take(jobs, s, Proceed(j));
    CallPatchesOwn(job, phase, s.store);
    if !(Done(s'.phases[j]) == Done(phase) && s'.store == s.store) {
      var patch: Patch :| patch.key in job.Objects() && Done(s'.phases[j]) == Done(phase) + [Patched(patch)]
                          && s'.store == SetCount(s.store, patch.key, patch.maxReplicaCount);
      OnePatchMore(s0, s.store, Done(phase), patch, job.Objects());
    }
  }

  /** A handler whose turn it is not keeps its part: none of its objects has changed. */
  lemma OthersKeepJob(s0: Store, job: Job, s: State, s': State, j: nat)
    requires j in s.phases && j in s'.phases && s'.phases[j] == s.phases[j]
    requires forall k :: k in job.Objects() ==> ObjectAt(s'.store, k) == ObjectAt(s.store, k)
    requires JobInv(s0, job, s, j)
    ensures JobInv(s0, job, s', j)
  {
    assert SameTargetsAt(s.store, s'.store, job.Objects()) by {
      forall k | k in job.Objects() ensures ObjectAt(s'.store, k) == ObjectAt(s.store, k) {}
    }
    OutlookIsLocal(job, s.phases[j], s.store, s'.store);
    OwnKeyIsObject(job, s.phases[j]);
  }

  lemma OwnKeyIsObject(job: Job, phase: Phase)
    requires InBounds(job, phase)
    ensures !phase.Ended? && phase.i < |job.Keys()| && job.Keys()[phase.i].Some? ==>
              job.Keys()[phase.i].value in job.Objects()
  {
  }

  lemma CallKeepsInv(s0: Store, jobs: map<nat, Job>, s: State, j: nat)
    requires Apart(jobs) && Inv(s0, jobs, s) && CanTake(jobs, s, Proceed(j))
    ensures Inv(s0, jobs, Take(jobs, s, Proceed(j)))
  {
    var s' := Take(jobs, s, Proceed(j));
    CallKeepsOutlook(jobs[j], s.phases[j], s.store);
    CallKeepsOwnObjects(s0, jobs, s, j);
    forall j' | j' in jobs && j' != j ensures JobInv(s0, jobs[j'], s', j') {
      assert jobs[j].Objects() !! jobs[j'].Objects();
      OthersKeepJob(s0, jobs[j'], s, s', j');
    }
  }

  lemma EditsReachForeign(s0: Store, s: Store, edited: seq<Change>, edits: Edits, jobs: map<nat, Job>)
    requires forall k :: Foreign(jobs, k) ==> ObjectAt(s, k) == ObjectAt(ApplyChanges(s0, edited), k)
    ensures forall k :: Foreign(jobs, k) ==>
              ObjectAt(Interfere(s, edits), k) == ObjectAt(ApplyChanges(s0, edited + [Edited(edits)]), k)
  {
    ApplyAppended(s0, edited, [Edited(edits)]);
    AppliedOne(ApplyChanges(s0, edited), Edited(edits));
  }

  lemma EditsKeepInv(s0: Store, jobs: map<nat, Job>, s: State, edits: Edits)
    requires Apart(jobs) && Inv(s0, jobs, s) && CanTake(jobs, s, Others(edits))
    ensures Inv(s0, jobs, Take(jobs, s, Others(edits)))
  {
    var s' := Take(jobs, s, Others(edits));
    EditsReachForeign(s0, s.store, s.edited, edits, jobs);
    forall j | j in jobs ensures JobInv(s0, jobs[j], s', j) {
      OthersKeepJob(s0, jobs[j], s, s', j);
    }
  }

  lemma {:induction false} ScheduleKeepsInv(s0: Store, jobs: map<nat, Job>, s: State, schedule: seq<Turn>, s': State)
    requires Apart(jobs) && Inv(s0, jobs, s) && Leads(jobs, s, schedule, s')
    ensures Inv(s0, jobs, s')
    decreases |schedule|
  {
    if schedule != [] {
      match schedule[0] {
        case Proceed(j) => CallKeepsInv(s0, jobs, s, j);
        case Others(edits) => EditsKeepInv(s0, jobs, s, edits);
      }
      ScheduleKeepsInv(s0, jobs, Take(jobs, s, schedule[0]), schedule[1..], s');
    }
  }

  /** What the others do in a schedule. */
  function EditsTaken(schedule: seq<Turn>): seq<Change> {
    if schedule == [] then []
    else (if schedule[0].Others? then [Edited(schedule[0].edits)] else []) + EditsTaken(schedule[1..])
  }

  lemma TakenFirst(jobs: map<nat, Job>, s: State, turn: Turn, rest: seq<Change>)
    requires CanTake(jobs, s, turn)
    ensures Take(jobs, s, turn).edited + rest == s.edited + ((if turn.Others? then [Edited(turn.edits)] else []) + rest)
  {
  }

  lemma {:induction false} EditsAreTaken(jobs: map<nat, Job>, s: State, schedule: seq<Turn>, s': State)
    requires Leads(jobs, s, schedule, s')
    ensures s'.edited == s.edited + EditsTaken(schedule)
    decreases |schedule|
  {
    if schedule != [] {
      TakenFirst(jobs, s, schedule[0], EditsTaken(schedule[1..]));
      EditsAreTaken(jobs, Take(jobs, s, schedule[0]), schedule[1..], s');
    }
  }

  lemma EditedIsTaken(s0: Store, jobs: map<nat, Job>, schedule: seq<Turn>, s: State)
    requires Leads(jobs, Start(s0, jobs), schedule, s)
    ensures s.edited == EditsTaken(schedule)
  {
    EditsAreTaken(jobs, Start(s0, jobs), schedule, s);
    assert [] + EditsTaken(schedule) == EditsTaken(schedule);
  }

  /**
    Isolation of concurrent handlers. However the API calls of any number of timer and create handlers of
    different configs interleave, with each other and with other clients' edits of other objects: each handler
    that has ended has made the patches and the publication that it would have made alone on the store at the
    start, its objects are as it would have left them, and all other objects are as the other clients left them.
  */
  lemma InterleavedHandlersAreIsolated(s0: Store, jobs: map<nat, Job>, schedule: seq<Turn>, s: State, j: nat,
                                       k: ObjectKey)
    requires Apart(jobs) && Leads(jobs, Start(s0, jobs), schedule, s)
    requires j in jobs && j in s.phases && s.phases[j].Ended?
    ensures var alone := Alone(jobs[j], s0);
            && s.phases[j] == Ended(alone.changes, alone.completed, alone.published)
            && (k in jobs[j].Objects() ==> ObjectAt(s.store, k) == ObjectAt(StoreAlone(jobs[j], s0), k))
    ensures Foreign(jobs, k) ==> ObjectAt(s.store, k) == ObjectAt(ApplyChanges(s0, EditsTaken(schedule)), k)
  {
    EditedIsTaken(s0, jobs, schedule, s);
    StartInv(s0, jobs);
    ScheduleKeepsInv(s0, jobs, Start(s0, jobs), schedule, s);
    EndedIsAlone(s0, jobs[j], s, j);
    AloneIsItsPatches(jobs[j], s0);
    assert OwnObjects(s0, s, j, jobs[j].Objects());
  }

  // ---- Handlers come to an end ----

  /** The calls a handler can still make. */
  function CallsLeft(job: Job, phase: Phase): nat
    requires InBounds(job, phase)
  {
    var n := |job.Keys()|;
    match phase
    case Fetching(i, _) => 2 * n + 2 + 3 * (n - i)
    case Asking(i, _, _) => 2 * n + 1 + 3 * (n - i)
    case Querying(i, _, _) => 2 * n + 3 * (n - i)
    case Getting(_, i, _) => 2 * (n - i) + 1
    case Patching(_, i, _, _) => 2 * (n - i)
    case Ended(_, _, _) => 0
  }

  lemma CallIsUsedUp(job: Job, phase: Phase, s: Store)
    requires InBounds(job, phase) && !phase.Ended?
    ensures InBounds(job, NextPhase(job, phase, s)) && CallsLeft(job, NextPhase(job, phase, s)) < CallsLeft(job, phase)
  {
  }

  function TurnsOf(schedule: seq<Turn>, j: nat): nat {
    if schedule == [] then 0 else (if schedule[0] == Proceed(j) then 1 else 0) + TurnsOf(schedule[1..], j)
  }

  lemma {:induction false} TurnsAreUsedUp(jobs: map<nat, Job>, s: State, schedule: seq<Turn>, s': State, j: nat)
    requires Leads(jobs, s, schedule, s') && j in jobs && j in s.phases && InBounds(jobs[j], s.phases[j])
    ensures j in s'.phases && InBounds(jobs[j], s'.phases[j])
    ensures s'.phases[j].Ended?
            || CallsLeft(jobs[j], s'.phases[j]) + TurnsOf(schedule, j) <= CallsLeft(jobs[j], s.phases[j])
    decreases |schedule|
  {
    if schedule != [] {
      var s1 := Take(jobs, s, schedule[0]);
      if schedule[0] == Proceed(j) && !s.phases[j].Ended? {
        CallIsUsedUp(jobs[j], s.phases[j], s.store);
      }
      TurnsAreUsedUp(jobs, s1, schedule[1..], s', j);
    }
  }

  /** A handler that is given five turns for each reference and three more has ended. */
  lemma EnoughTurnsEnd(s0: Store, jobs: map<nat, Job>, schedule: seq<Turn>, s: State, j: nat)
    requires Leads(jobs, Start(s0, jobs), schedule, s) && j in jobs
    requires TurnsOf(schedule, j) >= 5 * |jobs[j].Keys()| + 3
    ensures j in s.phases && s.phases[j].Ended?
  {
    TurnsAreUsedUp(jobs, Start(s0, jobs), schedule, s, j);
  }

  // ---- One after the other ----

  lemma SameObjectsSameTargets(s: Store, s': Store, keys: set<ObjectKey>)
    requires forall k :: k in keys ==> ObjectAt(s, k) == ObjectAt(s', k)
    ensures SameTargetsAt(s, s', keys)
  {
    forall k | k in keys ensures (k in s <==> k in s') && (k in s ==> s[k].target == s'[k].target) {
      assert ObjectAt(s, k) == ObjectAt(s', k);
    }
  }

  /** From a store that has its objects as they were, a handler makes the same patches. */
  lemma AloneElsewhere(job: Job, s: Store, s': Store)
    requires UndisturbedEnv(job.env) && forall k :: k in job.Objects() ==> ObjectAt(s, k) == ObjectAt(s', k)
    ensures StoreAlone(job, s') == ApplyChanges(s', Alone(job, s).changes)
  {
    SameObjectsSameTargets(s, s', job.Objects());
    AloneIsLocal(job, s, s');
    AloneIsItsPatches(job, s');
  }

  /** Two handlers one after the other, from a store with their objects as they were. */
  lemma AloneInTurn(a: Job, b: Job, s0: Store, s1: Store)
    requires UndisturbedEnv(a.env) && UndisturbedEnv(b.env) && a.Objects() !! b.Objects()
    requires forall k :: k in a.Objects() || k in b.Objects() ==> ObjectAt(s0, k) == ObjectAt(s1, k)
    ensures StoreAlone(b, StoreAlone(a, s1))
            == ApplyChanges(ApplyChanges(s1, Alone(a, s0).changes), Alone(b, s0).changes)
  {
    var pa := Alone(a, s0).changes;
    AloneIsItsPatches(a, s0);
    AloneElsewhere(a, s0, s1);
    forall k | k in b.Objects() ensures ObjectAt(s0, k) == ObjectAt(ApplyChanges(s1, pa), k) {
      UntouchedObject(s1, pa, k);
    }
    AloneElsewhere(b, s0, ApplyChanges(s1, pa));
  }

  /** Patches of disjoint objects, applied in turn: each object shows its owner's patches alone. */
  lemma OwnedByOne(s0: Store, s1: Store, pa: seq<Change>, pb: seq<Change>, ka: set<ObjectKey>, kb: set<ObjectKey>,
                   k: ObjectKey)
    requires ka !! kb && PatchesOf(pa, ka) && PatchesOf(pb, kb)
    requires k in ka || k in kb ==> ObjectAt(s0, k) == ObjectAt(s1, k)
    ensures ObjectAt(ApplyChanges(ApplyChanges(s1, pa), pb), k) ==
            if k in ka then ObjectAt(ApplyChanges(s0, pa), k)
            else if k in kb then ObjectAt(ApplyChanges(s0, pb), k)
            else ObjectAt(s1, k)
  {
    if k !in kb { UntouchedObject(ApplyChanges(s1, pa), pb, k); }
    if k !in ka { UntouchedObject(s1, pa, k); }
    if k in ka { AppliedAlike(s0, s1, pa, k); }
    if k in kb { AppliedAlike(s0, ApplyChanges(s1, pa), pb, k); }
  }

  /** The others have not touched the objects of the configs. */
  lemma OwnObjectsUnedited(s0: Store, jobs: map<nat, Job>, s: State, j: nat)
    requires Inv(s0, jobs, s) && j in jobs
    ensures forall k :: k in jobs[j].Objects() ==> ObjectAt(s0, k) == ObjectAt(ApplyChanges(s0, s.edited), k)
  {
    forall k | k in jobs[j].Objects() ensures ObjectAt(s0, k) == ObjectAt(ApplyChanges(s0, s.edited), k) {
      UntouchedObject(s0, s.edited, k);
    }
  }

  /** Each object shows the patches of its owner, or the edits of the others. */
  lemma TwoHandlersLeave(s0: Store, s: State, a: nat, b: nat, ka: set<ObjectKey>, kb: set<ObjectKey>, s1: Store)
    requires a in s.phases && b in s.phases && ka !! kb
    requires OwnObjects(s0, s, a, ka) && PatchesOf(Done(s.phases[a]), ka)
    requires OwnObjects(s0, s, b, kb) && PatchesOf(Done(s.phases[b]), kb)
    requires forall k :: k in ka || k in kb ==> ObjectAt(s0, k) == ObjectAt(s1, k)
    requires forall k :: k !in ka && k !in kb ==> ObjectAt(s.store, k) == ObjectAt(s1, k)
    ensures s.store == ApplyChanges(ApplyChanges(s1, Done(s.phases[a])), Done(s.phases[b]))
  {
    var both := ApplyChanges(ApplyChanges(s1, Done(s.phases[a])), Done(s.phases[b]));
    forall k ensures ObjectAt(s.store, k) == ObjectAt(both, k) {
      OwnedByOne(s0, s1, Done(s.phases[a]), Done(s.phases[b]), ka, kb, k);
    }
    SameObjects(s.store, both);
  }

  lemma PairLeaves(s0: Store, jobs: map<nat, Job>, s: State, a: nat, b: nat)
    requires Apart(jobs) && jobs.Keys == {a, b} && a != b && Inv(s0, jobs, s)
    ensures s.store == ApplyChanges(ApplyChanges(ApplyChanges(s0, s.edited), Done(s.phases[a])), Done(s.phases[b]))
  {
    OwnObjectsUnedited(s0, jobs, s, a);
    OwnObjectsUnedited(s0, jobs, s, b);
    assert forall k :: k !in jobs[a].Objects() && k !in jobs[b].Objects() ==> Foreign(jobs, k);
    TwoHandlersLeave(s0, s, a, b, jobs[a].Objects(), jobs[b].Objects(), ApplyChanges(s0, s.edited));
  }

  lemma PairInTurn(s0: Store, jobs: map<nat, Job>, s: State, a: nat, b: nat)
    requires Apart(jobs) && jobs.Keys == {a, b} && a != b && Inv(s0, jobs, s)
    ensures var s1 := ApplyChanges(s0, s.edited);
            StoreAlone(jobs[b], StoreAlone(jobs[a], s1))
            == ApplyChanges(ApplyChanges(s1, Alone(jobs[a], s0).changes), Alone(jobs[b], s0).changes)
  {
    OwnObjectsUnedited(s0, jobs, s, a);
    OwnObjectsUnedited(s0, jobs, s, b);
    AloneInTurn(jobs[a], jobs[b], s0, ApplyChanges(s0, s.edited));
  }

  lemma EndedPairIsSequential(s0: Store, jobs: map<nat, Job>, s: State, a: nat, b: nat)
    requires Apart(jobs) && jobs.Keys == {a, b} && a != b && Inv(s0, jobs, s)
    requires s.phases[a].Ended? && s.phases[b].Ended?
    ensures s.store == StoreAlone(jobs[b], StoreAlone(jobs[a], ApplyChanges(s0, s.edited)))
  {
    EndedIsAlone(s0, jobs[a], s, a);
    EndedIsAlone(s0, jobs[b], s, b);
    PairLeaves(s0, jobs, s, a, b);
    PairInTurn(s0, jobs, s, a, b);
  }

  /** So two concurrent handlers leave what they leave one after the other, after the edits of the others. */
  lemma {:induction false} InterleavedIsSequential(s0: Store, jobs: map<nat, Job>, schedule: seq<Turn>, s: State,
                                                   a: nat, b: nat)
    requires Apart(jobs) && jobs.Keys == {a, b} && a != b && Leads(jobs, Start(s0, jobs), schedule, s)
    requires a in s.phases && b in s.phases && s.phases[a].Ended? && s.phases[b].Ended?
    ensures s.store == StoreAlone(jobs[b], StoreAlone(jobs[a], ApplyChanges(s0, EditsTaken(schedule))))
  {
    StartInv(s0, jobs);
    ScheduleKeepsInv(s0, jobs, Start(s0, jobs), schedule, s);
    EndedPairIsSequential(s0, jobs, s, a, b);
    EditedIsTaken(s0, jobs, schedule, s);
  }
}
