/** The GitOps adapter's in-memory store: internal/alert/adapters/git_ops.go. */
module GitOpsAlert {
  import opened Text
  import opened Decimals
  import opened PubSub
  import opened LastEntries
  import opened PromAlert

  /** filepath.Join(repoDir, "alerts") for a repository directory that is a clean path, or none. */
  function AlertsDir(repoDir: string): string {
    if repoDir == "" || repoDir == "." then "alerts"
    else if repoDir == "/" then "/alerts"
    else repoDir + "/alerts"
  }

  /**
    filepath.Join(repoDir, "alerts", podName + "-alert.yaml"), `alertsDir` being the first two. Pod names have no
    '/', so the file name is one path element and Join's cleaning leaves it alone.
  */
  function AlertFile(alertsDir: string, podName: string): string {
    alertsDir + "/" + podName + "-alert.yaml"
  }

  /** The file of a pod's alert, for each kind of repository directory. */
  lemma AlertPath(repoDir: string, podName: string)
    ensures AlertFile(AlertsDir(repoDir), podName) ==
            if repoDir == "" || repoDir == "." then "alerts/" + podName + "-alert.yaml"
            else if repoDir == "/" then "/alerts/" + podName + "-alert.yaml"
            else repoDir + "/alerts/" + podName + "-alert.yaml"
  {
    assert "alerts" + "/" == "alerts/" && "/alerts" + "/" == "/alerts/";
    PathGroups(repoDir, "/alerts", "/", podName);
  }

  lemma PathGroups(repoDir: string, alerts: string, slash: string, podName: string)
    ensures repoDir + alerts + slash + podName == repoDir + (alerts + slash) + podName
  {
  }

  /** The lines of the device list, for one iteration order of the map. */
  function DeviceLines(order: seq<string>, devices: map<string, string>): (lines: seq<string>)
    requires forall k :: k in order ==> k in devices
    ensures |lines| == |order|
  {
    seq(|order|, i requires 0 <= i < |order| => order[i] + ": " + devices[order[i]])
  }

  // The fixed parts of the message.
  const HEAD := "\n\t\tapiVersion: climatik.io/v1\n\t\tkind: PowerAlert\n\t\tmetadata:\n\t\tname: "
  const NAME_END := "-alert"
  const STAMP := "\t\tcreationTimestamp: "
  const AFTER_STAMP := "\n\t\tspec:\n\t\tpodName: "
  const AFTER_POD := "\n\t\tpowerCapValue: "
  const AFTER_CAP := "\n\t\tdevices: "
  const END := "\n\t"

  /** The text of an alert: it depends on the time and on the iteration order of the device map. */
  function AlertText(message: Message, stamp: string, order: seq<string>): string
    requires forall k :: k in order ==> k in message.devices
  {
    Template(message.podName, stamp, Decimal(message.powerCapValue),
             Join(DeviceLines(order, message.devices), "\n    "))
  }

  function Template(podName: string, stamp: string, cap: string, devices: string): string {
    HEAD + podName + NAME_END + "\n" + STAMP + stamp
    + AFTER_STAMP + podName + AFTER_POD + cap + AFTER_CAP + devices + END
  }

  /** The template in full. */
  lemma TemplateInFull(podName: string, stamp: string, cap: string, devices: string)
    ensures Template(podName, stamp, cap, devices)
            == "\n\t\tapiVersion: climatik.io/v1\n\t\tkind: PowerAlert\n\t\tmetadata:\n\t\tname: " + podName
               + "-alert" + "\n" + "\t\tcreationTimestamp: " + stamp + "\n\t\tspec:\n\t\tpodName: " + podName
               + "\n\t\tpowerCapValue: " + cap + "\n\t\tdevices: " + devices + "\n\t"
  {
  }

  /** One CreateAlert call, with the time and the order it happened to see. */
  datatype Write = Write(message: Message, stamp: string, order: seq<string>) {
    ghost predicate Valid() {
      IsOrder(order, message.devices.Keys) && forall k :: k in order ==> k in message.devices
    }
  }

  ghost predicate AllValid(writes: seq<Write>) {
    forall w :: w in writes ==> w.Valid()
  }

  /** The assignment to the store that each call makes. */
  ghost function Files(alertsDir: string, writes: seq<Write>): (files: seq<Entry<string, string>>)
    requires AllValid(writes)
    ensures |files| == |writes|
  {
    seq(|writes|, i requires 0 <= i < |writes| => FileOf(alertsDir, writes[i]))
  }

  ghost function FileOf(alertsDir: string, w: Write): (file: Entry<string, string>)
    requires w.Valid()
  {
    Entry(AlertFile(alertsDir, w.message.podName), AlertText(w.message, w.stamp, w.order))
  }

  /** The store after some calls, each one atomic. */
  ghost function StoreAfter(alertsDir: string, writes: seq<Write>): map<string, string>
    requires AllValid(writes)
  {
    Latest(Files(alertsDir, writes))
  }

  lemma OneMoreWrite(alertsDir: string, writes: seq<Write>, w: Write)
    requires AllValid(writes) && w.Valid()
    ensures AllValid(writes + [w])
    ensures StoreAfter(alertsDir, writes + [w])
            == StoreAfter(alertsDir, writes)[AlertFile(alertsDir, w.message.podName) := FileOf(alertsDir, w).value]
  {
    assert Files(alertsDir, writes + [w]) == Files(alertsDir, writes) + [FileOf(alertsDir, w)];
    LatestAppend(Files(alertsDir, writes), FileOf(alertsDir, w));
  }

  class GitOpsAlertManager {
    const alertsDir: string
    var alerts: map<string, string>

    constructor (repoDir: string)
      ensures alertsDir == AlertsDir(repoDir) && alerts == map[]
    {
      alertsDir := AlertsDir(repoDir);
      alerts := map[];
    }

    /** The loop of formatAlertMessage: the lines in whatever order it meets the devices. */
    static method ListDevices(devices: map<string, string>) returns (lines: seq<string>, order: seq<string>)
      ensures IsOrder(order, devices.Keys) && forall k :: k in order ==> k in devices
      ensures lines == DeviceLines(order, devices)
    {
      lines, order := [], [];
      var todo := devices.Keys;
      while todo != {}
        invariant todo <= devices.Keys
        invariant multiset(order) == multiset(devices.Keys - todo)
        invariant forall k :: k in order ==> k in devices
        invariant lines == DeviceLines(order, devices)
        decreases todo
      {
        var device :| device in todo;
        OneMoreVisited(devices.Keys, todo, order, device);
        lines := lines + [device + ": " + devices[device]];
        order := order + [device];
        todo := todo - {device};
      }
      assert devices.Keys - {} == devices.Keys;
    }

    /** formatAlertMessage */
    method FormatAlertMessage(message: Message, stamp: string) returns (text: string, order: seq<string>)
      ensures Write(message, stamp, order).Valid()
      ensures text == AlertText(message, stamp, order)
    {
      var lines;
      lines, order := ListDevices(message.devices);
      text := HEAD + message.podName + NAME_END + "\n" + STAMP + stamp + AFTER_STAMP + message.podName
              + AFTER_POD + Decimal(message.powerCapValue) + AFTER_CAP + Join(lines, "\n    ") + END;
    }

    /** CreateAlert: the pod's file now holds this alert, and every other file what it held. */
    method CreateAlert(message: Message, stamp: string) returns (order: seq<string>)
      modifies this
      ensures Write(message, stamp, order).Valid()
      ensures alerts == old(alerts)[AlertFile(alertsDir, message.podName) := AlertText(message, stamp, order)]
      ensures forall writes :: AllValid(writes) && old(alerts) == StoreAfter(alertsDir, writes) ==>
                AllValid(writes + [Write(message, stamp, order)])
                && alerts == StoreAfter(alertsDir, writes + [Write(message, stamp, order)])
    {
      var text;
      text, order := FormatAlertMessage(message, stamp);
      alerts := alerts[AlertFile(alertsDir, message.podName) := text];
      forall writes | AllValid(writes) && old(alerts) == StoreAfter(alertsDir, writes)
        ensures AllValid(writes + [Write(message, stamp, order)])
        ensures alerts == StoreAfter(alertsDir, writes + [Write(message, stamp, order)])
      {
        OneMoreWrite(alertsDir, writes, Write(message, stamp, order));
      }
    }
  }

  /** Two pods share a file only if they have the same name. */
  lemma FilesAreDistinct(alertsDir: string, pod: string, pod': string)
    requires AlertFile(alertsDir, pod) == AlertFile(alertsDir, pod')
    ensures pod == pod'
  {
    var file, file' := AlertFile(alertsDir, pod), AlertFile(alertsDir, pod');
    var start := |alertsDir| + 1;
    assert pod == file[start..start + |pod|];
    assert pod' == file'[start..start + |pod'|];
  }

  /** The store after any calls in any order: its files are exactly those of the pods alerted. */
  lemma StoreFiles(alertsDir: string, writes: seq<Write>, file: string)
    requires AllValid(writes)
    ensures file in StoreAfter(alertsDir, writes) <==>
            exists w :: w in writes && file == AlertFile(alertsDir, w.message.podName)
  {
    var files := Files(alertsDir, writes);
    LatestIsSet(files, file);
    if i :| 0 <= i < |files| && files[i].key == file {
      assert writes[i] in writes;
    }
    if w :| w in writes && file == AlertFile(alertsDir, w.message.podName) {
      var i :| 0 <= i < |writes| && writes[i] == w;
      assert files[i].key == file;
    }
  }

  /** `file` is in the store and holds the alert of `w`. */
  ghost predicate Holds(store: map<string, string>, file: string, w: Write)
    requires w.Valid()
  {
    file in store && store[file] == AlertText(w.message, w.stamp, w.order)
  }

  /** Each file holds the last alert of its own pod. */
  lemma StoreHoldsLast(alertsDir: string, writes: seq<Write>, i: nat)
    requires AllValid(writes) && i < |writes|
    requires forall j :: i < j < |writes| ==> writes[j].message.podName != writes[i].message.podName
    ensures writes[i] in writes
    ensures Holds(StoreAfter(alertsDir, writes), AlertFile(alertsDir, writes[i].message.podName), writes[i])
  {
    var files := Files(alertsDir, writes);
    forall j | i < j < |files| ensures files[j].key != files[i].key {
      if files[j].key == files[i].key {
        FilesAreDistinct(alertsDir, writes[j].message.podName, writes[i].message.podName);
      }
    }
    LatestHoldsLast(files, i);
  }

  /** So every file of the store holds a message of one of its own pod's alerts. */
  lemma StoreHoldsOwn(alertsDir: string, writes: seq<Write>, file: string) returns (i: nat)
    requires AllValid(writes) && file in StoreAfter(alertsDir, writes)
    ensures i < |writes| && writes[i] in writes && file == AlertFile(alertsDir, writes[i].message.podName)
    ensures Holds(StoreAfter(alertsDir, writes), file, writes[i])
    ensures forall j :: i < j < |writes| ==> writes[j].message.podName != writes[i].message.podName
  {
    StoreFiles(alertsDir, writes, file);
    var w :| w in writes && file == AlertFile(alertsDir, w.message.podName);
    var some :| 0 <= some < |writes| && writes[some] == w;
    i := LastOfPod(writes, some);
    StoreHoldsLast(alertsDir, writes, i);
  }

  /** The last call for the pod of call `i`. */
  lemma {:induction false} LastOfPod(writes: seq<Write>, i: nat) returns (last: nat)
    requires i < |writes|
    ensures i <= last < |writes| && writes[last].message.podName == writes[i].message.podName
    ensures forall j :: last < j < |writes| ==> writes[j].message.podName != writes[last].message.podName
    decreases |writes| - i
  {
    if j :| i < j < |writes| && writes[j].message.podName == writes[i].message.podName {
      last := LastOfPod(writes, j);
    } else {
      last := i;
    }
  }
}
