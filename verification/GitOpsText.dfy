/**
  Reading a GitOps message back. The message is a template around the pod's name, the time, the cap and one
  line for each device; ReadInvertsText says exactly when nothing of the alert is lost in it.
*/
module GitOpsText {
  import opened Text
  import opened Decimals
  import opened PubSub
  import opened LastEntries
  import opened PromAlert
  import opened GitOpsAlert

  // ---- One line of a device ----

  /** The line has a colon and a blank at `i`. */
  predicate PairAt(s: string, i: int) {
    0 <= i < |s| - 1 && s[i] == ':' && s[i + 1] == ' '
  }

  ghost predicate HasPair(s: string) {
    exists i :: PairAt(s, i)
  }

  /** The text before the first ": ", or all of it. */
  function KeyOfLine(line: string): string {
    if line == "" || PairAt(line, 0) then "" else [line[0]] + KeyOfLine(line[1..])
  }

  /** The text after the first ": ", or nothing. */
  function ValueOfLine(line: string): string {
    if line == "" then "" else if PairAt(line, 0) then line[2..] else ValueOfLine(line[1..])
  }

  lemma {:induction false} LineIsCut(key: string, value: string)
    requires !HasPair(key)
    ensures KeyOfLine(key + ": " + value) == key
    ensures ValueOfLine(key + ": " + value) == value
  {
    var line := key + ": " + value;
    if key == "" {
      assert PairAt(line, 0) && line[2..] == value;
    } else {
      assert !PairAt(line, 0) by {
        assert !PairAt(key, 0);
      }
      assert line[1..] == key[1..] + ": " + value;
      forall i ensures !PairAt(key[1..], i) { assert !PairAt(key, i + 1); }
      LineIsCut(key[1..], value);
    }
  }

  /** A key that is read off a line holds no pair, and neither part holds a character that the line does not. */
  lemma {:induction false} LinePartsAreClean(line: string, c: char)
    ensures !HasPair(KeyOfLine(line))
    ensures c !in line ==> c !in KeyOfLine(line) && c !in ValueOfLine(line)
  {
    if line != "" && !PairAt(line, 0) {
      var rest := KeyOfLine(line[1..]);
      LinePartsAreClean(line[1..], c);
      FirstOfKey(line[1..]);
      forall i ensures !PairAt([line[0]] + rest, i) {
        assert !PairAt(rest, i - 1);
      }
    }
  }

  /** A key starts as its line does. */
  lemma FirstOfKey(line: string)
    ensures KeyOfLine(line) != "" ==> line != "" && KeyOfLine(line)[0] == line[0]
  {
  }

  // ---- The device list ----

  /** The lines as they stand in the message: all but the first are indented. */
  function Indented(lines: seq<string>): (indented: seq<string>)
    ensures |indented| == |lines|
  {
    seq(|lines|, i requires 0 <= i < |lines| => if i == 0 then lines[0] else "    " + lines[i])
  }

  function Unindented(lines: seq<string>): (plain: seq<string>)
    ensures |plain| == |lines|
  {
    seq(|lines|, i requires 0 <= i < |lines| =>
      if i == 0 then lines[0] else if |lines[i]| < 4 then "" else lines[i][4..])
  }

  lemma UnindentInvertsIndent(lines: seq<string>)
    ensures Unindented(Indented(lines)) == lines
  {
  }

  /** Joining by a line break and an indentation is indenting, then joining by line breaks. */
  lemma {:induction false} JoinIsIndented(lines: seq<string>)
    requires lines != []
    ensures Join(lines, "\n    ") == Join(Indented(lines), "\n")
  {
    if |lines| == 1 {
      assert Indented(lines) == lines;
    } else {
      var init, last := lines[..|lines| - 1], lines[|lines| - 1];
      JoinIsIndented(init);
      assert lines == init + [last];
      assert Indented(lines) == Indented(init) + ["    " + last];
      JoinSnoc(init, last, "\n    ");
      JoinSnoc(Indented(init), "    " + last, "\n");
      assert "\n    " == "\n" + "    ";
      SameTail(Join(init, "\n    "), "\n", "    ", last);
    }
  }

  lemma SameTail(a: string, b: string, c: string, d: string)
    ensures a + (b + c) + d == a + b + (c + d)
  {
  }

  function EntriesOf(lines: seq<string>): (entries: seq<Entry<string, string>>)
    ensures |entries| == |lines|
  {
    seq(|lines|, i requires 0 <= i < |lines| => LastEntries.Entry(KeyOfLine(lines[i]), ValueOfLine(lines[i])))
  }

  /** The map that a device list stands for. */
  function ReadDevices(text: string): map<string, string> {
    if text == "" then map[] else Latest(EntriesOf(Unindented(Split(text, '\n'))))
  }

  /** Nothing in the map that the message would read as its own punctuation. */
  ghost predicate IsPlain(devices: map<string, string>) {
    forall k :: k in devices ==> !HasPair(k) && '\n' !in k && '\n' !in devices[k]
  }

  lemma {:induction false} LatestAgrees(entries: seq<Entry<string, string>>, devices: map<string, string>)
    requires forall e :: e in entries ==> e.key in devices && devices[e.key] == e.value
    ensures forall k :: k in Latest(entries) ==> k in devices && Latest(entries)[k] == devices[k]
  {
    if entries != [] {
      LatestAgrees(entries[..|entries| - 1], devices);
    }
  }

  /** Entries of a map, for every key some: what they leave is the map. */
  lemma LatestIsMap(entries: seq<Entry<string, string>>, order: seq<string>, devices: map<string, string>)
    requires |entries| == |order| && forall k :: k in order <==> k in devices
    requires forall i :: 0 <= i < |order| ==>
               order[i] in devices && entries[i] == LastEntries.Entry(order[i], devices[order[i]])
    ensures Latest(entries) == devices
  {
    LatestAgrees(entries, devices);
    forall k | k in devices ensures k in Latest(entries) {
      var i :| 0 <= i < |order| && order[i] == k;
      assert entries[i].key == k;
      LatestIsSet(entries, k);
    }
  }

  lemma PlainLines(order: seq<string>, devices: map<string, string>)
    requires (forall k :: k in order ==> k in devices) && IsPlain(devices)
    ensures forall line :: line in Indented(DeviceLines(order, devices)) ==> '\n' !in line
    ensures forall i :: 0 <= i < |order| ==>
              EntriesOf(DeviceLines(order, devices))[i] == LastEntries.Entry(order[i], devices[order[i]])
  {
    var lines := DeviceLines(order, devices);
    forall i | 0 <= i < |order| ensures EntriesOf(lines)[i] == LastEntries.Entry(order[i], devices[order[i]]) {
      LineIsCut(order[i], devices[order[i]]);
    }
    forall i | 0 <= i < |order| ensures '\n' !in Indented(lines)[i] {
      assert order[i] in devices;
    }
  }

  /** A device list can be read back if the map is plain. */
  lemma ReadPlainDevices(order: seq<string>, devices: map<string, string>)
    requires IsOrder(order, devices.Keys) && (forall k :: k in order ==> k in devices) && IsPlain(devices)
    ensures ReadDevices(Join(DeviceLines(order, devices), "\n    ")) == devices
  {
    OrderFacts(order, devices.Keys);
    var lines := DeviceLines(order, devices);
    if order == [] {
      assert lines == [] && devices == map[];
    } else {
      PlainLines(order, devices);
      JoinIsIndented(lines);
      assert "\n" == ['\n'];
      SplitInvertsJoin(Indented(lines), '\n');
      UnindentInvertsIndent(lines);
      LatestIsMap(EntriesOf(lines), order, devices);
      JoinNotEmpty(lines);
    }
  }

  lemma JoinNotEmpty(lines: seq<string>)
    requires lines != [] && lines[0] != ""
    ensures Join(lines, "\n    ") != ""
  {
  }

  lemma ReadDevicesArePlain(text: string)
    ensures IsPlain(ReadDevices(text))
  {
    if text != "" {
      var lines := Unindented(Split(text, '\n'));
      SplitPiecesAreClean(text, '\n');
      forall i | 0 <= i < |lines| ensures '\n' !in lines[i] {
        assert Split(text, '\n')[i] in Split(text, '\n');
      }
      EntriesArePlain(lines);
    }
  }

  lemma {:induction false} EntriesArePlain(lines: seq<string>)
    requires forall line :: line in lines ==> '\n' !in line
    ensures IsPlain(Latest(EntriesOf(lines)))
  {
    if lines != [] {
      var init, last := lines[..|lines| - 1], lines[|lines| - 1];
      EntriesArePlain(init);
      assert EntriesOf(lines)[..|lines| - 1] == EntriesOf(init);
      LinePartsAreClean(last, '\n');
    }
  }

  // ---- The whole message ----

  function Drop(text: string, n: nat): string {
    if n <= |text| then text[n..] else ""
  }

  function DropEnd(text: string, n: nat): string {
    if n <= |text| then text[..|text| - n] else ""
  }

  /** What follows the time, from the pod's name on: two lines and a fixed part are skipped. */
  function FromPod(text: string): string {
    Drop(After(After(Drop(text, |HEAD|), '\n'), '\n'), |AFTER_STAMP| - 1)
  }

  /** What follows the next line break and the fixed part it begins. */
  function FromNext(text: string, fixed: string): string
    requires fixed != ""
  {
    Drop(After(text, '\n'), |fixed| - 1)
  }

  /** The alert that a message stands for. */
  function ReadAlert(text: string): Message {
    var fromPod := FromPod(text);
    var fromCap := FromNext(fromPod, AFTER_POD);
    Message(Before(fromPod, '\n'), ParseDecimal(Before(fromCap, '\n')),
            ReadDevices(DropEnd(FromNext(fromCap, AFTER_CAP), |END|)))
  }

  lemma DropHead(head: string, tail: string)
    ensures Drop(head + tail, |head|) == tail
  {
  }

  /** A line, and what the fixed part after it begins with. */
  lemma NextLine(line: string, fixed: string, tail: string)
    requires '\n' !in line && fixed != "" && fixed[0] == '\n'
    ensures Before(line + fixed + tail, '\n') == line
    ensures After(line + fixed + tail, '\n') == fixed[1..] + tail
    ensures FromNext(line + fixed + tail, fixed) == tail
  {
    assert fixed == ['\n'] + fixed[1..];
    assert line + fixed + tail == line + ['\n'] + (fixed[1..] + tail);
    CutAtFirst(line, fixed[1..] + tail, '\n');
    DropHead(fixed[1..], tail);
  }

  /** The name's line and the time's line are skipped whatever they hold, short of line breaks. */
  lemma PodIsFound(podName: string, stamp: string, name: string, field: string, tail: string)
    requires '\n' !in podName && '\n' !in stamp && '\n' !in name && '\n' !in field
    ensures FromPod(HEAD + (podName + name + ['\n'] + field + stamp + AFTER_STAMP + tail)) == tail
  {
    var rest := field + stamp + AFTER_STAMP + tail;
    DropHead(HEAD, podName + name + ['\n'] + field + stamp + AFTER_STAMP + tail);
    assert podName + name + ['\n'] + field + stamp + AFTER_STAMP + tail == (podName + name) + ['\n'] + rest;
    CutAtFirst(podName + name, rest, '\n');
    NextLine(field + stamp, AFTER_STAMP, tail);
  }

  lemma GroupFront(head: string, podName: string, name: string, field: string, stamp: string, spec: string,
                   tail: string)
    ensures head + podName + name + ['\n'] + field + stamp + spec + tail
            == head + (podName + name + ['\n'] + field + stamp + spec + tail)
  {
  }

  lemma GroupTail(front: string, podName: string, a: string, cap: string, b: string, devices: string, end: string)
    ensures front + podName + a + cap + b + devices + end == front + (podName + a + (cap + b + (devices + end)))
  {
  }

  lemma FixedParts()
    ensures '\n' !in NAME_END && '\n' !in STAMP
    ensures AFTER_STAMP != "" && AFTER_STAMP[0] == '\n'
  {
  }

  /** The message from the pod's second name on is where the reader looks for it. */
  lemma TemplatePod(podName: string, stamp: string, cap: string, devices: string)
    requires '\n' !in podName && '\n' !in stamp
    ensures FromPod(Template(podName, stamp, cap, devices)) == podName + AFTER_POD + (cap + AFTER_CAP + (devices + END))
  {
    var fromPod := podName + AFTER_POD + (cap + AFTER_CAP + (devices + END));
    FixedParts();
    assert "\n" == ['\n'];
    GroupTail(HEAD + podName + NAME_END + "\n" + STAMP + stamp + AFTER_STAMP, podName, AFTER_POD, cap, AFTER_CAP,
              devices, END);
    GroupFront(HEAD, podName, NAME_END, STAMP, stamp, AFTER_STAMP, fromPod);
    PodIsFound(podName, stamp, NAME_END, STAMP, fromPod);
  }

  lemma TemplateIsRead(podName: string, stamp: string, cap: string, devices: string)
    requires '\n' !in podName && '\n' !in stamp && '\n' !in cap
    ensures ReadAlert(Template(podName, stamp, cap, devices))
            == Message(podName, ParseDecimal(cap), ReadDevices(devices))
  {
    TemplatePod(podName, stamp, cap, devices);
    NextLine(podName, AFTER_POD, cap + AFTER_CAP + (devices + END));
    NextLine(cap, AFTER_CAP, devices + END);
    EndIsDropped(devices, END);
  }

  lemma EndIsDropped(devices: string, end: string)
    ensures DropEnd(devices + end, |end|) == devices
  {
  }

  /** Whatever the text, the name read is one line. */
  lemma ReadNameIsOneLine(text: string)
    ensures '\n' !in ReadAlert(text).podName
  {
    BeforeIsClean(FromPod(text), '\n', '\n');
  }

  /**
    Lossless messages. The time, which Go formats, holds no line break. Then for every order of the devices the
    alert can be read back from the message exactly when the pod's name is one line and the device map is plain:
    no key holds ": ", and neither keys nor values hold a line break.
  */
  lemma ReadInvertsText(message: Message, stamp: string, order: seq<string>)
    requires Write(message, stamp, order).Valid() && '\n' !in stamp
    ensures ReadAlert(AlertText(message, stamp, order)) == message <==>
            '\n' !in message.podName && IsPlain(message.devices)
  {
    var text := AlertText(message, stamp, order);
    ReadNameIsOneLine(text);
    ReadDevicesArePlain(DropEnd(FromNext(FromNext(FromPod(text), AFTER_POD), AFTER_CAP), |END|));
    if '\n' !in message.podName && IsPlain(message.devices) {
      ParseInvertsDecimal(message.powerCapValue);
      TemplateIsRead(message.podName, stamp, Decimal(message.powerCapValue),
                     Join(DeviceLines(order, message.devices), "\n    "));
      ReadPlainDevices(order, message.devices);
    }
  }
}
