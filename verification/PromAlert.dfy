/**
  The Prometheus adapter's text: internal/alert/adapters/prom_alert.go.

  The device map is written out in whatever order Go iterates it. DecodeInvertsRender shows that nothing
  is lost exactly when the separators stay out of the device map.
*/
module PromAlert {
  import opened Text
  import opened Decimals
  import opened PubSub

  /** The keys of a map, each once, in some order: what ranging over it yields. */
  ghost predicate IsOrder(order: seq<string>, keys: set<string>) {
    multiset(order) == multiset(keys)
  }

  lemma OrderFacts(order: seq<string>, keys: set<string>)
    requires IsOrder(order, keys)
    ensures forall k :: k in order <==> k in keys
  {
    forall k ensures k in order <==> k in keys {
      assert k in multiset(order) <==> k in multiset(keys);
    }
  }

  /** One key more that the loop has been through. */
  lemma OneMoreVisited(keys: set<string>, todo: set<string>, order: seq<string>, k: string)
    requires k in todo && todo <= keys && multiset(order) == multiset(keys - todo)
    ensures multiset(order + [k]) == multiset(keys - (todo - {k}))
  {
    assert keys - (todo - {k}) == keys - todo + {k};
  }

  /** fmt.Sprintf("%s:%s", device, value) */
  function Entry(device: string, value: string): string {
    device + ":" + value
  }

  function Entries(order: seq<string>, devices: map<string, string>): (entries: seq<string>)
    requires forall k :: k in order ==> k in devices
    ensures |entries| == |order|
  {
    seq(|order|, i requires 0 <= i < |order| => Entry(order[i], devices[order[i]]))
  }

  /** The device text for one iteration order: the entries, joined by commas. */
  function Render(order: seq<string>, devices: map<string, string>): string
    requires forall k :: k in order ==> k in devices
  {
    Join(Entries(order, devices), ",")
  }

  /** Each of some pieces followed by a comma: what the loop appends. */
  function WithCommas(pieces: seq<string>): string {
    if pieces == [] then "" else WithCommas(pieces[..|pieces| - 1]) + pieces[|pieces| - 1] + ","
  }

  lemma OneMorePiece(pieces: seq<string>, piece: string)
    ensures WithCommas(pieces + [piece]) == WithCommas(pieces) + piece + ","
  {
    assert (pieces + [piece])[..|pieces|] == pieces;
  }

  lemma OneMoreEntry(order: seq<string>, devices: map<string, string>, device: string)
    requires (forall k :: k in order ==> k in devices) && device in devices
    ensures forall k :: k in order + [device] ==> k in devices
    ensures Entries(order + [device], devices) == Entries(order, devices) + [Entry(device, devices[device])]
  {
  }

  /** Appending a comma after each piece and trimming the last one is joining by commas. */
  lemma {:induction false} TrimIsJoin(pieces: seq<string>)
    ensures pieces == [] ==> WithCommas(pieces) == ""
    ensures pieces != [] ==> WithCommas(pieces) == Join(pieces, ",") + ","
  {
    if |pieces| == 1 {
      assert pieces[..0] == [];
    } else if pieces != [] {
      var init, last := pieces[..|pieces| - 1], pieces[|pieces| - 1];
      TrimIsJoin(init);
      JoinSnoc(init, last, ",");
      assert pieces == init + [last];
    }
  }

  lemma {:induction false} JoinSnoc(pieces: seq<string>, last: string, sep: string)
    requires pieces != []
    ensures Join(pieces + [last], sep) == Join(pieces, sep) + sep + last
  {
    var all := pieces + [last];
    if |pieces| == 1 {
      assert all[1..] == [last];
    } else {
      assert all[1..] == pieces[1..] + [last];
      JoinSnoc(pieces[1..], last, sep);
      assert pieces[0] + sep + (Join(pieces[1..], sep) + sep + last)
             == (pieces[0] + sep + Join(pieces[1..], sep)) + sep + last;
    }
  }

  /**
    Lines 48 to 54 of FormatPrometheusAlert: append each entry and a comma, then drop the last character
    if there is any. The text is the comma join for the order the loop happened to take.
  */
  method DeviceText(devices: map<string, string>) returns (text: string, order: seq<string>)
    ensures IsOrder(order, devices.Keys) && forall k :: k in order ==> k in devices
    ensures text == Render(order, devices)
  {
    text := "";
    order := [];
    var todo := devices.Keys;
    ghost var pieces: seq<string> := [];
    while todo != {}
      invariant todo <= devices.Keys
      invariant multiset(order) == multiset(devices.Keys - todo)
      invariant forall k :: k in order ==> k in devices
      invariant pieces == Entries(order, devices) && text == WithCommas(pieces)
      decreases todo
    {
      var device :| device in todo;
      OneMoreVisited(devices.Keys, todo, order, device);
      OneMoreEntry(order, devices, device);
      OneMorePiece(pieces, Entry(device, devices[device]));
      text := text + Entry(device, devices[device]) + ",";
      pieces := pieces + [Entry(device, devices[device])];
      order := order + [device];
      todo := todo - {device};
    }
    assert devices.Keys - {} == devices.Keys;
    TrimIsJoin(pieces);
    if |text| > 0 {
      text := text[..|text| - 1];
    }
  }

  /** The map that a device text stands for: pieces between commas, cut at their first colon. */
  function Decode(text: string): map<string, string> {
    if text == "" then map[] else DecodePieces(Split(text, ','))
  }

  function DecodePieces(pieces: seq<string>): map<string, string> {
    if pieces == [] then map[]
    else
      var last := pieces[|pieces| - 1];
      DecodePieces(pieces[..|pieces| - 1])[Before(last, ':') := After(last, ':')]
  }

  /** No separator where it would be read as one. */
  predicate IsClean(devices: map<string, string>) {
    forall k :: k in devices ==> ':' !in k && ',' !in k && ',' !in devices[k]
  }

  lemma {:induction false} DecodeEntries(order: seq<string>, devices: map<string, string>)
    requires forall k :: k in order ==> k in devices
    requires IsClean(devices)
    ensures DecodePieces(Entries(order, devices)) == map k | k in order :: devices[k]
  {
    if order != [] {
      var init, last := order[..|order| - 1], order[|order| - 1];
      var entries := Entries(order, devices);
      DecodeEntries(init, devices);
      assert entries[..|entries| - 1] == Entries(init, devices);
      assert Entry(last, devices[last]) == last + [':'] + devices[last];
      CutAtFirst(last, devices[last], ':');
      assert order == init + [last];
    }
  }

  lemma {:induction false} BeforeIsClean(s: string, c: char, other: char)
    ensures c !in Before(s, c)
    ensures other !in s ==> other !in Before(s, c) && other !in After(s, c)
  {
    if s != "" {
      assert s == [s[0]] + s[1..];
      BeforeIsClean(s[1..], c, other);
    }
  }

  lemma {:induction false} DecodedIsClean(pieces: seq<string>)
    requires forall p :: p in pieces ==> ',' !in p
    ensures IsClean(DecodePieces(pieces))
  {
    if pieces != [] {
      DecodedIsClean(pieces[..|pieces| - 1]);
      BeforeIsClean(pieces[|pieces| - 1], ':', ',');
    }
  }

  /** The text of a non-empty map is not empty: every entry has its colon. */
  lemma RenderNotEmpty(order: seq<string>, devices: map<string, string>)
    requires order != [] && forall k :: k in order ==> k in devices
    ensures Render(order, devices) != ""
  {
    var entries := Entries(order, devices);
    assert |entries[0]| > 0;
  }

  /**
    Lossless device text. For every iteration order, decoding the text gives back the device map exactly
    when no key holds a colon or a comma and no value holds a comma.
  */
  lemma DecodeInvertsRender(order: seq<string>, devices: map<string, string>)
    requires IsOrder(order, devices.Keys)
    ensures forall k :: k in order ==> k in devices
    ensures Decode(Render(order, devices)) == devices <==> IsClean(devices)
  {
    OrderFacts(order, devices.Keys);
    var text := Render(order, devices);
    if IsClean(devices) {
      if order == [] {
        assert devices == map[];
      } else {
        RenderNotEmpty(order, devices);
        var entries := Entries(order, devices);
        forall p | p in entries ensures ',' !in p {
          var i :| 0 <= i < |entries| && entries[i] == p;
          assert order[i] in devices;
        }
        SplitInvertsJoin(entries, ',');
        assert [','] == ",";
        DecodeEntries(order, devices);
        assert devices == map k | k in order :: devices[k];
      }
    } else if Decode(text) == devices {
      SplitPiecesAreClean(text, ',');
      DecodedIsClean(Split(text, ','));
      assert false;
    }
  }

  /** Distinct clean device maps never render to the same text, in whatever orders. */
  lemma CleanTextsDiffer(order: seq<string>, devices: map<string, string>,
                         order': seq<string>, devices': map<string, string>)
    requires IsOrder(order, devices.Keys) && IsOrder(order', devices'.Keys)
    requires IsClean(devices) && IsClean(devices') && devices != devices'
    ensures (forall k :: k in order ==> k in devices) && forall k :: k in order' ==> k in devices'
    ensures Render(order, devices) != Render(order', devices')
  {
    DecodeInvertsRender(order, devices);
    DecodeInvertsRender(order', devices');
  }

  /** Unclean maps can collide: one device whose value holds a separator reads as two devices. */
  lemma UncleanTextsCollide()
    ensures var one, two := map["a" := "1,b:2"], map["a" := "1", "b" := "2"];
            one != two && Render(["a"], one) == Render(["a", "b"], two)
  {
    var one, two := map["a" := "1,b:2"], map["a" := "1", "b" := "2"];
    var entries1, entries2 := Entries(["a"], one), Entries(["a", "b"], two);
    assert entries1[0] == Entry("a", "1,b:2") == "a:1,b:2";
    assert entries2[0] == Entry("a", "1") == "a:1";
    assert entries2[1] == Entry("b", "2") == "b:2";
    assert entries2[1..] == ["b:2"];
    assert "a" in one && one["a"] != two["a"];
  }

  // ---- The whole alert ----

  const EXCEEDS := "The pod is exceeding the power cap of "
  const DEVICES := " watts. Devices: "

  /** The labels and annotations that depend on the arguments: the pod label, the summary and the description. */
  datatype PrometheusAlert = PrometheusAlert(pod: string, summary: string, description: string)

  function Description(cap: int, deviceText: string): string {
    EXCEEDS + Decimal(cap) + DEVICES + deviceText
  }

  /** FormatPrometheusAlert */
  method FormatPrometheusAlert(message: Message) returns (alert: PrometheusAlert, order: seq<string>)
    ensures IsOrder(order, message.devices.Keys) && forall k :: k in order ==> k in message.devices
    ensures alert.pod == message.podName && alert.summary == "Power capping alert for pod " + message.podName
    ensures alert.description == "The pod is exceeding the power cap of " + Decimal(message.powerCapValue)
                                 + " watts. Devices: " + Render(order, message.devices)
    ensures Recover(alert) == message <==> IsClean(message.devices)
  {
    var deviceText;
    deviceText, order := DeviceText(message.devices);
    alert := PrometheusAlert(message.podName, "Power capping alert for pod " + message.podName,
                             Description(message.powerCapValue, deviceText));
    RecoverDescription(message.powerCapValue, deviceText);
    DecodeInvertsRender(order, message.devices);
  }

  /** The message that an alert stands for. */
  function Recover(alert: PrometheusAlert): Message {
    if |EXCEEDS| > |alert.description| then Message(alert.pod, 0, map[])
    else
      var rest := alert.description[|EXCEEDS|..];
      var number, tail := Before(rest, ' '), After(rest, ' ');
      Message(alert.pod, ParseDecimal(number), if |tail| < |DEVICES| - 1 then map[] else Decode(tail[|DEVICES| - 1..]))
  }

  lemma RecoverDescription(cap: int, deviceText: string)
    ensures var alert := PrometheusAlert("", "", Description(cap, deviceText));
            Recover(alert) == Message("", cap, Decode(deviceText))
  {
    ParseInvertsDecimal(cap);
    var description := Description(cap, deviceText);
    var tail := DEVICES[1..] + deviceText;
    assert DEVICES == [' '] + DEVICES[1..];
    assert description[|EXCEEDS|..] == Decimal(cap) + [' '] + tail;
    CutAtFirst(Decimal(cap), tail, ' ');
    assert tail[|DEVICES| - 1..] == deviceText;
  }
}
