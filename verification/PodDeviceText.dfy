/**
  The device texts that the pipeline can produce. getPodDevices gives either nothing or both of the devices
  "package" and "gpu", so a reader who knows that can tell more maps apart than a reader of arbitrary maps.
*/
module PodDeviceText {
  import opened Text
  import opened PromAlert

  // ---- Cutting a text at a marker ----

  /** `marker` stands somewhere in `s`. */
  ghost predicate Occurs(s: string, marker: string) {
    exists i :: OccursAt(s, marker, i)
  }

  predicate OccursAt(s: string, marker: string, i: int) {
    0 <= i <= |s| - |marker| && s[i..i + |marker|] == marker
  }

  /** The first character of the marker does not come again in it, so two occurrences never overlap. */
  predicate IsMarker(marker: string) {
    |marker| > 0 && marker[0] !in marker[1..]
  }

  lemma NoOverlap(s: string, marker: string, i: int, j: int)
    requires IsMarker(marker) && OccursAt(s, marker, i) && OccursAt(s, marker, j) && i < j
    ensures i + |marker| <= j
  {
    assert s[j..j + |marker|][0] == s[j] == marker[0];
    forall k | i < k < i + |marker| ensures s[k] != marker[0] {
      assert s[i..i + |marker|][k - i] == marker[k - i] == marker[1..][k - i - 1];
    }
  }

  /** Another occurrence of the marker in `a + marker + b` lies in `a` or in `b`. */
  lemma OccursBeside(a: string, b: string, marker: string, i: int)
    requires IsMarker(marker) && OccursAt(a + marker + b, marker, i) && i != |a|
    ensures Occurs(a, marker) || Occurs(b, marker)
  {
    var s := a + marker + b;
    assert s[|a|..|a| + |marker|] == marker;
    if i < |a| {
      NoOverlap(s, marker, i, |a|);
      assert a[i..i + |marker|] == s[i..i + |marker|];
      assert OccursAt(a, marker, i);
    } else {
      NoOverlap(s, marker, |a|, i);
      var k := i - |a| - |marker|;
      assert b[k..k + |marker|] == s[i..i + |marker|];
      assert OccursAt(b, marker, k);
    }
  }

  /** Two values around a marker. */
  function Around(a: string, marker: string, b: string): string {
    a + marker + b
  }

  /** The text can be cut in no other way. */
  ghost predicate UniqueCut(a: string, b: string, marker: string) {
    forall a', b' :: Around(a', marker, b') == Around(a, marker, b) ==> a' == a && b' == b
  }

  lemma MarkerFreeIsUnique(a: string, b: string, marker: string)
    requires IsMarker(marker) && !Occurs(a, marker) && !Occurs(b, marker)
    ensures UniqueCut(a, b, marker)
  {
    var s := Around(a, marker, b);
    forall a', b' | Around(a', marker, b') == s ensures a' == a && b' == b {
      assert s[|a'|..|a'| + |marker|] == marker;
      assert OccursAt(a + marker + b, marker, |a'|);
      if |a'| != |a| { OccursBeside(a, b, marker, |a'|); }
      assert a' == s[..|a'|] && a == s[..|a|];
      assert b' == s[|a'| + |marker|..] && b == s[|a| + |marker|..];
    }
  }

  /** A text with two markers can be cut at either. */
  lemma TwoCuts(x: string, y: string, z: string, marker: string)
    ensures Around(x, marker, Around(y, marker, z)) == Around(Around(x, marker, y), marker, z)
  {
  }

  lemma CutAtOccurrence(s: string, marker: string) returns (x: string, y: string)
    requires Occurs(s, marker)
    ensures s == Around(x, marker, y)
  {
    var i :| OccursAt(s, marker, i);
    x, y := s[..i], s[i + |marker|..];
  }

  lemma MarkerInFirstIsNot(a: string, b: string, marker: string)
    requires IsMarker(marker) && Occurs(a, marker)
    ensures !UniqueCut(a, b, marker)
  {
    var x, y := CutAtOccurrence(a, marker);
    TwoCuts(x, y, b, marker);
    assert |x| < |a|;
  }

  lemma MarkerInSecondIsNot(a: string, b: string, marker: string)
    requires IsMarker(marker) && Occurs(b, marker)
    ensures !UniqueCut(a, b, marker)
  {
    var x, y := CutAtOccurrence(b, marker);
    TwoCuts(a, x, y, marker);
    assert |y| < |b|;
  }

  /** The values can be told from the text exactly when neither holds the marker. */
  lemma CutIsUnique(a: string, b: string, marker: string)
    requires IsMarker(marker)
    ensures UniqueCut(a, b, marker) <==> !Occurs(a, marker) && !Occurs(b, marker)
  {
    if Occurs(a, marker) {
      MarkerInFirstIsNot(a, b, marker);
    } else if Occurs(b, marker) {
      MarkerInSecondIsNot(a, b, marker);
    } else {
      MarkerFreeIsUnique(a, b, marker);
    }
  }

  // ---- The maps of the pipeline ----

  /** What getPodDevices can give. */
  predicate IsPodMap(devices: map<string, string>) {
    devices == map[] || devices.Keys == {"package", "gpu"}
  }

  /** `text` is a rendering of `devices`, in this order. */
  ghost predicate Renders(devices: map<string, string>, order: seq<string>, text: string) {
    && IsOrder(order, devices.Keys) && (forall k :: k in order ==> k in devices)
    && text == Render(order, devices)
  }

  lemma PairOrders(order: seq<string>)
    requires IsOrder(order, {"package", "gpu"})
    ensures order == ["package", "gpu"] || order == ["gpu", "package"]
  {
    assert |multiset(order)| == |order| && |multiset({"package", "gpu"})| == 2;
    OrderFacts(order, {"package", "gpu"});
    assert order == [order[0]] + [order[1]];
    assert multiset(order) == multiset{order[0], order[1]};
    assert order[0] in order && order[1] in order;
    assert multiset(order)[order[0]] == 1;
  }

  /** What stands between the two values: a comma, the second device and a colon. */
  function Marker(second: string): string {
    "," + second + ":"
  }

  lemma PairText(order: seq<string>, devices: map<string, string>)
    requires |order| == 2 && order[0] in devices && order[1] in devices
    ensures Render(order, devices) == order[0] + ":" + Around(devices[order[0]], Marker(order[1]), devices[order[1]])
  {
    var entries := Entries(order, devices);
    assert entries[1..] == [entries[1]];
    assert Join(entries[1..], ",") == entries[1];
    assert Render(order, devices) == entries[0] + "," + entries[1];
    assert entries[0] == order[0] + ":" + devices[order[0]] && entries[1] == order[1] + ":" + devices[order[1]];
  }

  lemma MarkersAreMarkers(second: string)
    requires second == "package" || second == "gpu"
    ensures IsMarker(Marker(second))
  {
    assert Marker(second)[1..] == second + ":";
  }

  /** The text tells in which order it was written. */
  lemma SameTextSameOrder(order: seq<string>, devices: map<string, string>,
                          order': seq<string>, devices': map<string, string>)
    requires devices.Keys == {"package", "gpu"} && IsPodMap(devices')
    requires IsOrder(order, devices.Keys) && Renders(devices', order', TextFor(order, devices))
    ensures devices'.Keys == {"package", "gpu"} && order' == order
  {
    PairOrders(order);
    PairText(order, devices);
    var text := TextFor(order, devices);
    assert text[0] == order[0][0];
    if devices' != map[] {
      PairOrders(order');
      PairText(order', devices');
      assert text[0] == order'[0][0];
    }
  }

  /** Render, for orders that are known to be of the map's keys. */
  ghost function TextFor(order: seq<string>, devices: map<string, string>): string
    requires IsOrder(order, devices.Keys)
  {
    OrderFacts(order, devices.Keys);
    Render(order, devices)
  }

  lemma PairSuffix(order: seq<string>, devices: map<string, string>, devices': map<string, string>)
    requires |order| == 2 && order[0] in devices && order[1] in devices && order[0] in devices' && order[1] in devices'
    ensures Render(order, devices) == Render(order, devices') <==>
            Around(devices[order[0]], Marker(order[1]), devices[order[1]])
            == Around(devices'[order[0]], Marker(order[1]), devices'[order[1]])
  {
    PairText(order, devices);
    PairText(order, devices');
    var prefix := order[0] + ":";
    assert Render(order, devices)[|prefix|..]
           == Around(devices[order[0]], Marker(order[1]), devices[order[1]]);
    assert Render(order, devices')[|prefix|..]
           == Around(devices'[order[0]], Marker(order[1]), devices'[order[1]]);
  }

  /**
    When the text of a pod's devices can be read back by anybody. The text is that of no other map the pipeline
    can produce, in any order, exactly when neither value holds a comma, the name of the device written second
    and a colon. Every other comma and colon in a value is harmless.
  */
  lemma PodTextIsUnique(order: seq<string>, devices: map<string, string>)
    requires devices.Keys == {"package", "gpu"} && IsOrder(order, devices.Keys)
    ensures |order| == 2 && order[0] in devices && order[1] in devices
    ensures (forall devices', order' :: IsPodMap(devices') && Renders(devices', order', TextFor(order, devices)) ==>
                                          devices' == devices)
            <==> !Occurs(devices[order[0]], Marker(order[1])) && !Occurs(devices[order[1]], Marker(order[1]))
  {
    PairOrders(order);
    var first, second := order[0], order[1];
    MarkersAreMarkers(second);
    CutIsUnique(devices[first], devices[second], Marker(second));
    if !Occurs(devices[first], Marker(second)) && !Occurs(devices[second], Marker(second)) {
      forall devices', order' | IsPodMap(devices') && Renders(devices', order', TextFor(order, devices))
        ensures devices' == devices
      {
        SameTextSameOrder(order, devices, order', devices');
        PairSuffix(order, devices, devices');
      }
    } else {
      var a, b :| Around(a, Marker(second), b) == Around(devices[first], Marker(second), devices[second])
                  && !(a == devices[first] && b == devices[second]);
      var other := map[first := a, second := b];
      PairSuffix(order, devices, other);
      assert other.Keys == devices.Keys;
      assert Renders(other, order, TextFor(order, devices));
      assert other[first] != devices[first] || other[second] != devices[second];
    }
  }

  /** Two maps of the pipeline that share a text: a value that looks like the end of one entry and the next. */
  lemma PodTextsCollide()
    ensures var one := map["package" := "x,gpu:y", "gpu" := "z"];
            var two := map["package" := "x", "gpu" := "y,gpu:z"];
            one != two && IsPodMap(one) && IsPodMap(two)
            && Render(["package", "gpu"], one) == Render(["package", "gpu"], two)
  {
    var one := map["package" := "x,gpu:y", "gpu" := "z"];
    var two := map["package" := "x", "gpu" := "y,gpu:z"];
    var order := ["package", "gpu"];
    assert Marker("gpu") == ",gpu:";
    assert Around("x,gpu:y", ",gpu:", "z") == Around("x", ",gpu:", "y,gpu:z");
    PairSuffix(order, one, two);
    assert one["gpu"] != two["gpu"];
  }
}
