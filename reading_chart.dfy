/**
 * The data behind the nitrogen chart: readings grouped by device (devices in
 * the order they first occur), each group sorted oldest first, and one
 * coloured line per device whose points are (time, nitrogen).
 */
module ReadingChart {
  import opened Seqs
  import opened ReadingEntity

  /** The line colours, assigned to devices in turn: blue, green, amber, red, purple. */
  const COLORS: seq<string> := [
    "rgb(59, 130, 246)", "rgb(16, 185, 129)", "rgb(245, 158, 11)",
    "rgb(239, 68, 68)", "rgb(139, 92, 246)"]

  /** Appended to a line colour to give its translucent fill. */
  const FILL_SUFFIX: string := "20"

  datatype Point = Point(x: Instant, y: real)

  // `deviceLabel` is the `label` option (`label` is a Dafny keyword).
  datatype Dataset = Dataset(deviceLabel: string, data: seq<Point>, borderColor: string, backgroundColor: string)

  // ---------------------------------------------------------------------------
  // Grouping

  /** The device ids of `s`, each once, in the order of their first reading. */
  function DevicesInOrder(s: seq<Reading>): (keys: seq<string>)
    ensures NoDuplicates(keys)
    ensures forall d :: d in keys <==> exists r :: r in s && r.deviceId == d
  {
    if s == [] then []
    else
      var p := s[..|s| - 1];
      var keys := DevicesInOrder(p);
      assert forall r :: r in s <==> r in p || r == s[|s| - 1] by {
        assert s == p + [s[|s| - 1]];
      }
      if s[|s| - 1].deviceId in keys then keys else keys + [s[|s| - 1].deviceId]
  }

  function DevicePred(d: string): Reading -> bool
  {
    (r: Reading) => r.deviceId == d
  }

  /** The readings of device `d`, in input order. */
  function OfDevice(s: seq<Reading>, d: string): seq<Reading>
  {
    Filter(s, DevicePred(d))
  }

  lemma OfDeviceSnoc(p: seq<Reading>, x: Reading, d: string)
    ensures OfDevice(p + [x], d) == OfDevice(p, d) + (if x.deviceId == d then [x] else [])
  {
    FilterAppend(p, [x], DevicePred(d));
    assert [x][1..] == [];
  }

  /** A device not yet listed has no readings. */
  lemma UnseenDevice(p: seq<Reading>, d: string)
    requires d !in DevicesInOrder(p)
    ensures OfDevice(p, d) == []
  {
    FilterNone(p, DevicePred(d));
  }

  /** The record the grouping builds: each reading pushed, in turn, onto its device's list. */
  ghost function GroupsOf(s: seq<Reading>): map<string, seq<Reading>>
  {
    if s == [] then map[]
    else
      var groups := GroupsOf(s[..|s| - 1]);
      var x := s[|s| - 1];
      groups[x.deviceId := (if x.deviceId in groups then groups[x.deviceId] else []) + [x]]
  }

  /** One device's group after one more reading. */
  lemma GroupEntryStep(prefix: seq<Reading>, reading: Reading, e: string)
    requires e in DevicesInOrder(prefix + [reading])
    ensures OfDevice(prefix + [reading], e) ==
      if e == reading.deviceId then
        (if e in DevicesInOrder(prefix) then OfDevice(prefix, e) else []) + [reading]
      else OfDevice(prefix, e)
  {
    OfDeviceSnoc(prefix, reading, e);
    if e !in DevicesInOrder(prefix) {
      UnseenDevice(prefix, e);
    }
  }

  /** The record has exactly the devices of `s` as keys, each with its readings in input order. */
  lemma {:induction false} GroupsOfMeaning(s: seq<Reading>)
    ensures forall d :: d in GroupsOf(s) <==> d in DevicesInOrder(s)
    ensures forall d :: d in GroupsOf(s) ==> GroupsOf(s)[d] == OfDevice(s, d)
  {
    if s != [] {
      var p := s[..|s| - 1];
      var x := s[|s| - 1];
      GroupsOfMeaning(p);
      assert s == p + [x];
      var groups := GroupsOf(p);
      forall e | e in GroupsOf(s) ensures GroupsOf(s)[e] == OfDevice(s, e) {
        GroupEntryStep(p, x, e);
        if e != x.deviceId {
          assert GroupsOf(s)[e] == groups[e];
        }
      }
    }
  }

  lemma GroupsOfKey(s: seq<Reading>, d: string)
    ensures d in GroupsOf(s) <==> d in DevicesInOrder(s)
  {
    GroupsOfMeaning(s);
  }

  /**
   * The accumulation into a per-device record: returns the keys in insertion
   * order and, for each key, the readings pushed under it.
   */
  method GroupByDevice(readings: seq<Reading>) returns (keys: seq<string>, groups: map<string, seq<Reading>>)
    ensures keys == DevicesInOrder(readings)
    ensures forall d :: d in groups <==> d in keys
    ensures forall d :: d in groups ==> groups[d] == OfDevice(readings, d)
  {
    keys := [];
    groups := map[];
    for n := 0 to |readings|
      invariant keys == DevicesInOrder(readings[..n])
      invariant groups == GroupsOf(readings[..n])
    {
      var reading := readings[n];
      assert readings[..n + 1][..n] == readings[..n];
      GroupsOfKey(readings[..n], reading.deviceId);
      if reading.deviceId !in groups {
        keys := keys + [reading.deviceId];
      }
      var prior := if reading.deviceId in groups then groups[reading.deviceId] else [];
      groups := groups[reading.deviceId := prior + [reading]];
    }
    assert readings[..|readings|] == readings;
    GroupsOfMeaning(readings);
  }

  /** `d`'s first reading comes before any reading of `e`. */
  predicate FirstSeenBefore(s: seq<Reading>, d: string, e: string)
  {
    exists a :: 0 <= a < |s| && s[a].deviceId == d && forall b :: 0 <= b < a ==> s[b].deviceId != e
  }

  /** Devices are listed in the order in which they first occur. */
  lemma {:induction false} DevicesInFirstOccurrenceOrder(s: seq<Reading>)
    ensures forall i, j :: 0 <= i < j < |DevicesInOrder(s)| ==>
              FirstSeenBefore(s, DevicesInOrder(s)[i], DevicesInOrder(s)[j])
  {
    if s != [] {
      var p := s[..|s| - 1];
      var x := s[|s| - 1];
      DevicesInFirstOccurrenceOrder(p);
      var old_keys := DevicesInOrder(p);
      assert forall i, j :: 0 <= i < j < |old_keys| ==> FirstSeenBefore(p, old_keys[i], old_keys[j]);
      var keys := DevicesInOrder(s);
      assert s == p + [x];
      forall i, j | 0 <= i < j < |keys| ensures FirstSeenBefore(s, keys[i], keys[j]) {
        if j < |old_keys| {
          assert keys[i] == old_keys[i] && keys[j] == old_keys[j];
          assert FirstSeenBefore(p, old_keys[i], old_keys[j]);
          var a :| 0 <= a < |p| && p[a].deviceId == keys[i] && forall b :: 0 <= b < a ==> p[b].deviceId != keys[j];
          assert s[a] == p[a];
        } else {
          assert keys[j] == x.deviceId && x.deviceId !in old_keys;
          assert keys[i] == old_keys[i] && old_keys[i] in old_keys;
          var r :| r in p && r.deviceId == keys[i];
          var a :| 0 <= a < |p| && p[a] == r;
          forall b | 0 <= b < a ensures s[b].deviceId != keys[j] {
            assert s[b] == p[b] && p[b] in p;
          }
        }
      }
    }
  }

  // ---------------------------------------------------------------------------
  // Counting points

  /** The number of readings of the listed devices. */
  function GroupSizes(keys: seq<string>, s: seq<Reading>): nat
  {
    if keys == [] then 0 else |OfDevice(s, keys[0])| + GroupSizes(keys[1..], s)
  }

  lemma {:induction false} GroupSizesAppendKey(keys: seq<string>, d: string, s: seq<Reading>)
    ensures GroupSizes(keys + [d], s) == GroupSizes(keys, s) + |OfDevice(s, d)|
  {
    if keys == [] {
      assert [d][1..] == [];
    } else {
      assert (keys + [d])[1..] == keys[1..] + [d];
      GroupSizesAppendKey(keys[1..], d, s);
    }
  }

  lemma {:induction false} GroupSizesAppendReading(keys: seq<string>, s: seq<Reading>, x: Reading)
    requires NoDuplicates(keys)
    ensures GroupSizes(keys, s + [x]) == GroupSizes(keys, s) + (if x.deviceId in keys then 1 else 0)
  {
    if keys != [] {
      GroupSizesAppendReading(keys[1..], s, x);
      FilterAppend(s, [x], DevicePred(keys[0]));
      assert [x][1..] == [];
      assert x.deviceId in keys <==> x.deviceId == keys[0] || x.deviceId in keys[1..];
      assert keys[0] !in keys[1..];
    }
  }

  /** Every reading lands in exactly one group: the groups' sizes add up to the number of readings. */
  lemma {:induction false} GroupSizesTotal(s: seq<Reading>)
    ensures GroupSizes(DevicesInOrder(s), s) == |s|
  {
    if s != [] {
      var p := s[..|s| - 1];
      var x := s[|s| - 1];
      assert s == p + [x];
      GroupSizesTotal(p);
      var keys := DevicesInOrder(p);
      GroupSizesAppendReading(keys, p, x);
      if x.deviceId !in keys {
        GroupSizesAppendKey(keys, x.deviceId, s);
        OfDeviceSnoc(p, x, x.deviceId);
        UnseenDevice(p, x.deviceId);
      }
    }
  }

  /** The total number of points over all lines. */
  function PointCount(ds: seq<Dataset>): nat
  {
    if ds == [] then 0 else |ds[0].data| + PointCount(ds[1..])
  }

  lemma {:induction false} PointCountIsGroupSizes(ds: seq<Dataset>, keys: seq<string>, s: seq<Reading>)
    requires |ds| == |keys|
    requires forall i :: 0 <= i < |ds| ==> |ds[i].data| == |OfDevice(s, keys[i])|
    ensures PointCount(ds) == GroupSizes(keys, s)
  {
    if ds != [] {
      PointCountIsGroupSizes(ds[1..], keys[1..], s);
    }
  }

  // ---------------------------------------------------------------------------
  // Sorting and datasets

  /** The group comparator: by timestamp, oldest first. */
  predicate Earlier(a: Reading, b: Reading)
  {
    a.timestamp <= b.timestamp
  }

  /** Sorts every group by time; the set of groups is unchanged. */
  method SortGroups(keys: seq<string>, groups: map<string, seq<Reading>>) returns (sorted: map<string, seq<Reading>>)
    requires forall d :: d in groups <==> d in keys
    ensures sorted.Keys == groups.Keys
    ensures forall d :: d in sorted ==> sorted[d] == SortBy(groups[d], Earlier)
  {
    sorted := groups;
    for i := 0 to |keys|
      invariant sorted.Keys == groups.Keys
      invariant forall d :: d in sorted ==> sorted[d] == if d in keys[..i] then SortBy(groups[d], Earlier) else groups[d]
    {
      assert keys[..i + 1] == keys[..i] + [keys[i]];
      sorted := sorted[keys[i] := SortBy(groups[keys[i]], Earlier)];
    }
    assert keys[..|keys|] == keys;
  }

  function PointOf(r: Reading): Point
  {
    Point(r.timestamp, r.nitrogen)
  }

  function ColorAt(i: nat): string
  {
    COLORS[i % |COLORS|]
  }

  /** One dataset per key, in key order, coloured by position. */
  function BuildDatasets(keys: seq<string>, groups: map<string, seq<Reading>>): seq<Dataset>
    requires forall d :: d in keys ==> d in groups
  {
    seq(|keys|, i requires 0 <= i < |keys| =>
      Dataset(keys[i], MapSeq(groups[keys[i]], PointOf), ColorAt(i), ColorAt(i) + FILL_SUFFIX))
  }

  /** The chart shows data exactly when there is at least one reading. */
  predicate HasData(readings: seq<Reading>)
  {
    |readings| > 0
  }

  lemma EarlierTotal()
    ensures TotalPreorder(Earlier)
  {
  }

  /** What the `i`-th dataset built from the time-sorted groups holds. */
  lemma DatasetMeaning(readings: seq<Reading>, keys: seq<string>, groups: map<string, seq<Reading>>,
                       sorted: map<string, seq<Reading>>, i: nat)
    requires forall d :: d in groups <==> d in keys
    requires forall d :: d in groups ==> groups[d] == OfDevice(readings, d)
    requires sorted.Keys == groups.Keys
    requires forall d :: d in sorted ==> sorted[d] == SortBy(groups[d], Earlier)
    requires i < |keys|
    ensures var ds := BuildDatasets(keys, sorted)[i];
      && ds.deviceLabel == keys[i]
      && multiset(ds.data) == multiset(MapSeq(OfDevice(readings, keys[i]), PointOf))
      && (forall a, b :: 0 <= a < b < |ds.data| ==> ds.data[a].x <= ds.data[b].x)
      && |ds.data| == |OfDevice(readings, keys[i])|
      && ds.borderColor == COLORS[i % 5] && ds.backgroundColor == COLORS[i % 5] + "20"
  {
    var g := groups[keys[i]];
    var ordered := SortBy(g, Earlier);
    EarlierTotal();
    SortMapMultiset(g, Earlier, PointOf);
    SortSorted(g, Earlier);
    var ds := BuildDatasets(keys, sorted)[i];
    assert ds.data == MapSeq(ordered, PointOf);
    forall a, b | 0 <= a < b < |ds.data| ensures ds.data[a].x <= ds.data[b].x {
      assert Earlier(ordered[a], ordered[b]);
    }
  }

  /**
   * The chart: one line per distinct device, in first-occurrence order, with
   * exactly that device's readings as points, oldest first, colours cycling
   * through the palette, and as many points in all as readings.
   */
  method ChartData(readings: seq<Reading>) returns (datasets: seq<Dataset>)
    ensures |datasets| == |DevicesInOrder(readings)|
    ensures forall i :: 0 <= i < |datasets| ==> datasets[i].deviceLabel == DevicesInOrder(readings)[i]
    ensures forall i :: 0 <= i < |datasets| ==>
              multiset(datasets[i].data) == multiset(MapSeq(OfDevice(readings, datasets[i].deviceLabel), PointOf))
    ensures forall i :: 0 <= i < |datasets| ==>
              forall a, b :: 0 <= a < b < |datasets[i].data| ==> datasets[i].data[a].x <= datasets[i].data[b].x
    ensures forall i :: 0 <= i < |datasets| ==>
              datasets[i].borderColor == COLORS[i % 5] && datasets[i].backgroundColor == COLORS[i % 5] + "20"
    ensures PointCount(datasets) == |readings|
    ensures |datasets| > 0 <==> HasData(readings)
  {
    var keys, groups := GroupByDevice(readings);
    var sorted := SortGroups(keys, groups);
    datasets := BuildDatasets(keys, sorted);
    forall i | 0 <= i < |datasets|
      ensures datasets[i].deviceLabel == keys[i]
      ensures multiset(datasets[i].data) == multiset(MapSeq(OfDevice(readings, keys[i]), PointOf))
      ensures forall a, b :: 0 <= a < b < |datasets[i].data| ==> datasets[i].data[a].x <= datasets[i].data[b].x
      ensures |datasets[i].data| == |OfDevice(readings, keys[i])|
      ensures datasets[i].borderColor == COLORS[i % 5] && datasets[i].backgroundColor == COLORS[i % 5] + "20"
    {
      DatasetMeaning(readings, keys, groups, sorted, i);
    }
    PointCountIsGroupSizes(datasets, keys, readings);
    GroupSizesTotal(readings);
    if readings != [] {
      assert readings[0] in readings;
    }
  }
}
