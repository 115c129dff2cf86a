/**
 * The client cache of readings: the keys its queries are stored under, and
 * the update applied to the cached latest-per-device list when a reading
 * has been created (replace that device's entry, or add one).
 */
module UseReadings {
  import opened Wrappers
  import opened ReadingEntity

  /** The client's list-query parameters. */
  datatype ReadingQueryParams = ReadingQueryParams(
    deviceId: Option<string>, startDate: Option<string>, endDate: Option<string>, limit: Option<int>)

  /** One element of a cache key: a word, or the parameters object of a list query. */
  datatype KeyPart = Word(word: string) | Params(params: ReadingQueryParams)

  type QueryKey = seq<KeyPart>

  const READINGS_KEY: QueryKey := [Word("readings")]
  const LATEST_READINGS_KEY: QueryKey := [Word("readings"), Word("latest")]
  const STATS_KEY: QueryKey := [Word("readings"), Word("stats")]
  const HEALTH_KEY: QueryKey := [Word("health")]

  function ReadingsWithParamsKey(params: ReadingQueryParams): QueryKey
  {
    [Word("readings"), Params(params)]
  }

  /**
   * The reading keys all start with the `readings` key, so invalidating it
   * reaches every one of them and never the health key; and no two of the
   * five keys are equal.
   */
  lemma QueryKeysShareReadingsPrefix(params: ReadingQueryParams)
    ensures READINGS_KEY <= ReadingsWithParamsKey(params)
    ensures READINGS_KEY <= LATEST_READINGS_KEY && READINGS_KEY <= STATS_KEY
    ensures !(READINGS_KEY <= HEALTH_KEY)
    ensures |{READINGS_KEY, ReadingsWithParamsKey(params), LATEST_READINGS_KEY, STATS_KEY, HEALTH_KEY}| == 5
  {
    assert READINGS_KEY[0] != HEALTH_KEY[0];
    assert LATEST_READINGS_KEY[1] != STATS_KEY[1];
    assert ReadingsWithParamsKey(params)[1] != LATEST_READINGS_KEY[1];
    assert ReadingsWithParamsKey(params)[1] != STATS_KEY[1];
    assert |{READINGS_KEY, ReadingsWithParamsKey(params)}| == 2;
    assert |{READINGS_KEY, ReadingsWithParamsKey(params), LATEST_READINGS_KEY}| == 3;
    assert |{READINGS_KEY, ReadingsWithParamsKey(params), LATEST_READINGS_KEY, STATS_KEY}| == 4;
  }

  // ---------------------------------------------------------------------------
  // The latest-readings updater

  /** `findIndex` on the device id: the first entry of device `d`, or -1. */
  function FirstIndexOfDevice(s: seq<Reading>, d: string): (i: int)
    ensures -1 <= i < |s|
    ensures i >= 0 ==> s[i].deviceId == d && forall j :: 0 <= j < i ==> s[j].deviceId != d
    ensures i == -1 <==> forall j :: 0 <= j < |s| ==> s[j].deviceId != d
  {
    if s == [] then -1
    else if s[0].deviceId == d then 0
    else
      var i := FirstIndexOfDevice(s[1..], d);
      if i == -1 then -1 else i + 1
  }

  /** The new cached list: the device's first entry overwritten, or the reading appended. */
  function Upserted(s: seq<Reading>, newReading: Reading): seq<Reading>
  {
    var i := FirstIndexOfDevice(s, newReading.deviceId);
    if i >= 0 then s[i := newReading] else s + [newReading]
  }

  /** At most one entry per device. */
  predicate OnePerDevice(s: seq<Reading>)
  {
    forall i, j :: 0 <= i < j < |s| ==> s[i].deviceId != s[j].deviceId
  }

  /**
   * A known device's first entry is overwritten in place, whatever the
   * timestamps, and everything else stays; an unknown device's reading is
   * appended after the unchanged entries.
   */
  lemma UpsertedMeaning(s: seq<Reading>, newReading: Reading)
    ensures var r := Upserted(s, newReading);
      && newReading in r
      && ((exists k :: 0 <= k < |s| && s[k].deviceId == newReading.deviceId) ==>
            var i := FirstIndexOfDevice(s, newReading.deviceId);
            |r| == |s| && r[i] == newReading
            && (forall j :: 0 <= j < i ==> s[j].deviceId != newReading.deviceId)
            && (forall j :: 0 <= j < |s| && j != i ==> r[j] == s[j]))
      && ((forall k :: 0 <= k < |s| ==> s[k].deviceId != newReading.deviceId) ==>
            r == s + [newReading])
  {
    var i := FirstIndexOfDevice(s, newReading.deviceId);
    var r := Upserted(s, newReading);
    if i >= 0 {
      assert r[i] == newReading;
    } else {
      assert r[|s|] == newReading;
    }
  }

  /** The update keeps the list at one entry per device. */
  lemma {:induction false} UpsertedKeepsOnePerDevice(s: seq<Reading>, newReading: Reading)
    requires OnePerDevice(s)
    ensures OnePerDevice(Upserted(s, newReading))
  {
    var i := FirstIndexOfDevice(s, newReading.deviceId);
    var r := Upserted(s, newReading);
    if i >= 0 {
      forall a, b | 0 <= a < b < |r| ensures r[a].deviceId != r[b].deviceId {
        if a == i {
          assert s[b].deviceId != s[i].deviceId;
        } else if b == i {
          assert s[a].deviceId != s[i].deviceId;
        }
      }
    } else {
      forall a, b | 0 <= a < b < |r| ensures r[a].deviceId != r[b].deviceId {
        if b == |s| {
          assert r[a] == s[a];
        }
      }
    }
  }

  /**
   * The updater given to the cache: `[newReading]` when nothing is cached,
   * else a copy of the cached array with the device's entry replaced or the
   * reading appended. The cached array itself is left as it was.
   */
  method UpdateLatest(oldData: Option<array<Reading>>, newReading: Reading) returns (result: array<Reading>)
    ensures oldData.None? ==> result[..] == [newReading]
    ensures oldData.Some? ==> result[..] == Upserted(oldData.value[..], newReading)
    ensures oldData.Some? ==> result != oldData.value
  {
    if oldData.None? {
      result := new Reading[1](_ => newReading);
      return;
    }
    var a := oldData.value;
    var existingIndex := -1;
    var k := 0;
    while k < a.Length
      invariant 0 <= k <= a.Length
      invariant forall j :: 0 <= j < k ==> a[j].deviceId != newReading.deviceId
    {
      if a[k].deviceId == newReading.deviceId {
        existingIndex := k;
        break;
      }
      k := k + 1;
    }
    var cached := a[..];
    assert existingIndex == FirstIndexOfDevice(cached, newReading.deviceId);
    if existingIndex >= 0 {
      var updated := new Reading[a.Length];
      forall j | 0 <= j < a.Length {
        updated[j] := a[j];
      }
      updated[existingIndex] := newReading;
      assert updated[..] == cached[existingIndex := newReading];
      result := updated;
      assert Upserted(cached, newReading) == cached[existingIndex := newReading];
      assert a[..] == cached;
    } else {
      var appended := new Reading[a.Length + 1];
      forall j | 0 <= j < a.Length {
        appended[j] := a[j];
      }
      appended[a.Length] := newReading;
      assert appended[..] == cached + [newReading];
      result := appended;
      assert Upserted(cached, newReading) == cached + [newReading];
      assert a[..] == cached;
    }
  }
}
