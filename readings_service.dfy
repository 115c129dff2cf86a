/**
 * The reading store: an append-only collection of rows with creation, a
 * filtered and time-windowed listing, the latest reading of each device,
 * lookup by id and two counts. The database is modelled by the semantics of
 * the queries the service sends it.
 */
module ReadingsService {
  import opened Wrappers
  import opened Seqs
  import opened ReadingEntity
  import opened CreateReadingDto
  import opened QueryReadingDto

  /** Rows returned by a list query that names no limit. */
  const DEFAULT_LIMIT: nat := 1000

  /** The default listing window: the last 24 hours, in milliseconds. */
  const DAY_MS: int := 24 * 60 * 60 * 1000

  const CREATE_FAILURE_PREFIX: string := "Failed to create reading: "

  datatype HttpException =
    | BadRequest(message: string)
    | NotFound(id: ReadingId)    // "Reading with ID <id> not found"

  /** What a failed save throws: an `Error` with its message, or anything else. */
  datatype Thrown = ErrorThrown(message: string) | NonErrorThrown

  function FailureMessage(t: Thrown): string
  {
    CREATE_FAILURE_PREFIX + (if t.ErrorThrown? then t.message else "Unknown error")
  }

  /** A JavaScript string that is present and not empty. */
  predicate Truthy(s: Option<string>)
  {
    s.Some? && s.value != ""
  }

  /** The stored timestamp: the supplied one, parsed by `dateOf`, else `now`. */
  function ResolveTimestamp(t: Option<string>, now: Instant, dateOf: string -> Instant): Instant
  {
    if Truthy(t) then dateOf(t.value) else now
  }

  // ---------------------------------------------------------------------------
  // Row identity

  /** Every row's id is below `next` and no two rows share an id. */
  predicate IdsFresh(rows: seq<Reading>, next: ReadingId)
  {
    && (forall i :: 0 <= i < |rows| ==> rows[i].id < next)
    && (forall i, j :: 0 <= i < j < |rows| ==> rows[i].id != rows[j].id)
  }

  /** The first row with the given id. */
  function FindById(rows: seq<Reading>, id: ReadingId): (r: Option<Reading>)
    ensures r.Some? ==> r.value in rows && r.value.id == id
    ensures r.None? <==> forall x :: x in rows ==> x.id != id
  {
    if rows == [] then None
    else if rows[0].id == id then Some(rows[0])
    else FindById(rows[1..], id)
  }

  /** A row appended with a fresh id is found by its id, and every other lookup is unaffected. */
  lemma {:induction false} FindAfterAppend(rows: seq<Reading>, r: Reading, id: ReadingId)
    requires forall x :: x in rows ==> x.id < r.id
    ensures FindById(rows + [r], id) == if FindById(rows, id).Some? then FindById(rows, id)
                                        else if id == r.id then Some(r) else None
  {
    if rows != [] {
      assert (rows + [r])[1..] == rows[1..] + [r];
      FindAfterAppend(rows[1..], r, id);
    } else {
      assert [r][1..] == [];
    }
  }

  // ---------------------------------------------------------------------------
  // List query

  /** One `andWhere` condition of the list query. */
  datatype Clause =
    | DeviceIdIs(deviceId: string)
    | TimestampFrom(from: Instant)    // reading.timestamp >= from
    | TimestampUntil(until: Instant)  // reading.timestamp <= until

  predicate Holds(c: Clause, r: Reading)
  {
    match c
    case DeviceIdIs(d) => r.deviceId == d
    case TimestampFrom(t) => r.timestamp >= t
    case TimestampUntil(t) => r.timestamp <= t
  }

  predicate HoldsAll(where: seq<Clause>, r: Reading)
  {
    forall i :: 0 <= i < |where| ==> Holds(where[i], r)
  }

  function WherePred(where: seq<Clause>): Reading -> bool
  {
    r => HoldsAll(where, r)
  }

  /** `ORDER BY timestamp DESC`: newer rows first, ties in any order. */
  predicate NewestFirst(a: Reading, b: Reading)
  {
    a.timestamp >= b.timestamp
  }

  /** What the database returns for the built query: matching rows, newest first, at most `limit`. */
  function RunQuery(rows: seq<Reading>, where: seq<Clause>, limit: nat): seq<Reading>
  {
    Take(SortBy(Filter(rows, WherePred(where)), NewestFirst), limit)
  }

  /** The lower time bound of a query: its start date, or 24 hours before `now`. */
  function WindowStart(q: QueryReadingDto, now: Instant, dateOf: string -> Instant): Instant
  {
    if Truthy(q.startDate) then dateOf(q.startDate.value) else now - DAY_MS
  }

  /** The rows a list query selects, stated from the query's fields. */
  predicate MatchesQuery(q: QueryReadingDto, now: Instant, dateOf: string -> Instant, r: Reading)
  {
    && (Truthy(q.deviceId) ==> r.deviceId == q.deviceId.value)
    && r.timestamp >= WindowStart(q, now, dateOf)
    && (Truthy(q.endDate) ==> r.timestamp <= dateOf(q.endDate.value))
  }

  function MatchPred(q: QueryReadingDto, now: Instant, dateOf: string -> Instant): Reading -> bool
  {
    r => MatchesQuery(q, now, dateOf, r)
  }

  function Matching(rows: seq<Reading>, q: QueryReadingDto, now: Instant, dateOf: string -> Instant): seq<Reading>
  {
    Filter(rows, MatchPred(q, now, dateOf))
  }

  /** The limits validation admits; a query without one uses `DEFAULT_LIMIT`. */
  predicate LimitInBounds(q: QueryReadingDto)
  {
    q.limit.Some? ==> MIN_LIMIT <= q.limit.value <= MAX_LIMIT
  }

  function LimitOf(q: QueryReadingDto): nat
    requires LimitInBounds(q)
  {
    if q.limit.Some? then q.limit.value else DEFAULT_LIMIT
  }

  /** Every query the validation pipe lets through meets the limit bounds the store relies on. */
  lemma AcceptedQueryLimitInBounds(q: QueryReadingPayload, isDateString: string -> bool)
    requires AcceptQuery(q, isDateString).Ok?
    ensures LimitInBounds(AcceptQuery(q, isDateString).value)
  {
  }

  lemma NewestFirstTotal()
    ensures TotalPreorder(NewestFirst)
  {
  }

  /** Clauses equivalent to the query's fields select exactly the matching rows. */
  lemma QueryFilterMatches(rows: seq<Reading>, where: seq<Clause>,
                           q: QueryReadingDto, now: Instant, dateOf: string -> Instant)
    requires forall r :: HoldsAll(where, r) <==> MatchesQuery(q, now, dateOf, r)
    ensures Filter(rows, WherePred(where)) == Matching(rows, q, now, dateOf)
  {
    FilterExt(rows, WherePred(where), MatchPred(q, now, dateOf));
  }

  /**
   * The result of the query the service builds, given clauses equivalent to
   * the query's fields: only matching stored rows, newest first, as many as
   * the limit allows, and no matching row newer than a returned one left out.
   */
  lemma RunQueryMeaning(rows: seq<Reading>, where: seq<Clause>, limit: nat,
                        q: QueryReadingDto, now: Instant, dateOf: string -> Instant)
    requires forall r :: HoldsAll(where, r) <==> MatchesQuery(q, now, dateOf, r)
    ensures forall r :: r in RunQuery(rows, where, limit) ==> r in rows && MatchesQuery(q, now, dateOf, r)
    ensures SortedBy(RunQuery(rows, where, limit), NewestFirst)
    ensures |RunQuery(rows, where, limit)| == Min(limit, |Matching(rows, q, now, dateOf)|)
    ensures forall m, r ::
              (m in rows && MatchesQuery(q, now, dateOf, m) && r in RunQuery(rows, where, limit) && m.timestamp > r.timestamp)
              ==> m in RunQuery(rows, where, limit)
    ensures multiset(RunQuery(rows, where, limit)) <= multiset(rows)
  {
    var m := Matching(rows, q, now, dateOf);
    QueryFilterMatches(rows, where, q, now, dateOf);
    var res := Take(SortBy(m, NewestFirst), limit);
    assert res == RunQuery(rows, where, limit);
    NewestFirstTotal();
    TopN(m, NewestFirst, limit);
    FilterSubMultiset(rows, MatchPred(q, now, dateOf));
    forall r | r in res ensures r in rows && MatchesQuery(q, now, dateOf, r) {
      assert r in multiset(m);
    }
    forall x, r | x in rows && MatchesQuery(q, now, dateOf, x) && r in res && x.timestamp > r.timestamp
      ensures x in res
    {
      assert x in m;
      assert !NewestFirst(r, x);
    }
  }

  // ---------------------------------------------------------------------------
  // Latest reading per device

  /** The distinct device ids among `rows`. */
  function DeviceIds(rows: seq<Reading>): set<string>
  {
    set r | r in rows :: r.deviceId
  }

  /** No row of `r`'s device in `rows` is newer than `r`. */
  predicate IsLatestOf(rows: seq<Reading>, r: Reading)
  {
    forall s :: s in rows && s.deviceId == r.deviceId ==> s.timestamp <= r.timestamp
  }

  function LatestPred(rows: seq<Reading>): Reading -> bool
  {
    r => IsLatestOf(rows, r)
  }

  /** `ORDER BY deviceId ASC`. */
  predicate DeviceOrder(a: Reading, b: Reading)
  {
    StrLe(a.deviceId, b.deviceId)
  }

  /** The join of each row with its device's maximum timestamp, ordered by device id. */
  function LatestByDevice(rows: seq<Reading>): seq<Reading>
  {
    SortBy(Filter(rows, LatestPred(rows)), DeviceOrder)
  }

  lemma DeviceOrderTotal()
    ensures TotalPreorder(DeviceOrder)
  {
    forall a: Reading, b: Reading ensures DeviceOrder(a, b) || DeviceOrder(b, a) {
      StrLeTotal(a.deviceId, b.deviceId);
    }
    forall a: Reading, b: Reading, c: Reading | DeviceOrder(a, b) && DeviceOrder(b, c)
      ensures DeviceOrder(a, c)
    {
      StrLeTransitive(a.deviceId, b.deviceId, c.deviceId);
    }
  }

  /** Every device with a row has a row at its maximum timestamp. */
  lemma {:induction false} LatestExists(rows: seq<Reading>, d: string)
    requires d in DeviceIds(rows)
    ensures exists r :: r in rows && r.deviceId == d && IsLatestOf(rows, r)
  {
    var t := rows[1..];
    assert rows == [rows[0]] + t;
    if d in DeviceIds(t) {
      LatestExists(t, d);
      var r :| r in t && r.deviceId == d && IsLatestOf(t, r);
      if rows[0].deviceId == d && rows[0].timestamp > r.timestamp {
        assert IsLatestOf(rows, rows[0]);
      } else {
        assert IsLatestOf(rows, r);
      }
    } else {
      assert rows[0].deviceId == d;
      assert IsLatestOf(rows, rows[0]);
    }
  }

  /**
   * The latest-per-device result holds exactly the rows at their device's
   * maximum timestamp (ties all kept), each once per stored copy, covers
   * every device, and is ordered by device id.
   */
  lemma LatestByDeviceMeaning(rows: seq<Reading>)
    ensures var res := LatestByDevice(rows);
      && (forall r :: r in res <==> r in rows && IsLatestOf(rows, r))
      && (forall d :: d in DeviceIds(rows) ==> exists r :: r in res && r.deviceId == d)
      && SortedBy(res, DeviceOrder)
      && multiset(res) <= multiset(rows)
  {
    var kept := Filter(rows, LatestPred(rows));
    var res := LatestByDevice(rows);
    DeviceOrderTotal();
    SortSorted(kept, DeviceOrder);
    FilterSubMultiset(rows, LatestPred(rows));
    forall r ensures r in res <==> r in rows && IsLatestOf(rows, r) {
      assert r in res <==> r in multiset(kept);
    }
    forall d | d in DeviceIds(rows) ensures exists r :: r in res && r.deviceId == d {
      LatestExists(rows, d);
      var r :| r in rows && r.deviceId == d && IsLatestOf(rows, r);
      assert r in res;
    }
  }

  /** Two readings of one device and one of another: the newer of the first and the second are returned. */
  lemma LatestByDeviceExample(a1: Reading, a2: Reading, b1: Reading)
    requires a1.deviceId == "GH001" && a2.deviceId == "GH001" && b1.deviceId == "GH002"
    requires a1.timestamp < a2.timestamp
    ensures LatestByDevice([a1, a2, b1]) == [a2, b1]
  {
    var rows := [a1, a2, b1];
    LatestOfExample(a1, a2, b1);
    FilterOfThree(a1, a2, b1, LatestPred(rows));
    GH001BeforeGH002();
    SortOfTwo(a2, b1, DeviceOrder);
  }

  lemma LatestOfExample(a1: Reading, a2: Reading, b1: Reading)
    requires a1.deviceId == "GH001" && a2.deviceId == "GH001" && b1.deviceId == "GH002"
    requires a1.timestamp < a2.timestamp
    ensures var rows := [a1, a2, b1];
      !IsLatestOf(rows, a1) && IsLatestOf(rows, a2) && IsLatestOf(rows, b1)
  {
    var rows := [a1, a2, b1];
    assert "GH001" != "GH002" by { assert "GH001"[4] != "GH002"[4]; }
    assert a2 in rows;
    forall s | s in rows && s.deviceId == a2.deviceId ensures s.timestamp <= a2.timestamp {
      assert s == a1 || s == a2;
    }
    forall s | s in rows && s.deviceId == b1.deviceId ensures s.timestamp <= b1.timestamp {
      assert s == b1;
    }
  }

  lemma SortOfTwo(a: Reading, b: Reading, le: (Reading, Reading) -> bool)
    requires le(a, b)
    ensures SortBy([a, b], le) == [a, b]
  {
    assert [a, b][1..] == [b];
    assert [b][1..] == [];
    assert SortBy([b], le) == [b];
  }

  lemma FilterOfThree(a: Reading, b: Reading, c: Reading, p: Reading -> bool)
    requires !p(a) && p(b) && p(c)
    ensures Filter([a, b, c], p) == [b, c]
  {
    assert [a, b, c][1..] == [b, c];
    assert [b, c][1..] == [c];
    assert [c][1..] == [];
  }

  lemma GH001BeforeGH002()
    ensures StrLe("GH001", "GH002")
  {
    assert "GH001"[1..] == "H001" && "GH002"[1..] == "H002";
    assert "H001"[1..] == "001" && "H002"[1..] == "002";
    assert "001"[1..] == "01" && "002"[1..] == "02";
    assert "01"[1..] == "1" && "02"[1..] == "2";
    assert StrLe("1", "2");
    assert StrLe("01", "02");
    assert StrLe("001", "002");
    assert StrLe("H001", "H002");
  }

  /** Distinct devices never outnumber readings; there is one when there is a reading. */
  lemma {:induction false} DeviceCountBounds(rows: seq<Reading>)
    ensures |DeviceIds(rows)| <= |rows|
    ensures rows != [] ==> |DeviceIds(rows)| >= 1
  {
    if rows != [] {
      DeviceCountBounds(rows[1..]);
      assert rows == [rows[0]] + rows[1..];
      assert DeviceIds(rows) == {rows[0].deviceId} + DeviceIds(rows[1..]);
    }
  }

  // ---------------------------------------------------------------------------
  // The service

  class ReadingsService {
    /** The stored rows, oldest first; rows are only ever appended. */
    var rows: seq<Reading>
    /** The id the next saved row receives. */
    var nextId: ReadingId

    ghost predicate Valid()
      reads this
    {
      IdsFresh(rows, nextId)
    }

    constructor ()
      ensures Valid() && rows == []
    {
      rows := [];
      nextId := 0;
    }

    /**
     * Stores a validated submission with the supplied timestamp or `now`.
     * `saveError` is what the database throws when the save fails.
     */
    method Create(dto: CreateReadingDto, now: Instant, dateOf: string -> Instant, saveError: Option<Thrown>)
      returns (result: Result<Reading, HttpException>)
      requires Valid()
      modifies this
      ensures Valid()
      ensures saveError.None? ==>
        && result == Ok(Reading(old(nextId), dto.deviceId, ResolveTimestamp(dto.timestamp, now, dateOf),
                                dto.nitrogen, dto.phosphorus, dto.ph))
        && rows == old(rows) + [result.value]
        && FindById(rows, result.value.id) == Some(result.value)
        && forall id :: id != result.value.id ==> FindById(rows, id) == FindById(old(rows), id)
      ensures saveError.Some? ==>
        && result == Err(BadRequest(FailureMessage(saveError.value)))
        && CREATE_FAILURE_PREFIX <= result.error.message
        && rows == old(rows)
    {
      if saveError.Some? {
        result := Err(BadRequest(FailureMessage(saveError.value)));
        return;
      }
      var timestamp := if Truthy(dto.timestamp) then dateOf(dto.timestamp.value) else now;
      var reading := Reading(nextId, dto.deviceId, timestamp, dto.nitrogen, dto.phosphorus, dto.ph);
      forall id ensures FindById(rows + [reading], id) == if FindById(rows, id).Some? then FindById(rows, id)
                                                          else if id == reading.id then Some(reading) else None {
        FindAfterAppend(rows, reading, id);
      }
      rows := rows + [reading];
      nextId := nextId + 1;
      result := Ok(reading);
    }

    /**
     * The rows in the query's window (from its start date, else from 24 hours
     * before `now`; up to its end date if any), of its device if one is named,
     * newest first, at most the limit (1000 by default).
     */
    method FindAll(q: QueryReadingDto, now: Instant, dateOf: string -> Instant) returns (result: seq<Reading>)
      requires LimitInBounds(q)
      ensures forall r :: r in result ==> r in rows && MatchesQuery(q, now, dateOf, r)
      ensures forall i, j :: 0 <= i < j < |result| ==> result[i].timestamp >= result[j].timestamp
      ensures |result| == Min(LimitOf(q), |Matching(rows, q, now, dateOf)|)
      ensures forall m, r :: m in rows && MatchesQuery(q, now, dateOf, m) && r in result && m.timestamp > r.timestamp
                ==> m in result
      ensures multiset(result) <= multiset(rows)
    {
      var limit := if q.limit.Some? then q.limit.value else DEFAULT_LIMIT;
      var defaultStartDate := now - DAY_MS;
      var where: seq<Clause> := [];
      if Truthy(q.deviceId) {
        where := where + [DeviceIdIs(q.deviceId.value)];
      }
      if Truthy(q.startDate) {
        where := where + [TimestampFrom(dateOf(q.startDate.value))];
      } else {
        where := where + [TimestampFrom(defaultStartDate)];
      }
      if Truthy(q.endDate) {
        where := where + [TimestampUntil(dateOf(q.endDate.value))];
      }
      forall r ensures HoldsAll(where, r) <==> MatchesQuery(q, now, dateOf, r) {
        if HoldsAll(where, r) {
          assert Truthy(q.deviceId) ==> Holds(where[0], r);
          assert Holds(where[if Truthy(q.deviceId) then 1 else 0], r);
          assert Truthy(q.endDate) ==> Holds(where[|where| - 1], r);
        }
      }
      result := RunQuery(rows, where, limit);
      RunQueryMeaning(rows, where, limit, q, now, dateOf);
    }

    /** For every device, its rows at the device's maximum timestamp, ordered by device id. */
    method FindLatestByDevice() returns (result: seq<Reading>)
      ensures forall r :: r in result <==> r in rows && IsLatestOf(rows, r)
      ensures forall d :: d in DeviceIds(rows) ==> exists r :: r in result && r.deviceId == d
      ensures forall i, j :: 0 <= i < j < |result| ==> StrLe(result[i].deviceId, result[j].deviceId)
      ensures multiset(result) <= multiset(rows)
    {
      result := LatestByDevice(rows);
      LatestByDeviceMeaning(rows);
    }

    /** The row with the given id, or a not-found failure when there is none. */
    method FindOne(id: ReadingId) returns (result: Result<Reading, HttpException>)
      ensures result.Ok? ==> result.value in rows && result.value.id == id
      ensures result.Err? ==> result.error == NotFound(id)
      ensures result.Err? <==> forall r :: r in rows ==> r.id != id
    {
      var found := FindById(rows, id);
      if found.None? {
        result := Err(NotFound(id));
      } else {
        result := Ok(found.value);
      }
    }

    /** The number of distinct device ids among the rows. */
    method GetDeviceCount() returns (count: nat)
      ensures count == |DeviceIds(rows)|
      ensures count <= |rows|
    {
      count := |DeviceIds(rows)|;
      DeviceCountBounds(rows);
    }

    /** The number of rows. */
    method GetTotalReadings() returns (count: nat)
      ensures count == |rows|
    {
      count := |rows|;
    }
  }
}
