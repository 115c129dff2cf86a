/**
 * The rules of the list query (`QueryReadingDto`): every field is optional;
 * the device id only has to be a string, the dates date strings, and the
 * limit a number in [1, 1000].
 */
module QueryReadingDto {
  import opened Wrappers
  import opened FieldRules

  const MIN_LIMIT: int := 1
  const MAX_LIMIT: int := 1000

  /** The query string as received; `limit` is already converted to a number. */
  datatype QueryReadingPayload = QueryReadingPayload(
    deviceId: Value, startDate: Value, endDate: Value, limit: Value)

  /** A query that passed validation, as the store receives it. */
  datatype QueryReadingDto = QueryReadingDto(
    deviceId: Option<string>, startDate: Option<string>, endDate: Option<string>, limit: Option<int>)

  /** The query with no parameters. */
  const EMPTY_QUERY: QueryReadingPayload := QueryReadingPayload(Absent, Absent, Absent, Absent)

  function LimitFailures(v: Value): set<Constraint>
  {
    OptionalFailures(v, AnyNumberFailures(v, MIN_LIMIT as real, MAX_LIMIT as real))
  }

  /** The validation errors of a query, one per failing property, in declaration order. */
  function ValidateQuery(q: QueryReadingPayload, isDateString: string -> bool): seq<FieldError>
  {
    ErrorFor("deviceId", OptionalFailures(q.deviceId, StringFailures(q.deviceId)))
    + ErrorFor("startDate", OptionalFailures(q.startDate, DateStringFailures(q.startDate, isDateString)))
    + ErrorFor("endDate", OptionalFailures(q.endDate, DateStringFailures(q.endDate, isDateString)))
    + ErrorFor("limit", LimitFailures(q.limit))
  }

  // ---------------------------------------------------------------------------
  // The field rules, stated directly

  predicate OptionalDate(v: Value, isDateString: string -> bool)
  {
    v.Absent? || (v.Text? && isDateString(v.text))
  }

  /** Absent, or a number in [1, 1000] inclusive; out-of-range values are rejected, not clamped. */
  predicate LimitAccepted(v: Value)
  {
    v.Absent? || (v.Number? && MIN_LIMIT as real <= v.number <= MAX_LIMIT as real)
  }

  predicate QueryAccepted(q: QueryReadingPayload, isDateString: string -> bool)
  {
    && (q.deviceId.Absent? || q.deviceId.Text?)
    && OptionalDate(q.startDate, isDateString)
    && OptionalDate(q.endDate, isDateString)
    && LimitAccepted(q.limit)
  }

  /** A query passes validation iff every field rule holds. */
  lemma ValidateQueryAcceptsExactly(q: QueryReadingPayload, isDateString: string -> bool)
    ensures ValidateQuery(q, isDateString) == [] <==> QueryAccepted(q, isDateString)
  {
    AnyNumberFailuresExact(q.limit, MIN_LIMIT as real, MAX_LIMIT as real);
    if !q.deviceId.Absent? && !q.deviceId.Text? {
      assert ErrorFor("deviceId", OptionalFailures(q.deviceId, StringFailures(q.deviceId))) != [];
    }
  }

  /** The empty query is valid, and the device id of a query is any string: no pattern applies. */
  lemma QueryFieldsOptional(deviceId: string, isDateString: string -> bool)
    ensures ValidateQuery(EMPTY_QUERY, isDateString) == []
    ensures ValidateQuery(QueryReadingPayload(Text(deviceId), Absent, Absent, Absent), isDateString) == []
  {
  }

  /** Start and end dates are checked one by one: a start after the end still passes. */
  lemma NoDateOrderCheck(startDate: string, endDate: string, isDateString: string -> bool)
    requires isDateString(startDate) && isDateString(endDate)
    ensures ValidateQuery(QueryReadingPayload(Absent, Text(startDate), Text(endDate), Absent), isDateString) == []
  {
  }

  /**
   * The limit bounds are inclusive at 1 and 1000; 0, 1001 and a non-number
   * (such as the `NaN` that non-numeric text converts to) are rejected.
   */
  lemma LimitExamples()
    ensures LimitAccepted(Number(1.0)) && LimitAccepted(Number(1000.0)) && LimitAccepted(Absent)
    ensures !LimitAccepted(Number(0.0)) && !LimitAccepted(Number(1001.0)) && !LimitAccepted(OtherValue)
  {
  }

  /**
   * The validation pipe for the list query: the typed query, or the list of
   * field errors. A limit that is a number is passed on as its whole part.
   */
  function AcceptQuery(q: QueryReadingPayload, isDateString: string -> bool): (r: Result<QueryReadingDto, seq<FieldError>>)
    ensures r.Ok? <==> QueryAccepted(q, isDateString)
    ensures r.Err? ==> r.error != []
    ensures r.Ok? ==> r.value.limit.Some? ==> MIN_LIMIT <= r.value.limit.value <= MAX_LIMIT
    ensures r.Ok? ==> (r.value.limit.None? <==> q.limit.Absent?)
    ensures r.Ok? && q.limit.Number? && q.limit.number.Floor as real == q.limit.number ==>
              r.value.limit == Some(q.limit.number.Floor)
    ensures r.Ok? ==> r.value.deviceId == (if q.deviceId.Text? then Some(q.deviceId.text) else None)
                      && r.value.startDate == (if q.startDate.Text? then Some(q.startDate.text) else None)
                      && r.value.endDate == (if q.endDate.Text? then Some(q.endDate.text) else None)
  {
    ValidateQueryAcceptsExactly(q, isDateString);
    var errors := ValidateQuery(q, isDateString);
    if errors != [] then Err(errors)
    else
      Ok(QueryReadingDto(
        if q.deviceId.Text? then Some(q.deviceId.text) else None,
        if q.startDate.Text? then Some(q.startDate.text) else None,
        if q.endDate.Text? then Some(q.endDate.text) else None,
        if q.limit.Number? then Some(q.limit.number.Floor) else None))
  }
}
