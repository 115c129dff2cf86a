/**
 * The rules a submitted reading must satisfy before it reaches the store
 * (the `CreateReadingDto` of the backend), with the backend's own copies of
 * the ranges and the device-id pattern.
 */
module CreateReadingDto {
  import opened Wrappers
  import opened Decimals
  import opened Pattern
  import opened FieldRules
  import opened ValidationConstants
  import opened ReadingEntity

  /** The backend's copy of the accepted ranges. */
  const BACKEND_VALIDATION_RANGES: MeasureRanges :=
    MeasureRanges(Range(0.0, 500.0), Range(0.0, 200.0), Range(0.0, 14.0))

  /** The backend's copy of `^[A-Z]{2}\d{3}$`. */
  const BACKEND_DEVICE_ID_PATTERN: seq<Atom> := [Repeat(AsciiUpper, 2), Repeat(AsciiDigit, 3)]

  const NITROGEN_MAX_DECIMALS: nat := 2
  const PHOSPHORUS_MAX_DECIMALS: nat := 2
  const PH_MAX_DECIMALS: nat := 1

  /** The request body as received. */
  datatype CreateReadingPayload = CreateReadingPayload(
    deviceId: Value, timestamp: Value, nitrogen: Value, phosphorus: Value, ph: Value)

  /** The request body once every rule holds. */
  datatype CreateReadingDto = CreateReadingDto(
    deviceId: string, timestamp: Option<string>, nitrogen: real, phosphorus: real, ph: real)

  // ---------------------------------------------------------------------------
  // The decorators of each property, as failed-constraint sets

  function DeviceIdFailures(v: Value): set<Constraint>
  {
    StringFailures(v) + MatchesFailures(v, BACKEND_DEVICE_ID_PATTERN)
  }

  function TimestampFailures(v: Value, isDateString: string -> bool): set<Constraint>
  {
    OptionalFailures(v, DateStringFailures(v, isDateString))
  }

  function NitrogenFailures(v: Value): set<Constraint>
  {
    var r := BACKEND_VALIDATION_RANGES.nitrogen;
    NumberFailures(v, NITROGEN_MAX_DECIMALS, r.min, r.max)
  }

  function PhosphorusFailures(v: Value): set<Constraint>
  {
    var r := BACKEND_VALIDATION_RANGES.phosphorus;
    NumberFailures(v, PHOSPHORUS_MAX_DECIMALS, r.min, r.max)
  }

  function PhFailures(v: Value): set<Constraint>
  {
    var r := BACKEND_VALIDATION_RANGES.ph;
    NumberFailures(v, PH_MAX_DECIMALS, r.min, r.max)
  }

  /** The validation errors of a payload, one per failing property, in declaration order. */
  function Validate(p: CreateReadingPayload, isDateString: string -> bool): seq<FieldError>
  {
    ErrorFor("deviceId", DeviceIdFailures(p.deviceId))
    + ErrorFor("timestamp", TimestampFailures(p.timestamp, isDateString))
    + ErrorFor("nitrogen", NitrogenFailures(p.nitrogen))
    + ErrorFor("phosphorus", PhosphorusFailures(p.phosphorus))
    + ErrorFor("ph", PhFailures(p.ph))
  }

  // ---------------------------------------------------------------------------
  // The field rules, stated directly

  predicate DeviceIdAccepted(v: Value)
  {
    v.Text? && IsDeviceIdShape(v.text)
  }

  predicate TimestampAccepted(v: Value, isDateString: string -> bool)
  {
    v.Absent? || (v.Text? && isDateString(v.text))
  }

  /** A number within `r`, inclusive at both ends, with at most `k` decimals. */
  predicate MeasureAccepted(v: Value, r: Range, k: nat)
  {
    v.Number? && InRange(r, v.number) && HasAtMostDecimals(v.number, k)
  }

  predicate PayloadAccepted(p: CreateReadingPayload, isDateString: string -> bool)
  {
    && DeviceIdAccepted(p.deviceId)
    && TimestampAccepted(p.timestamp, isDateString)
    && MeasureAccepted(p.nitrogen, Range(0.0, 500.0), 2)
    && MeasureAccepted(p.phosphorus, Range(0.0, 200.0), 2)
    && MeasureAccepted(p.ph, Range(0.0, 14.0), 1)
  }

  /** The rules of a typed submission: what every accepted payload becomes. */
  predicate DtoRules(d: CreateReadingDto, isDateString: string -> bool)
  {
    && IsDeviceIdShape(d.deviceId)
    && (d.timestamp.Some? ==> isDateString(d.timestamp.value))
    && InRange(Range(0.0, 500.0), d.nitrogen) && HasAtMostDecimals(d.nitrogen, 2)
    && InRange(Range(0.0, 200.0), d.phosphorus) && HasAtMostDecimals(d.phosphorus, 2)
    && InRange(Range(0.0, 14.0), d.ph) && HasAtMostDecimals(d.ph, 1)
  }

  // ---------------------------------------------------------------------------
  // Validation accepts exactly the payloads the field rules describe

  lemma DeviceIdFailuresExact(v: Value)
    ensures DeviceIdFailures(v) == {} <==> DeviceIdAccepted(v)
  {
    if v.Text? {
      DeviceIdPatternExact(v.text);
    } else {
      assert IsString in DeviceIdFailures(v);
    }
  }

  /** The names of the properties a list of errors reports. */
  function Reported(errors: seq<FieldError>): set<string>
  {
    set e | e in errors :: e.property
  }

  lemma ReportedAppend(a: seq<FieldError>, b: seq<FieldError>)
    ensures Reported(a + b) == Reported(a) + Reported(b)
  {
    forall n | n in Reported(a + b) ensures n in Reported(a) + Reported(b) {
      var e :| e in a + b && e.property == n;
    }
    forall n | n in Reported(a) + Reported(b) ensures n in Reported(a + b) {
      if n in Reported(a) {
        var e :| e in a && e.property == n;
        assert e in a + b;
      } else {
        var e :| e in b && e.property == n;
        assert e in a + b;
      }
    }
  }

  /** The properties whose own rule fails. */
  function FailingProperties(p: CreateReadingPayload, isDateString: string -> bool): set<string>
  {
    (if DeviceIdAccepted(p.deviceId) then {} else {"deviceId"})
    + (if TimestampAccepted(p.timestamp, isDateString) then {} else {"timestamp"})
    + (if MeasureAccepted(p.nitrogen, Range(0.0, 500.0), 2) then {} else {"nitrogen"})
    + (if MeasureAccepted(p.phosphorus, Range(0.0, 200.0), 2) then {} else {"phosphorus"})
    + (if MeasureAccepted(p.ph, Range(0.0, 14.0), 1) then {} else {"ph"})
  }

  /** Validation reports exactly the properties whose own rule fails. */
  lemma ValidateReportsFailingFields(p: CreateReadingPayload, isDateString: string -> bool)
    ensures Reported(Validate(p, isDateString)) == FailingProperties(p, isDateString)
  {
    var e1 := ErrorFor("deviceId", DeviceIdFailures(p.deviceId));
    var e2 := ErrorFor("timestamp", TimestampFailures(p.timestamp, isDateString));
    var e3 := ErrorFor("nitrogen", NitrogenFailures(p.nitrogen));
    var e4 := ErrorFor("phosphorus", PhosphorusFailures(p.phosphorus));
    var e5 := ErrorFor("ph", PhFailures(p.ph));
    assert Reported(Validate(p, isDateString))
        == Reported(e1) + Reported(e2) + Reported(e3) + Reported(e4) + Reported(e5) by {
      assert Validate(p, isDateString) == e1 + e2 + e3 + e4 + e5;
      ReportedAppend(e1, e2);
      ReportedAppend(e1 + e2, e3);
      ReportedAppend(e1 + e2 + e3, e4);
      ReportedAppend(e1 + e2 + e3 + e4, e5);
    }
    assert Reported(e1) == (if DeviceIdAccepted(p.deviceId) then {} else {"deviceId"}) by {
      DeviceIdFailuresExact(p.deviceId);
      ReportedErrorFor("deviceId", DeviceIdFailures(p.deviceId));
    }
    assert Reported(e2) == (if TimestampAccepted(p.timestamp, isDateString) then {} else {"timestamp"}) by {
      ReportedErrorFor("timestamp", TimestampFailures(p.timestamp, isDateString));
    }
    assert Reported(e3) == (if MeasureAccepted(p.nitrogen, Range(0.0, 500.0), 2) then {} else {"nitrogen"}) by {
      NumberFailuresExact(p.nitrogen, 2, 0.0, 500.0);
      ReportedErrorFor("nitrogen", NitrogenFailures(p.nitrogen));
    }
    assert Reported(e4) == (if MeasureAccepted(p.phosphorus, Range(0.0, 200.0), 2) then {} else {"phosphorus"}) by {
      NumberFailuresExact(p.phosphorus, 2, 0.0, 200.0);
      ReportedErrorFor("phosphorus", PhosphorusFailures(p.phosphorus));
    }
    assert Reported(e5) == (if MeasureAccepted(p.ph, Range(0.0, 14.0), 1) then {} else {"ph"}) by {
      NumberFailuresExact(p.ph, 1, 0.0, 14.0);
      ReportedErrorFor("ph", PhFailures(p.ph));
    }
  }

  /** Each property is reported exactly when its own rule fails. */
  lemma FailingPropertiesExact(p: CreateReadingPayload, isDateString: string -> bool)
    ensures "deviceId" in FailingProperties(p, isDateString) <==> !DeviceIdAccepted(p.deviceId)
    ensures "timestamp" in FailingProperties(p, isDateString) <==> !TimestampAccepted(p.timestamp, isDateString)
    ensures "nitrogen" in FailingProperties(p, isDateString) <==> !MeasureAccepted(p.nitrogen, Range(0.0, 500.0), 2)
    ensures "phosphorus" in FailingProperties(p, isDateString) <==> !MeasureAccepted(p.phosphorus, Range(0.0, 200.0), 2)
    ensures "ph" in FailingProperties(p, isDateString) <==> !MeasureAccepted(p.ph, Range(0.0, 14.0), 1)
    ensures FailingProperties(p, isDateString) == {} <==> PayloadAccepted(p, isDateString)
  {
    assert "deviceId" != "timestamp" && "deviceId" != "nitrogen" && "deviceId" != "phosphorus" && "deviceId" != "ph";
    assert "timestamp" != "nitrogen" && "timestamp" != "phosphorus" && "timestamp" != "ph";
    assert "nitrogen" != "phosphorus" && "nitrogen" != "ph" && "phosphorus" != "ph";
  }

  lemma ReportedErrorFor(property: string, failures: set<Constraint>)
    ensures Reported(ErrorFor(property, failures)) == if failures == {} then {} else {property}
  {
    if failures != {} {
      assert ErrorFor(property, failures)[0] == FieldError(property, failures);
    }
  }

  /** The payload passes validation iff every field rule holds: one failing field rejects it all. */
  lemma ValidateAcceptsExactly(p: CreateReadingPayload, isDateString: string -> bool)
    ensures Validate(p, isDateString) == [] <==> PayloadAccepted(p, isDateString)
  {
    ValidateReportsFailingFields(p, isDateString);
    FailingPropertiesExact(p, isDateString);
    var all := Validate(p, isDateString);
    if all != [] {
      assert all[0].property in Reported(all);
    }
  }

  /** The validation pipe: the typed submission, or the list of field errors. */
  function Accept(p: CreateReadingPayload, isDateString: string -> bool): (r: Result<CreateReadingDto, seq<FieldError>>)
    ensures r.Ok? <==> PayloadAccepted(p, isDateString)
    ensures r.Ok? ==> DtoRules(r.value, isDateString)
    ensures r.Ok? ==> r.value.deviceId == p.deviceId.text && r.value.nitrogen == p.nitrogen.number
                      && r.value.phosphorus == p.phosphorus.number && r.value.ph == p.ph.number
                      && r.value.timestamp == (if p.timestamp.Text? then Some(p.timestamp.text) else None)
    ensures r.Err? ==> r.error != []
  {
    ValidateAcceptsExactly(p, isDateString);
    var errors := Validate(p, isDateString);
    if errors != [] then Err(errors)
    else
      Ok(CreateReadingDto(
        p.deviceId.text,
        if p.timestamp.Text? then Some(p.timestamp.text) else None,
        p.nitrogen.number, p.phosphorus.number, p.ph.number))
  }

  // ---------------------------------------------------------------------------
  // Examples and agreement with the rest of the system

  lemma DeviceIdExamples()
    ensures DeviceIdAccepted(Text("GH001")) && DeviceIdAccepted(Text("FD999"))
    ensures !DeviceIdAccepted(Text("gh001")) && !DeviceIdAccepted(Text("G001")) && !DeviceIdAccepted(Text("GH0001"))
    ensures !DeviceIdAccepted(Number(12345.0)) && !DeviceIdAccepted(Absent)
  {
    assert !('A' <= "gh001"[0] <= 'Z');
    assert |"G001"| == 4 && |"GH0001"| == 6;
  }

  /** Bounds are inclusive, and pH is limited to one decimal: 6.55 is in range but rejected. */
  lemma MeasureExamples()
    ensures MeasureAccepted(Number(0.0), Range(0.0, 500.0), 2) && MeasureAccepted(Number(500.0), Range(0.0, 500.0), 2)
    ensures !MeasureAccepted(Number(500.01), Range(0.0, 500.0), 2) && !MeasureAccepted(Number(-0.01), Range(0.0, 500.0), 2)
    ensures MeasureAccepted(Number(150.55), Range(0.0, 500.0), 2) && !MeasureAccepted(Number(150.555), Range(0.0, 500.0), 2)
    ensures MeasureAccepted(Number(6.5), Range(0.0, 14.0), 1) && !MeasureAccepted(Number(6.55), Range(0.0, 14.0), 1)
  {
    assert Pow10(2) == 100 && Pow10(1) == 10;
    assert 150.55 * 100.0 == 15055.0;
    assert (150.555 * 100.0).Floor == 15055;
    assert 6.5 * 10.0 == 65.0;
    assert (6.55 * 10.0).Floor == 65;
  }

  /** The backend's constants are the frontend's. */
  lemma BackendCopiesMatchFrontend()
    ensures BACKEND_VALIDATION_RANGES == VALIDATION_RANGES
    ensures BACKEND_DEVICE_ID_PATTERN == DEVICE_ID_PATTERN
  {
  }

  /**
   * Every accepted submission fits the table: the five-character id fits the
   * ten-character column, and each measurement fits its decimal column, whose
   * scale is the number of decimals validation allows.
   */
  lemma AcceptedFitsColumns(d: CreateReadingDto, isDateString: string -> bool, id: ReadingId, at: Instant)
    requires DtoRules(d, isDateString)
    ensures FitsColumns(Reading(id, d.deviceId, at, d.nitrogen, d.phosphorus, d.ph))
    ensures NITROGEN_COLUMN.scale == NITROGEN_MAX_DECIMALS && PHOSPHORUS_COLUMN.scale == PHOSPHORUS_MAX_DECIMALS
    ensures PH_COLUMN.scale == PH_MAX_DECIMALS
  {
    assert Pow10(4) == 10000 && Pow10(2) == 10 * 10 && Pow10(1) == 10;
  }
}
