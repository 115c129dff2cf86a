/**
 * The alert rules applied to a reading on the dashboard: a nitrogen level
 * above the alert maximum is an error, a pH outside the optimal band a
 * warning; plus the status colour of a reading and a readable device name.
 */
module AlertUtils {
  import opened ReadingEntity
  import opened ValidationConstants

  /** Why a reading raised an alert, with the measured value and the limits it broke. */
  datatype Reason =
    | NitrogenHigh(value: real, threshold: real)
    | PhOutOfBand(value: real, min: real, max: real)

  datatype Severity = Warning | Error

  datatype AlertInfo = AlertInfo(isTriggered: bool, reasons: seq<Reason>, severity: Severity)

  /** Nitrogen strictly above the alert maximum (200 ppm); the minimum plays no part. */
  predicate NitrogenTooHigh(r: Reading)
  {
    r.nitrogen > ALERT_THRESHOLDS.nitrogen.max
  }

  /** pH strictly outside the optimal band [6.0, 7.0]. */
  predicate PhOutsideBand(r: Reading)
  {
    r.ph < ALERT_THRESHOLDS.ph.min || r.ph > ALERT_THRESHOLDS.ph.max
  }

  function NitrogenReason(r: Reading): Reason
  {
    NitrogenHigh(r.nitrogen, ALERT_THRESHOLDS.nitrogen.max)
  }

  function PhReason(r: Reading): Reason
  {
    PhOutOfBand(r.ph, ALERT_THRESHOLDS.ph.min, ALERT_THRESHOLDS.ph.max)
  }

  /** The alert of a reading: one reason per broken rule, nitrogen first; error severity exactly for nitrogen. */
  function AlertOf(r: Reading): AlertInfo
  {
    var reasons := (if NitrogenTooHigh(r) then [NitrogenReason(r)] else [])
                   + (if PhOutsideBand(r) then [PhReason(r)] else []);
    AlertInfo(NitrogenTooHigh(r) || PhOutsideBand(r), reasons,
              if NitrogenTooHigh(r) then Error else Warning)
  }

  /** Evaluates the alert rules in order, collecting reasons and raising the severity as it goes. */
  method CheckAlerts(reading: Reading) returns (alert: AlertInfo)
    ensures alert == AlertOf(reading)
    ensures alert.isTriggered <==> alert.reasons != []
    ensures NitrogenReason(reading) in alert.reasons <==> reading.nitrogen > 200.0
    ensures PhReason(reading) in alert.reasons <==> reading.ph < 6.0 || reading.ph > 7.0
    ensures alert.severity == Error <==> reading.nitrogen > 200.0
  {
    var reasons: seq<Reason> := [];
    var severity := Warning;
    if reading.nitrogen > ALERT_THRESHOLDS.nitrogen.max {
      reasons := reasons + [NitrogenReason(reading)];
      severity := Error;
    }
    if reading.ph < ALERT_THRESHOLDS.ph.min || reading.ph > ALERT_THRESHOLDS.ph.max {
      reasons := reasons + [PhReason(reading)];
      if severity != Error {
        severity := Warning;
      }
    }
    alert := AlertInfo(|reasons| > 0, reasons, severity);
  }

  /**
   * The shape of every alert: at most two reasons, only reasons of broken
   * rules, nitrogen before pH when both fire, and the severity is a warning
   * whenever nitrogen is fine, also when nothing fired.
   */
  lemma AlertShape(r: Reading)
    ensures var a := AlertOf(r);
      && |a.reasons| <= 2
      && (a.isTriggered <==> |a.reasons| > 0)
      && (forall x :: x in a.reasons ==> x == NitrogenReason(r) || x == PhReason(r))
      && (|a.reasons| == 2 ==> a.reasons == [NitrogenReason(r), PhReason(r)])
      && (!NitrogenTooHigh(r) ==> a.severity == Warning)
      && (!a.isTriggered ==> a.reasons == [] && a.severity == Warning)
  {
  }

  /** The alert depends on nitrogen and pH alone: id, device, time and phosphorus never matter. */
  lemma AlertDependsOnNitrogenAndPh(a: Reading, b: Reading)
    requires a.nitrogen == b.nitrogen && a.ph == b.ph
    ensures AlertOf(a) == AlertOf(b)
  {
  }

  /**
   * The bounds are strict: 200 ppm nitrogen and pH 6.0 or 7.0 raise nothing;
   * the seed data's off-band pH values 5.8, 5.9, 7.1 and 7.2 are warnings.
   */
  lemma AlertBoundaries(r: Reading)
    ensures r.nitrogen == 200.0 && (r.ph == 6.0 || r.ph == 7.0) ==> !AlertOf(r).isTriggered
    ensures (r.nitrogen <= 200.0 && r.ph in {5.8, 5.9, 7.1, 7.2}) ==>
              AlertOf(r) == AlertInfo(true, [PhReason(r)], Warning)
    ensures r.nitrogen == 200.01 && r.ph == 6.5 ==> AlertOf(r) == AlertInfo(true, [NitrogenReason(r)], Error)
  {
  }

  // ---------------------------------------------------------------------------
  // Status colour

  datatype StatusColor = SuccessColor | ErrorColor | WarningColor

  /** `success` when nothing fired, `error` for error severity, `warning` otherwise. */
  function StatusColorOf(r: Reading): (c: StatusColor)
    ensures c == SuccessColor <==> !NitrogenTooHigh(r) && !PhOutsideBand(r)
    ensures c == ErrorColor <==> NitrogenTooHigh(r)
    ensures c == WarningColor <==> !NitrogenTooHigh(r) && PhOutsideBand(r)
  {
    var alert := AlertOf(r);
    if !alert.isTriggered then SuccessColor
    else if alert.severity == Error then ErrorColor
    else WarningColor
  }

  // ---------------------------------------------------------------------------
  // Display name

  /** `substring(0, 2)`: the first two characters, or the whole of a shorter string. */
  function TypePrefix(d: string): (p: string)
    ensures |p| == if |d| < 2 then |d| else 2
    ensures d == p + NumberPart(d)
  {
    if |d| < 2 then d else d[..2]
  }

  /** `substring(2)`: everything after the first two characters, or nothing. */
  function NumberPart(d: string): string
  {
    if |d| < 2 then "" else d[2..]
  }

  /** The names of the known device types, "Device" for any other prefix. */
  function TypeName(prefix: string): string
  {
    if prefix == "GH" then "Greenhouse"
    else if prefix == "FD" then "Field"
    else if prefix == "TB" then "Tunnel"
    else if prefix == "PH" then "Polyhouse"
    else "Device"
  }

  predicate KnownPrefix(prefix: string)
  {
    prefix in {"GH", "FD", "TB", "PH"}
  }

  /** `<type name> <number>`, as in "Greenhouse 001". */
  function DeviceDisplayName(d: string): string
  {
    TypeName(TypePrefix(d)) + " " + NumberPart(d)
  }

  /** The name is a type name, a space and the id after its prefix; "Device" exactly for unknown prefixes. */
  lemma DisplayNameParts(d: string)
    ensures var name := DeviceDisplayName(d);
      && (exists typeName :: typeName in {"Greenhouse", "Field", "Tunnel", "Polyhouse", "Device"}
                         && name == typeName + " " + NumberPart(d))
      && (!KnownPrefix(TypePrefix(d)) <==> "Device " <= name)
  {
    var name := DeviceDisplayName(d);
    var typeName := TypeName(TypePrefix(d));
    assert name == typeName + " " + NumberPart(d);
    assert name[0] == typeName[0];
    if !KnownPrefix(TypePrefix(d)) {
      assert name[..7] == "Device ";
    }
  }

  lemma DisplayNameExamples()
    ensures DeviceDisplayName("GH001") == "Greenhouse 001"
    ensures DeviceDisplayName("PH042") == "Polyhouse 042"
    ensures DeviceDisplayName("XY001") == "Device 001" == DeviceDisplayName("ZZ001")
    ensures DeviceDisplayName("G") == "Device "
  {
    assert "GH001"[..2] == "GH" && "GH001"[2..] == "001";
    assert "PH042"[..2] == "PH" && "PH042"[2..] == "042";
    assert "XY001"[..2] == "XY" && "XY001"[2..] == "001";
    assert "ZZ001"[..2] == "ZZ" && "ZZ001"[2..] == "001";
  }

  /** Distinct valid device ids of the known types never share a display name. */
  lemma {:induction false} DisplayNameInjective(a: string, b: string)
    requires IsDeviceIdShape(a) && IsDeviceIdShape(b)
    requires KnownPrefix(TypePrefix(a)) && KnownPrefix(TypePrefix(b))
    requires DeviceDisplayName(a) == DeviceDisplayName(b)
    ensures a == b
  {
    var la, lb := TypeName(TypePrefix(a)), TypeName(TypePrefix(b));
    assert |NumberPart(a)| == 3 && |NumberPart(b)| == 3;
    assert |la| == |lb|;
    var name := DeviceDisplayName(a);
    assert la == name[..|la|] == lb;
    assert TypePrefix(a) == TypePrefix(b);
    assert NumberPart(a) == name[|la| + 1..] == NumberPart(b);
    assert a == TypePrefix(a) + NumberPart(a);
    assert b == TypePrefix(b) + NumberPart(b);
  }
}
