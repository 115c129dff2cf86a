/**
 * The frontend's shared validation constants: the accepted range of each
 * measurement, the alert thresholds and the device-id pattern.
 */
module ValidationConstants {
  import opened Pattern
  import opened Decimals

  /** An inclusive interval `[min, max]`. */
  datatype Range = Range(min: real, max: real)

  predicate InRange(r: Range, x: real)
  {
    r.min <= x <= r.max
  }

  /** One range per measured quantity. */
  datatype MeasureRanges = MeasureRanges(nitrogen: Range, phosphorus: Range, ph: Range)

  /** The values a reading may carry: nitrogen and phosphorus in ppm, pH unitless. */
  const VALIDATION_RANGES: MeasureRanges :=
    MeasureRanges(Range(0.0, 500.0), Range(0.0, 200.0), Range(0.0, 14.0))

  /** The values the alert rules regard as normal. */
  const ALERT_THRESHOLDS: MeasureRanges :=
    MeasureRanges(Range(0.0, 200.0), Range(0.0, 200.0), Range(6.0, 7.0))

  /** `^[A-Z]{2}\d{3}$`, e.g. GH001. */
  const DEVICE_ID_PATTERN: seq<Atom> := [Repeat(AsciiUpper, 2), Repeat(AsciiDigit, 3)]

  /** Two ASCII capital letters followed by three ASCII digits, and nothing else. */
  predicate IsDeviceIdShape(s: string)
  {
    && |s| == 5
    && (forall i :: 0 <= i < 2 ==> 'A' <= s[i] <= 'Z')
    && (forall i :: 2 <= i < 5 ==> '0' <= s[i] <= '9')
  }

  /** The pattern accepts exactly the five-character strings of the device-id shape. */
  lemma DeviceIdPatternExact(s: string)
    ensures FullMatch(DEVICE_ID_PATTERN, s) <==> IsDeviceIdShape(s)
  {
    var p := DEVICE_ID_PATTERN;
    assert p[1..] == [Repeat(AsciiDigit, 3)];
    assert p[1..][1..] == [];
    if FullMatch(p, s) {
      var rest := s[2..];
      FullMatchLength(p, s);
      assert MatchLength(p) == 5 by { assert MatchLength(p[1..]) == 3; }
      assert FullMatch(p[1..], rest);
      forall i | 2 <= i < 5 ensures '0' <= s[i] <= '9' {
        assert rest[i - 2] == s[i];
      }
    }
    if IsDeviceIdShape(s) {
      var rest := s[2..];
      assert rest[3..] == [];
      assert FullMatch(p[1..][1..], rest[3..]);
      forall i | 0 <= i < 3 ensures InClass(AsciiDigit, rest[i]) {
        assert rest[i] == s[i + 2];
      }
      assert FullMatch(p[1..], rest);
    }
  }

  /**
   * The nitrogen alert limit lies inside the accepted nitrogen range, and an
   * accepted value with at most two decimals lies above it: a valid reading
   * can raise a nitrogen alert.
   */
  lemma NitrogenAlertReachable()
    ensures InRange(VALIDATION_RANGES.nitrogen, ALERT_THRESHOLDS.nitrogen.max)
    ensures exists n: real ::
              InRange(VALIDATION_RANGES.nitrogen, n) && HasAtMostDecimals(n, 2)
              && n > ALERT_THRESHOLDS.nitrogen.max
  {
    var n := 200.01;
    assert n * Pow10(2) as real == 20001.0;
    assert HasAtMostDecimals(n, 2);
  }

  /** The optimal pH band is a non-empty sub-interval of the accepted pH range. */
  lemma PhBandInsideRange()
    ensures VALIDATION_RANGES.ph.min <= ALERT_THRESHOLDS.ph.min
    ensures ALERT_THRESHOLDS.ph.min < ALERT_THRESHOLDS.ph.max
    ensures ALERT_THRESHOLDS.ph.max <= VALIDATION_RANGES.ph.max
    ensures forall v :: InRange(ALERT_THRESHOLDS.ph, v) ==> InRange(VALIDATION_RANGES.ph, v)
  {
  }

  /** The phosphorus alert band is the accepted range: no valid value lies outside it. */
  lemma PhosphorusBandIsRange()
    ensures ALERT_THRESHOLDS.phosphorus == VALIDATION_RANGES.phosphorus
    ensures forall p :: InRange(VALIDATION_RANGES.phosphorus, p) ==> InRange(ALERT_THRESHOLDS.phosphorus, p)
  {
  }
}
