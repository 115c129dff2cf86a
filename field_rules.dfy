/**
 * What the field decorators of the request objects check. A request field
 * arrives as a JSON value; each decorator is a constraint on it, and a field
 * with failed constraints yields one validation error naming the property and
 * the constraints it failed.
 */
module FieldRules {
  import opened Decimals
  import opened Pattern

  /** A request field. `Absent` stands for both `undefined` and `null`; `OtherValue` for booleans, arrays and objects. */
  datatype Value = Absent | Text(text: string) | Number(number: real) | OtherValue

  datatype Constraint = IsString | Matches | IsDateString | IsNumber | Min | Max

  /** One failing property and the constraints it failed. */
  datatype FieldError = FieldError(property: string, failed: set<Constraint>)

  /** `@IsString()`. */
  function StringFailures(v: Value): set<Constraint>
  {
    if v.Text? then {} else {IsString}
  }

  /** `@Matches(pattern)`: a non-string never matches. */
  function MatchesFailures(v: Value, pattern: seq<Atom>): set<Constraint>
  {
    if v.Text? && FullMatch(pattern, v.text) then {} else {Matches}
  }

  /** `@IsDateString()`: a string in the date-time syntax, decided by `isDateString`. */
  function DateStringFailures(v: Value, isDateString: string -> bool): set<Constraint>
  {
    if v.Text? && isDateString(v.text) then {} else {IsDateString}
  }

  /** `@IsNumber({ maxDecimalPlaces })`, `@Min(min)`, `@Max(max)`; a non-number fails all three. */
  function NumberFailures(v: Value, maxDecimals: nat, min: real, max: real): set<Constraint>
  {
    (if v.Number? && HasAtMostDecimals(v.number, maxDecimals) then {} else {IsNumber})
    + (if v.Number? && v.number >= min then {} else {Min})
    + (if v.Number? && v.number <= max then {} else {Max})
  }

  /** `@IsNumber()` with no decimal limit, `@Min(min)`, `@Max(max)`. */
  function AnyNumberFailures(v: Value, min: real, max: real): set<Constraint>
  {
    (if v.Number? then {} else {IsNumber})
    + (if v.Number? && v.number >= min then {} else {Min})
    + (if v.Number? && v.number <= max then {} else {Max})
  }

  /** `@IsOptional()`: an absent value skips every other constraint of the field. */
  function OptionalFailures(v: Value, failures: set<Constraint>): set<Constraint>
  {
    if v.Absent? then {} else failures
  }

  /** The error for one property, if it failed anything. */
  function ErrorFor(property: string, failures: set<Constraint>): (r: seq<FieldError>)
    ensures r == [] <==> failures == {}
    ensures r != [] ==> r == [FieldError(property, failures)]
  {
    if failures == {} then [] else [FieldError(property, failures)]
  }

  /** A number field accepted by `NumberFailures` is a number within `[min, max]` with at most `maxDecimals` decimals. */
  lemma NumberFailuresExact(v: Value, maxDecimals: nat, min: real, max: real)
    ensures NumberFailures(v, maxDecimals, min, max) == {}
        <==> v.Number? && min <= v.number <= max && HasAtMostDecimals(v.number, maxDecimals)
  {
    if !v.Number? {
      assert IsNumber in NumberFailures(v, maxDecimals, min, max);
    } else if !HasAtMostDecimals(v.number, maxDecimals) {
      assert IsNumber in NumberFailures(v, maxDecimals, min, max);
    } else if v.number < min {
      assert Min in NumberFailures(v, maxDecimals, min, max);
    } else if v.number > max {
      assert Max in NumberFailures(v, maxDecimals, min, max);
    }
  }

  lemma AnyNumberFailuresExact(v: Value, min: real, max: real)
    ensures AnyNumberFailures(v, min, max) == {} <==> v.Number? && min <= v.number <= max
  {
    if !v.Number? {
      assert IsNumber in AnyNumberFailures(v, min, max);
    } else if v.number < min {
      assert Min in AnyNumberFailures(v, min, max);
    } else if v.number > max {
      assert Max in AnyNumberFailures(v, min, max);
    }
  }
}
