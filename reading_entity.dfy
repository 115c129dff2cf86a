/**
 * The `readings` table: one flat row per sensor reading, and the storage
 * limits its column declarations state.
 */
module ReadingEntity {
  import opened Decimals

  /** Generated primary key. Only its freshness matters here, so ids are numbers. */
  type ReadingId = nat

  /** A point in time, in milliseconds since the Unix epoch. */
  type Instant = int

  datatype Reading = Reading(
    id: ReadingId,
    deviceId: string,
    timestamp: Instant,
    nitrogen: real,    // ppm
    phosphorus: real,  // ppm
    ph: real)

  /** `decimal(precision, scale)`: `precision` digits in all, `scale` of them after the point. */
  datatype DecimalColumn = DecimalColumn(precision: nat, scale: nat)

  const DEVICE_ID_LENGTH: nat := 10
  const NITROGEN_COLUMN: DecimalColumn := DecimalColumn(6, 2)
  const PHOSPHORUS_COLUMN: DecimalColumn := DecimalColumn(6, 2)
  const PH_COLUMN: DecimalColumn := DecimalColumn(3, 1)

  /** `x` is representable in the column: at most `scale` decimals and `precision - scale` integer digits. */
  predicate FitsDecimal(x: real, c: DecimalColumn)
  {
    && c.scale <= c.precision
    && HasAtMostDecimals(x, c.scale)
    && -(Pow10(c.precision - c.scale) as real) < x < Pow10(c.precision - c.scale) as real
  }

  /** The row satisfies every column's declared size. */
  predicate FitsColumns(r: Reading)
  {
    && |r.deviceId| <= DEVICE_ID_LENGTH
    && FitsDecimal(r.nitrogen, NITROGEN_COLUMN)
    && FitsDecimal(r.phosphorus, PHOSPHORUS_COLUMN)
    && FitsDecimal(r.ph, PH_COLUMN)
  }

  /** The largest value each measurement column can hold: 9999.99, 9999.99 and 99.9. */
  lemma ColumnMaxima()
    ensures FitsDecimal(9999.99, NITROGEN_COLUMN) && !FitsDecimal(10000.0, NITROGEN_COLUMN)
    ensures FitsDecimal(99.9, PH_COLUMN) && !FitsDecimal(100.0, PH_COLUMN)
  {
    assert Pow10(4) == 10000 && Pow10(2) == 100;
    assert 9999.99 * 100.0 == 999999.0;
    assert Pow10(1) == 10;
    assert 99.9 * 10.0 == 999.0;
  }
}
