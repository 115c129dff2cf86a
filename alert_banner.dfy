/**
 * The dashboard's alert banner: the readings that raised an alert, split
 * into the critical ones (error severity) and the warnings, or the
 * all-normal banner when none did.
 */
module AlertBanner {
  import opened Seqs
  import opened ReadingEntity
  import opened AlertUtils

  predicate Triggered(r: Reading)
  {
    AlertOf(r).isTriggered
  }

  predicate ErrorSeverity(r: Reading)
  {
    AlertOf(r).severity == Error
  }

  predicate WarningSeverity(r: Reading)
  {
    AlertOf(r).severity == Warning
  }

  function AlertReadings(readings: seq<Reading>): seq<Reading>
  {
    Filter(readings, Triggered)
  }

  function ErrorReadings(readings: seq<Reading>): seq<Reading>
  {
    Filter(AlertReadings(readings), ErrorSeverity)
  }

  function WarningReadings(readings: seq<Reading>): seq<Reading>
  {
    Filter(AlertReadings(readings), WarningSeverity)
  }

  /** What the banner shows; an empty list of either kind shows no section for it. */
  datatype Banner =
    | AllSystemsNormal
    | Alerts(critical: seq<Reading>, warnings: seq<Reading>)

  function BannerFor(readings: seq<Reading>): (b: Banner)
    ensures b.AllSystemsNormal? <==> forall r :: r in readings ==> !NitrogenTooHigh(r) && !PhOutsideBand(r)
    ensures b.Alerts? ==> |b.critical| + |b.warnings| > 0
  {
    var alerting := AlertReadings(readings);
    if |alerting| == 0 then AllSystemsNormal
    else
      PartitionSizes(readings);
      Alerts(ErrorReadings(readings), WarningReadings(readings))
  }

  /** The alerting readings are the input's readings that broke a rule, in input order. */
  lemma AlertReadingsExact(readings: seq<Reading>)
    ensures forall r :: r in AlertReadings(readings) <==> r in readings && (NitrogenTooHigh(r) || PhOutsideBand(r))
    ensures Subsequence(AlertReadings(readings), readings)
  {
    FilterSubsequence(readings, Triggered);
  }

  /** The critical list is the readings with nitrogen above the limit, the warnings those with only pH off band. */
  lemma PartitionByRule(readings: seq<Reading>)
    ensures ErrorReadings(readings) == Filter(readings, NitrogenTooHigh)
    ensures WarningReadings(readings) == Filter(readings, PhOnly)
  {
    FilterFilter(readings, Triggered, ErrorSeverity, NitrogenTooHigh);
    FilterFilter(readings, Triggered, WarningSeverity, PhOnly);
  }

  predicate PhOnly(r: Reading)
  {
    !NitrogenTooHigh(r) && PhOutsideBand(r)
  }

  /**
   * The two lists split the alerting readings: no reading is in both, every
   * alerting reading is in one, each keeps input order, and the two counts
   * add up to the number of alerting readings.
   */
  lemma PartitionSizes(readings: seq<Reading>)
    ensures multiset(ErrorReadings(readings)) + multiset(WarningReadings(readings)) == multiset(AlertReadings(readings))
    ensures |ErrorReadings(readings)| + |WarningReadings(readings)| == |AlertReadings(readings)|
    ensures forall r :: !(r in ErrorReadings(readings) && r in WarningReadings(readings))
    ensures Subsequence(ErrorReadings(readings), readings) && Subsequence(WarningReadings(readings), readings)
  {
    FilterSplit(AlertReadings(readings), ErrorSeverity, WarningSeverity);
    PartitionByRule(readings);
    FilterSubsequence(readings, NitrogenTooHigh);
    FilterSubsequence(readings, PhOnly);
  }
}
