/**
 * The voluptuous schemas the classification rules apply to single candidates,
 * and `safe_check` / `keep_valid`, which turn a failed check into a dropped
 * candidate instead of an exception.
 *
 * Every schema here is built with `extra=ALLOW_EXTRA, required=True`: each
 * listed key must be present, unlisted keys are kept, and a candidate that
 * passes comes back unchanged. `str` checks the value's type; a literal
 * (`True`, `'HOURLY'`) checks equality; `ExactSequence(['RESOURCES'])`
 * accepts exactly a one-element list holding that string.
 */
module Schemas {
  import opened Wrappers
  import opened Python
  import opened Seqs

  /** `key` is present and holds a string. */
  predicate StrField(r: Record, key: string) {
    key in r && r[key].Str?
  }

  /** `key` is present and holds exactly `v`. */
  predicate ValueField(r: Record, key: string, v: Value) {
    key in r && r[key] == v
  }

  /** MINIMUM_CLOUDTRAIL_CONFIGURATION */
  predicate MinimumTrail(t: Record) {
    && StrField(t, "S3BucketName")
    && StrField(t, "SnsTopicName")
    && StrField(t, "SnsTopicARN")
    && ValueField(t, "IsMultiRegionTrail", Bool(true))
    && StrField(t, "TrailARN")
  }

  /** IDEAL_CLOUDTRAIL_CONFIGURATION: the minimum schema extended by one key. */
  predicate IdealTrail(t: Record): (ok: bool)
    ensures ok ==> MinimumTrail(t)
  {
    MinimumTrail(t) && ValueField(t, "IsOrganizationTrail", Bool(true))
  }

  /** MINIMUM_BILLING_REPORT */
  predicate BillingReport(r: Record) {
    && ValueField(r, "TimeUnit", Str("HOURLY"))
    && ValueField(r, "Format", Str("textORcsv"))
    && ValueField(r, "Compression", Str("GZIP"))
    && ValueField(r, "AdditionalSchemaElements", List([Str("RESOURCES")]))
    && StrField(r, "S3Bucket")
    && StrField(r, "S3Prefix")
    && StrField(r, "S3Region")
    && ValueField(r, "ReportVersioning", Str("CREATE_NEW_REPORT"))
    && ValueField(r, "RefreshClosedReports", Bool(true))
  }

  /**
   * `safe_check(schema, data)`: the validated candidate, or `None` where the
   * schema raised. Validation never raises past this point.
   */
  function SafeCheck<T>(schema: T -> bool, data: T): (r: Option<T>)
    ensures r.Some? <==> schema(data)
    ensures r.Some? ==> r.value == data
  {
    if schema(data) then Some(data) else None
  }

  /** `[y for y in ys if y is not None]` */
  function Somes<T>(ys: seq<Option<T>>): seq<T> {
    if ys == [] then []
    else (if ys[0].Some? then [ys[0].value] else []) + Somes(ys[1..])
  }

  /** `keep_valid(schema, xs)`: check each candidate, then drop the failures. */
  function KeepValid<T>(schema: T -> bool, xs: seq<T>): seq<T> {
    Somes(seq(|xs|, i requires 0 <= i < |xs| => SafeCheck(schema, xs[i])))
  }

  /** keep_valid is a plain filter by the schema. */
  lemma {:induction false} KeepValidIsFilter<T>(schema: T -> bool, xs: seq<T>)
    ensures KeepValid(schema, xs) == Filter(schema, xs)
  {
    if xs != [] {
      KeepValidIsFilter(schema, xs[1..]);
      var checked := seq(|xs|, i requires 0 <= i < |xs| => SafeCheck(schema, xs[i]));
      assert checked[1..] == seq(|xs[1..]|, i requires 0 <= i < |xs[1..]| => SafeCheck(schema, xs[1..][i]));
    }
  }

  /**
   * keep_valid returns exactly the candidates that pass the schema, in their
   * original relative order, and never more than it was given.
   */
  lemma KeepValidSelects<T>(schema: T -> bool, xs: seq<T>)
    ensures |KeepValid(schema, xs)| <= |xs|
    ensures forall y :: y in KeepValid(schema, xs) ==> y in xs && schema(y)
    ensures exists idx :: Selects(schema, xs, KeepValid(schema, xs), idx)
  {
    KeepValidIsFilter(schema, xs);
    FilterSelects(schema, xs);
  }

  /** Every trail the ideal schema accepts, the minimum schema accepts too. */
  lemma IdealIsMinimum(trails: seq<Record>)
    ensures forall t :: t in KeepValid(IdealTrail, trails) ==> t in KeepValid(MinimumTrail, trails)
  {
    KeepValidIsFilter(IdealTrail, trails);
    KeepValidIsFilter(MinimumTrail, trails);
    forall t | t in Filter(IdealTrail, trails)
      ensures t in Filter(MinimumTrail, trails)
    {
      var i :| 0 <= i < |trails| && trails[i] == t;
      FilterSelects(MinimumTrail, trails);
      var idx :| Selects(MinimumTrail, trails, Filter(MinimumTrail, trails), idx);
      var k :| 0 <= k < |idx| && idx[k] == i;
    }
  }
}
