/**
 * The four classification rules. Each reads the event and the coeffects of
 * the world and merges its own output fields into it; a rule raises only
 * where the Python code would (a bucket without a name, a value that cannot
 * be hashed, an ARN with too few colon-separated fields).
 */
module Discovery {
  import opened Wrappers
  import opened Python
  import opened Seqs
  import opened Schemas
  import opened Boundary
  import opened Arn
  import opened Worlds

  /** Every bucket has a `Name` that can go into a set. */
  ghost predicate NamesHashable(buckets: seq<Record>) {
    forall i :: 0 <= i < |buckets| ==> "Name" in buckets[i] && Hashable(buckets[i]["Name"])
  }

  /** Some bucket is named `v`. */
  ghost predicate HasBucketNamed(buckets: seq<Record>, v: Value) {
    exists i :: 0 <= i < |buckets| && "Name" in buckets[i] && buckets[i]["Name"] == v
  }

  /**
   * `{x['Name'] for x in Buckets}`: the set of local bucket names. A bucket
   * without a name raises KeyError, a name that cannot be hashed TypeError.
   */
  function LocalBuckets(buckets: seq<Record>): (r: Result<set<Value>>)
    ensures r.Ok? <==> NamesHashable(buckets)
    ensures r.Ok? ==> forall v :: v in r.value <==> HasBucketNamed(buckets, v)
    ensures r.Raised? ==> r.error == KeyError || r.error == TypeError
  {
    if buckets == [] then Ok({})
    else if "Name" !in buckets[0] then Raised(KeyError)
    else if !Hashable(buckets[0]["Name"]) then Raised(TypeError)
    else
      var rest := LocalBuckets(buckets[1..]);
      assert forall i :: 0 < i < |buckets| ==> buckets[i] == buckets[1..][i - 1];
      if rest.Raised? then rest.PropagateFailure()
      else Ok({buckets[0]["Name"]} + rest.value)
  }

  // ----- Audit account -------------------------------------------------------

  /** `get_in([..., 'trailList', 0, 'S3BucketName'], world)`: the raw first trail's bucket, or None. */
  function FirstTrailBucket(trails: seq<Record>): Value {
    if trails == [] then Null else GetIn(trails[0], "S3BucketName")
  }

  /**
   * `discover_audit_account`: the first trail's bucket, validated or not, is
   * reported, and the account is the audit account when a local bucket has
   * that name.
   */
  function DiscoverAuditAccount(w: World): (r: Result<World>)
    ensures r.Ok? <==> NamesHashable(Items(w, S3)) && Hashable(FirstTrailBucket(Items(w, CloudTrail)))
    ensures r.Ok? ==> AddsOnly(w, r.value, {IsAuditAccount, AuditCloudTrailBucketName})
    ensures r.Ok? ==> r.value.output[AuditCloudTrailBucketName] == FirstTrailBucket(Items(w, CloudTrail))
    ensures r.Ok? ==> r.value.output[IsAuditAccount]
                      == Bool(HasBucketNamed(Items(w, S3), FirstTrailBucket(Items(w, CloudTrail))))
  {
    var trailBucket := FirstTrailBucket(Items(w, CloudTrail));
    var localBuckets :- LocalBuckets(Items(w, S3));
    if !Hashable(trailBucket) then Raised(TypeError)
    else
      Ok(Merge(w, map[
        IsAuditAccount := Bool(trailBucket in localBuckets),
        AuditCloudTrailBucketName := trailBucket]))
  }

  /** Every bucket's name is a string, as S3's ListBuckets returns them. */
  ghost predicate NamesAreStrings(buckets: seq<Record>) {
    forall i :: 0 <= i < |buckets| ==> "Name" in buckets[i] && buckets[i]["Name"].Str?
  }

  /**
   * With string bucket names the audit rule succeeds whenever the first trail's
   * bucket is a string or missing; the account is the audit account exactly
   * when the first trail names a bucket and that bucket is local; with no
   * trails both fields are false and null.
   */
  lemma AuditAccountIff(w: World)
    requires NamesAreStrings(Items(w, S3))
    requires FirstTrailBucket(Items(w, CloudTrail)).Null? || FirstTrailBucket(Items(w, CloudTrail)).Str?
    ensures DiscoverAuditAccount(w).Ok?
    ensures var trails, out := Items(w, CloudTrail), DiscoverAuditAccount(w).value.output;
      && (out[IsAuditAccount] == Bool(true)
          <==> trails != [] && "S3BucketName" in trails[0] && HasBucketNamed(Items(w, S3), trails[0]["S3BucketName"]))
      && (trails == [] ==> out[IsAuditAccount] == Bool(false) && out[AuditCloudTrailBucketName] == Null)
  {
  }

  // ----- Connected account ---------------------------------------------------

  /** `discover_connected_account`: every account that runs discovery is connected. */
  function DiscoverConnectedAccount(w: World): (r: World)
    ensures AddsOnly(w, r, {IsConnectedAccount})
    ensures r.output[IsConnectedAccount] == Bool(true)
  {
    Merge(w, map[IsConnectedAccount := Bool(true)])
  }

  // ----- CloudTrail account --------------------------------------------------

  /** No element of `xs` satisfies `p`. */
  ghost predicate NoneValid<T>(p: T -> bool, xs: seq<T>) {
    forall i :: 0 <= i < |xs| ==> !p(xs[i])
  }

  /**
   * `v` is the topic ARN the CloudTrail rule should report: that of the first
   * trail passing the ideal schema; when none does, that of the first trail
   * passing the minimum schema; when none does either, None.
   */
  ghost predicate SelectedTopic(trails: seq<Record>, v: Value) {
    || (exists i :: IsFirst(IdealTrail, trails, i) && v == trails[i]["SnsTopicARN"])
    || (NoneValid(IdealTrail, trails)
        && exists i :: IsFirst(MinimumTrail, trails, i) && v == trails[i]["SnsTopicARN"])
    || (NoneValid(MinimumTrail, trails) && v == Null)
  }

  /** `keep_valid(IDEAL, trails) or keep_valid(MINIMUM, trails)` */
  function ValidTrails(trails: seq<Record>): seq<Record> {
    var ideal := KeepValid(IdealTrail, trails);
    if ideal != [] then ideal else KeepValid(MinimumTrail, trails)
  }

  /** `get_first_valid_trail`: `trails[0]['SnsTopicARN'] if trails else None` */
  function GetFirstValidTrail(trails: seq<Record>): Result<Value> {
    if trails == [] then Ok(Null)
    else if "SnsTopicARN" in trails[0] then Ok(trails[0]["SnsTopicARN"])
    else Raised(KeyError)
  }

  /**
   * The ideal schema takes precedence over the minimum one: the rule's topic
   * ARN is the selected one, and it is a string or None.
   */
  lemma {:induction false} ChosenTopic(trails: seq<Record>)
    ensures GetFirstValidTrail(ValidTrails(trails)).Ok?
    ensures SelectedTopic(trails, GetFirstValidTrail(ValidTrails(trails)).value)
    ensures GetFirstValidTrail(ValidTrails(trails)).value.Null? || GetFirstValidTrail(ValidTrails(trails)).value.Str?
  {
    KeepValidIsFilter(IdealTrail, trails);
    KeepValidIsFilter(MinimumTrail, trails);
    FilterHead(IdealTrail, trails);
    FilterHead(MinimumTrail, trails);
    var valid := ValidTrails(trails);
    if Filter(IdealTrail, trails) != [] {
      var i := FirstIndex(IdealTrail, trails);
      assert valid[0] == trails[i];
    } else if Filter(MinimumTrail, trails) != [] {
      var i := FirstIndex(MinimumTrail, trails);
      assert valid[0] == trails[i];
    }
  }

  /** Some element passes, so there is a first one. */
  lemma FirstIndex<T>(p: T -> bool, xs: seq<T>) returns (i: nat)
    requires !NoneValid(p, xs)
    ensures IsFirst(p, xs, i)
  {
    i := 0;
    while !p(xs[i])
      invariant 0 <= i < |xs|
      invariant forall j :: 0 <= j < i ==> !p(xs[j])
      invariant exists j :: i <= j < |xs| && p(xs[j])
      decreases |xs| - i
    {
      i := i + 1;
    }
  }

  /** The selected topic is unique: the rule's choice is determined by the trail list. */
  lemma SelectedTopicUnique(trails: seq<Record>, v: Value, v': Value)
    requires SelectedTopic(trails, v) && SelectedTopic(trails, v')
    ensures v == v'
  {
    FirstUnique(IdealTrail, trails);
    FirstUnique(MinimumTrail, trails);
    if !NoneValid(IdealTrail, trails) {
      var i := FirstIndex(IdealTrail, trails);
      assert MinimumTrail(trails[i]);
    }
  }

  /** The selected topic is a string or None. */
  lemma SelectedTopicIsName(trails: seq<Record>, v: Value)
    requires SelectedTopic(trails, v)
    ensures v.Null? || v.Str?
  {
  }

  /** At most one position is the first to satisfy `p`. */
  lemma FirstUnique<T>(p: T -> bool, xs: seq<T>)
    ensures forall i, j :: IsFirst(p, xs, i) && IsFirst(p, xs, j) ==> i == j
  {
  }

  /** `trail_topic.split(':')[4] if trail_topic else None` */
  function TopicAccountId(topic: Value): Result<Option<string>> {
    if !Truthy(topic) then Ok(None)
    else if !topic.Str? then Raised(AttributeError)
    else
      var fields := Split(topic.s, ':');
      if |fields| <= 4 then Raised(IndexError) else Ok(Some(fields[4]))
  }

  /** A non-empty topic string with fewer than four colons has no account field. */
  predicate ShortArn(topic: Value) {
    topic.Str? && topic.s != [] && Count(':', topic.s) < 4
  }

  /** The account-id field (index 4) of a topic ARN string is `accountId`. */
  predicate ArnAccountIs(topic: Value, accountId: string) {
    topic.Str? && |Split(topic.s, ':')| > 4 && Split(topic.s, ':')[4] == accountId
  }

  /** The account id sits between the fourth and fifth colon; a shorter ARN raises IndexError. */
  lemma TopicAccountIdOfJoin(fields: seq<string>)
    requires |fields| > 4
    requires forall f :: f in fields ==> ':' !in f
    ensures TopicAccountId(Str(Join(fields, ':'))) == Ok(Some(fields[4]))
  {
    SplitJoin(fields, ':');
    assert Join(fields, ':') == fields[0] + [':'] + Join(fields[1..], ':');
  }

  /** For a string topic, extraction fails exactly on a short ARN. */
  lemma TopicAccountIdOfString(s: string)
    ensures TopicAccountId(Str(s)).Raised? <==> ShortArn(Str(s))
    ensures TopicAccountId(Str(s)).Ok? && TopicAccountId(Str(s)).value.Some?
            ==> Split(s, ':')[4] == TopicAccountId(Str(s)).value.value
  {
  }

  /** The example ARN `arn:aws:sns:us-east-1:123456789012:topic` carries account `123456789012`. */
  lemma TopicAccountIdExample()
    ensures TopicAccountId(Str(ExampleArn)) == Ok(Some("123456789012"))
  {
    forall f | f in ExampleFields
      ensures ':' !in f
    {
    }
    TopicAccountIdOfJoin(ExampleFields);
  }

  /**
   * `discover_cloudtrail_account`: reports the selected topic ARN, and the
   * account is the CloudTrail account when that ARN's account field is the
   * requested account id. It raises only on a short ARN.
   */
  function DiscoverCloudTrailAccount(w: World): (r: Result<World>)
    ensures r.Ok? ==> AddsOnly(w, r.value, {IsCloudTrailAccount, CloudTrailSNSTopicArn})
    ensures r.Ok? ==> SelectedTopic(Items(w, CloudTrail), r.value.output[CloudTrailSNSTopicArn])
    ensures r.Ok? ==> r.value.output[IsCloudTrailAccount]
                      == Bool(ArnAccountIs(r.value.output[CloudTrailSNSTopicArn], w.event.accountId))
    ensures r.Raised? <==> exists t :: SelectedTopic(Items(w, CloudTrail), t) && ShortArn(t)
  {
    var trails := Items(w, CloudTrail);
    ChosenTopic(trails);
    var chosen := GetFirstValidTrail(ValidTrails(trails)).value;
    TopicAccountIdOfString(if chosen.Str? then chosen.s else "");
    assert forall t :: SelectedTopic(trails, t) ==> t == chosen by {
      forall t | SelectedTopic(trails, t) ensures t == chosen {
        SelectedTopicUnique(trails, t, chosen);
      }
    }
    // ChosenTopic: on trails that passed a schema, get_first_valid_trail cannot raise.
    var topic := GetFirstValidTrail(ValidTrails(trails)).value;
    var accountId :- TopicAccountId(topic);
    Ok(Merge(w, map[
      IsCloudTrailAccount := Bool(accountId == Some(w.event.accountId)),
      CloudTrailSNSTopicArn := topic]))
  }

  // ----- Master payer account ------------------------------------------------

  /** A report definition that passes MINIMUM_BILLING_REPORT and writes to a local bucket. */
  ghost predicate LocalValidReport(buckets: seq<Record>, r: Record) {
    BillingReport(r) && HasBucketNamed(buckets, r["S3Bucket"])
  }

  /**
   * `v` is the billing bucket the master-payer rule should report: that of the
   * first valid report whose bucket is local; when there is none, that of the
   * first valid report; when there is none either, None.
   */
  ghost predicate SelectedBillingBucket(reports: seq<Record>, buckets: seq<Record>, v: Value) {
    var local := (r: Record) => LocalValidReport(buckets, r);
    || (exists i :: IsFirst(local, reports, i) && v == reports[i]["S3Bucket"])
    || (NoneValid(local, reports)
        && exists i :: IsFirst(BillingReport, reports, i) && v == reports[i]["S3Bucket"])
    || (NoneValid(BillingReport, reports) && v == Null)
  }

  /** The selected billing bucket is unique, and a string or None. */
  lemma SelectedBillingBucketUnique(reports: seq<Record>, buckets: seq<Record>, v: Value, v': Value)
    requires SelectedBillingBucket(reports, buckets, v) && SelectedBillingBucket(reports, buckets, v')
    ensures v == v'
    ensures v.Null? || v.Str?
  {
    var local := (x: Record) => LocalValidReport(buckets, x);
    FirstUnique(local, reports);
    FirstUnique(BillingReport, reports);
    if !NoneValid(local, reports) {
      var i := FirstIndex(local, reports);
      assert BillingReport(reports[i]);
    }
  }

  /** `x['S3Bucket'] in local_buckets`, for a report definition that passed the schema. */
  predicate InBuckets(names: set<Value>, r: Record) {
    "S3Bucket" in r && r["S3Bucket"] in names
  }

  /** `any(report_definitions)`: some definition is a non-empty dictionary. */
  predicate AnyTruthy(reports: seq<Record>) {
    exists i :: 0 <= i < |reports| && |reports[i]| > 0
  }

  /**
   * `get_first_valid_report_definition_s3_bucket`: the first definition's
   * bucket when `any` of them is truthy, otherwise `default`.
   */
  function GetFirstValidReportBucket(reports: seq<Record>, default: Value): Result<Value> {
    if !AnyTruthy(reports) then Ok(default)
    else if "S3Bucket" in reports[0] then Ok(reports[0]["S3Bucket"])
    else Raised(KeyError)
  }

  /** Every definition passed MINIMUM_BILLING_REPORT. */
  predicate AllBillingReports(reports: seq<Record>) {
    forall i :: 0 <= i < |reports| ==> BillingReport(reports[i])
  }

  /**
   * On definitions that passed the schema (all non-empty dictionaries with a
   * string bucket) `any` means non-empty, and the helper never raises.
   */
  lemma FirstValidReportBucket(reports: seq<Record>, default: Value)
    requires AllBillingReports(reports)
    ensures AnyTruthy(reports) <==> reports != []
    ensures reports == [] ==> GetFirstValidReportBucket(reports, default) == Ok(default)
    ensures reports != [] ==> GetFirstValidReportBucket(reports, default) == Ok(reports[0]["S3Bucket"])
  {
    if reports != [] {
      assert BillingReport(reports[0]);
      assert |reports[0]| > 0;
    }
  }

  /**
   * Lines 193-199 of `discover_master_payer_account` once the local bucket
   * names are known: whether a valid local definition exists, and the bucket
   * to report.
   */
  function MasterPayerFields(reports: seq<Record>, names: set<Value>): (bool, Value) {
    var valid := KeepValid(BillingReport, reports);
    KeepValidSelects(BillingReport, reports);
    FirstValidReportBucket(valid, Null);
    var defaultBucket := GetFirstValidReportBucket(valid, Null).value;
    var validLocal := Filter((x: Record) => InBuckets(names, x), valid);
    FirstValidReportBucket(validLocal, defaultBucket);
    (AnyTruthy(validLocal), GetFirstValidReportBucket(validLocal, defaultBucket).value)
  }

  /**
   * `discover_master_payer_account`: the account is the master payer when
   * some valid report definition writes to a local bucket, and the reported
   * bucket is the selected one, local or not.
   */
  function DiscoverMasterPayerAccount(w: World): (r: Result<World>)
    ensures r.Ok? <==> NamesHashable(Items(w, S3))
    ensures r.Ok? ==> AddsOnly(w, r.value, {IsMasterPayerAccount, MasterPayerBillingBucketName})
    ensures r.Ok? ==> r.value.output[IsMasterPayerAccount]
                      == Bool(!NoneValid((x: Record) => LocalValidReport(Items(w, S3), x), Items(w, Cur)))
    ensures r.Ok? ==> SelectedBillingBucket(Items(w, Cur), Items(w, S3), r.value.output[MasterPayerBillingBucketName])
  {
    var localBuckets :- LocalBuckets(Items(w, S3));
    var fields := MasterPayerFields(Items(w, Cur), localBuckets);
    MasterPayerSelection(Items(w, Cur), Items(w, S3), localBuckets);
    Ok(Merge(w, map[
      IsMasterPayerAccount := Bool(fields.0),
      MasterPayerBillingBucketName := fields.1]))
  }

  /** Keeping the local ones among the valid definitions keeps the valid local definitions. */
  lemma ValidLocalReports(reports: seq<Record>, buckets: seq<Record>, names: set<Value>)
    requires forall v :: v in names <==> HasBucketNamed(buckets, v)
    ensures Filter((x: Record) => InBuckets(names, x), KeepValid(BillingReport, reports))
            == Filter((x: Record) => LocalValidReport(buckets, x), reports)
  {
    var inNames := (x: Record) => InBuckets(names, x);
    var local := (x: Record) => LocalValidReport(buckets, x);
    KeepValidIsFilter(BillingReport, reports);
    forall x: Record
      ensures local(x) == (BillingReport(x) && inNames(x))
    {
      if BillingReport(x) {
        assert InBuckets(names, x) <==> HasBucketNamed(buckets, x["S3Bucket"]);
      }
    }
    FilterFilter(BillingReport, inNames, local, reports);
  }

  /** The master-payer fields are the existence of a valid local definition and the selected bucket. */
  lemma MasterPayerSelection(reports: seq<Record>, buckets: seq<Record>, names: set<Value>)
    requires forall v :: v in names <==> HasBucketNamed(buckets, v)
    ensures MasterPayerFields(reports, names).0 <==> !NoneValid((x: Record) => LocalValidReport(buckets, x), reports)
    ensures SelectedBillingBucket(reports, buckets, MasterPayerFields(reports, names).1)
  {
    var valid := KeepValid(BillingReport, reports);
    var validLocal := Filter((x: Record) => InBuckets(names, x), valid);
    ValidLocalReports(reports, buckets, names);
    KeepValidIsFilter(BillingReport, reports);
    KeepValidSelects(BillingReport, reports);
    FirstValidReportBucket(valid, Null);
    var defaultBucket := GetFirstValidReportBucket(valid, Null).value;
    assert AllBillingReports(validLocal);
    FirstValidReportBucket(validLocal, defaultBucket);
    ReportChoice(reports, buckets, validLocal, defaultBucket);
  }

  /**
   * The bucket choice in terms of the two filtered lists: the first valid
   * local definition's bucket, else the first valid definition's, else None.
   */
  lemma ReportChoice(reports: seq<Record>, buckets: seq<Record>, validLocal: seq<Record>, defaultBucket: Value)
    requires validLocal == Filter((x: Record) => LocalValidReport(buckets, x), reports)
    requires GetFirstValidReportBucket(Filter(BillingReport, reports), Null) == Ok(defaultBucket)
    requires AllBillingReports(Filter(BillingReport, reports))
    requires AllBillingReports(validLocal)
    ensures AnyTruthy(validLocal) <==> !NoneValid((x: Record) => LocalValidReport(buckets, x), reports)
    ensures SelectedBillingBucket(reports, buckets, GetFirstValidReportBucket(validLocal, defaultBucket).value)
  {
    var local := (x: Record) => LocalValidReport(buckets, x);
    var valid := Filter(BillingReport, reports);
    FilterHead(local, reports);
    FilterHead(BillingReport, reports);
    FirstValidReportBucket(valid, Null);
    FirstValidReportBucket(validLocal, defaultBucket);
    if !NoneValid(local, reports) {
      var i := FirstIndex(local, reports);
      assert validLocal[0] == reports[i];
    } else if !NoneValid(BillingReport, reports) {
      var i := FirstIndex(BillingReport, reports);
      assert valid[0] == reports[i];
    }
  }

  // ----- The four rules in order ---------------------------------------------

  /** The seven output fields. */
  const AllFields: set<Field> := {
    IsAuditAccount, AuditCloudTrailBucketName, IsConnectedAccount, IsCloudTrailAccount,
    CloudTrailSNSTopicArn, IsMasterPayerAccount, MasterPayerBillingBucketName}

  /** `out` holds all seven fields, each with the meaning its rule gives it for this event and these coeffects. */
  ghost predicate Classified(event: Input, trails: seq<Record>, buckets: seq<Record>, reports: seq<Record>, out: map<Field, Value>) {
    && AllFields <= out.Keys
    && out[IsAuditAccount] == Bool(HasBucketNamed(buckets, FirstTrailBucket(trails)))
    && out[AuditCloudTrailBucketName] == FirstTrailBucket(trails)
    && out[IsConnectedAccount] == Bool(true)
    && out[IsCloudTrailAccount] == Bool(ArnAccountIs(out[CloudTrailSNSTopicArn], event.accountId))
    && SelectedTopic(trails, out[CloudTrailSNSTopicArn])
    && out[IsMasterPayerAccount] == Bool(!NoneValid((x: Record) => LocalValidReport(buckets, x), reports))
    && SelectedBillingBucket(reports, buckets, out[MasterPayerBillingBucketName])
  }

  /**
   * Four stages adding the audit, connected, CloudTrail and master-payer
   * fields add the seven fields, and each field keeps the value its own stage gave it.
   */
  lemma StagesCompose(w: World, audited: World, connected: World, trailed: World, paid: World)
    requires AddsOnly(w, audited, {IsAuditAccount, AuditCloudTrailBucketName})
    requires AddsOnly(audited, connected, {IsConnectedAccount})
    requires AddsOnly(connected, trailed, {IsCloudTrailAccount, CloudTrailSNSTopicArn})
    requires AddsOnly(trailed, paid, {IsMasterPayerAccount, MasterPayerBillingBucketName})
    ensures AddsOnly(w, paid, AllFields)
    ensures paid.output[IsAuditAccount] == audited.output[IsAuditAccount]
    ensures paid.output[AuditCloudTrailBucketName] == audited.output[AuditCloudTrailBucketName]
    ensures paid.output[IsConnectedAccount] == connected.output[IsConnectedAccount]
    ensures paid.output[IsCloudTrailAccount] == trailed.output[IsCloudTrailAccount]
    ensures paid.output[CloudTrailSNSTopicArn] == trailed.output[CloudTrailSNSTopicArn]
  {
    var auditKeys := {IsAuditAccount, AuditCloudTrailBucketName};
    var trailKeys := {IsCloudTrailAccount, CloudTrailSNSTopicArn};
    var payerKeys := {IsMasterPayerAccount, MasterPayerBillingBucketName};
    AddsOnlyThen(w, audited, connected, auditKeys, {IsConnectedAccount});
    AddsOnlyThen(w, connected, trailed, auditKeys + {IsConnectedAccount}, trailKeys);
    AddsOnlyThen(w, trailed, paid, auditKeys + {IsConnectedAccount} + trailKeys, payerKeys);
    StageKeysCover();
  }

  /** The four stages' keys together are the seven fields. */
  lemma StageKeysCover()
    ensures {IsAuditAccount, AuditCloudTrailBucketName} + {IsConnectedAccount}
            + {IsCloudTrailAccount, CloudTrailSNSTopicArn} + {IsMasterPayerAccount, MasterPayerBillingBucketName}
            == AllFields
  {
  }

  /** The rules can fail only on these inputs. */
  ghost predicate RulesSucceed(trails: seq<Record>, buckets: seq<Record>) {
    && NamesHashable(buckets)
    && Hashable(FirstTrailBucket(trails))
    && !(exists t :: SelectedTopic(trails, t) && ShortArn(t))
  }

  /**
   * `discover_account_types`: the audit, connected, CloudTrail and master-payer
   * rules in that order. It adds exactly the seven output fields, leaves the
   * event and the coeffects alone, and raises exactly when a rule raises.
   */
  function DiscoverAccountTypes(w: World): (r: Result<World>)
    ensures r.Ok? <==> RulesSucceed(Items(w, CloudTrail), Items(w, S3))
    ensures r.Ok? ==> AddsOnly(w, r.value, AllFields)
    ensures r.Ok? ==> Classified(w.event, Items(w, CloudTrail), Items(w, S3), Items(w, Cur), r.value.output)
  {
    var audited :- DiscoverAuditAccount(w);
    var connected := DiscoverConnectedAccount(audited);
    var trailed :- DiscoverCloudTrailAccount(connected);
    var r := DiscoverMasterPayerAccount(trailed);
    if r.Ok? then
      RulesCompose(w, audited, connected, trailed, r.value);
      r
    else
      r
  }

  /** Four successful rules in a row classify the world they started from. */
  lemma RulesCompose(w: World, audited: World, connected: World, trailed: World, paid: World)
    requires DiscoverAuditAccount(w) == Ok(audited)
    requires connected == DiscoverConnectedAccount(audited)
    requires DiscoverCloudTrailAccount(connected) == Ok(trailed)
    requires DiscoverMasterPayerAccount(trailed) == Ok(paid)
    ensures AddsOnly(w, paid, AllFields)
    ensures Classified(w.event, Items(w, CloudTrail), Items(w, S3), Items(w, Cur), paid.output)
  {
    StagesCompose(w, audited, connected, trailed, paid);
  }
}
