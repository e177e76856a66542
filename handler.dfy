/**
 * `handler`: validate the request, collect the coeffects, classify, validate
 * the classification, and hand it to `cfnresponse.send`; when any stage
 * raises, hand over DEFAULT_OUTPUT.
 * The CloudFormation response itself (status, delivery) is not modelled: the
 * result here is the `output` dictionary the handler hands to it.
 */
module Handler {
  import opened Wrappers
  import opened Python
  import opened Seqs
  import opened Schemas
  import opened Boundary
  import opened Arn
  import opened Worlds
  import opened Discovery

  /**
   * `pipe({'event': event, ...}, INPUT_SCHEMA, coeffects, discover_account_types,
   * OUTPUT_SCHEMA)`, given what each of the three AWS calls did.
   */
  function Pipeline(event: Value, trails: Fetch, buckets: Fetch, reports: Fetch): Result<Output> {
    var input :- ValidateInput(event);
    var collected := CollectCoeffects(Initial(input), trails, buckets, reports);
    var classified :- DiscoverAccountTypes(collected);
    ValidateOutput(classified.output)
  }

  /**
   * `world.get('output', DEFAULT_OUTPUT)` after the `try`: the classification,
   * or DEFAULT_OUTPUT when the pipeline raised. IsConnectedAccount in the
   * result tells the two apart, and a classification handed over reports
   * what the three fetches say about the requested account.
   */
  function Handle(event: Value, trails: Fetch, buckets: Fetch, reports: Fetch): (out: Output)
    ensures Pipeline(event, trails, buckets, reports).Raised? ==> out == DefaultOutput
    ensures Pipeline(event, trails, buckets, reports).Ok? ==>
      && out == Pipeline(event, trails, buckets, reports).value
      && Reports(out, ValidateInput(event).value.accountId, Fetched(trails), Fetched(buckets), Fetched(reports))
    ensures out.isConnectedAccount <==> Pipeline(event, trails, buckets, reports).Ok?
  {
    match Pipeline(event, trails, buckets, reports)
    case Ok(o) =>
      PipelineClassifies(event, trails, buckets, reports);
      o
    case Raised(_) => DefaultOutput
  }

  /**
   * The pipeline succeeds exactly when the request is valid, every bucket has
   * a hashable name, the first trail's bucket is a string or missing, and the
   * selected topic ARN, if a non-empty string, has an account field.
   */
  lemma PipelineSucceedsIff(event: Value, trails: Fetch, buckets: Fetch, reports: Fetch)
    ensures Pipeline(event, trails, buckets, reports).Ok? <==>
      && ValidateInput(event).Ok?
      && NamesHashable(Fetched(buckets))
      && (FirstTrailBucket(Fetched(trails)).Null? || FirstTrailBucket(Fetched(trails)).Str?)
      && !(exists t :: SelectedTopic(Fetched(trails), t) && ShortArn(t))
  {
    var input := ValidateInput(event);
    if input.Ok? {
      var classified := DiscoverAccountTypes(CollectCoeffects(Initial(input.value), trails, buckets, reports));
      if classified.Ok? {
        assert Pipeline(event, trails, buckets, reports) == ValidateOutput(classified.value.output);
      } else {
        assert Pipeline(event, trails, buckets, reports).Raised?;
      }
      ClassifySucceedsIff(input.value, trails, buckets, reports);
    }
  }

  /** After INPUT_SCHEMA, the rules and OUTPUT_SCHEMA succeed exactly on these listings. */
  lemma ClassifySucceedsIff(input: Input, trails: Fetch, buckets: Fetch, reports: Fetch)
    ensures var classified := DiscoverAccountTypes(CollectCoeffects(Initial(input), trails, buckets, reports));
      (classified.Ok? && ValidateOutput(classified.value.output).Ok?) <==>
      && NamesHashable(Fetched(buckets))
      && (FirstTrailBucket(Fetched(trails)).Null? || FirstTrailBucket(Fetched(trails)).Str?)
      && !(exists t :: SelectedTopic(Fetched(trails), t) && ShortArn(t))
  {
    var ts, bs, rs := Fetched(trails), Fetched(buckets), Fetched(reports);
    var classified := DiscoverAccountTypes(CollectCoeffects(Initial(input), trails, buckets, reports));
    if classified.Ok? {
      ClassifiedWellTyped(input, ts, bs, rs, classified.value.output);
    }
  }

  /**
   * What an output record means for a request's account id and the three
   * listings: the audit fields from the raw first trail and the local bucket
   * names, IsConnectedAccount true, the selected topic ARN and its account
   * test, and the master-payer fields from the valid report definitions.
   */
  ghost predicate Reports(o: Output, accountId: string, ts: seq<Record>, bs: seq<Record>, rs: seq<Record>) {
    && NameValue(o.auditCloudTrailBucketName) == FirstTrailBucket(ts)
    && (o.isAuditAccount <==> HasBucketNamed(bs, FirstTrailBucket(ts)))
    && o.isConnectedAccount
    && SelectedTopic(ts, NameValue(o.cloudTrailSnsTopicArn))
    && (o.isCloudTrailAccount <==> ArnAccountIs(NameValue(o.cloudTrailSnsTopicArn), accountId))
    && (o.isMasterPayerAccount <==> !NoneValid((x: Record) => LocalValidReport(bs, x), rs))
    && SelectedBillingBucket(rs, bs, NameValue(o.masterPayerBillingBucketName))
  }

  /** A successful run hands over what the four rules mean for the request and the three listings. */
  lemma PipelineClassifies(event: Value, trails: Fetch, buckets: Fetch, reports: Fetch)
    ensures Pipeline(event, trails, buckets, reports).Ok? ==>
      && ValidateInput(event).Ok?
      && Reports(Pipeline(event, trails, buckets, reports).value, ValidateInput(event).value.accountId,
                 Fetched(trails), Fetched(buckets), Fetched(reports))
  {
    if Pipeline(event, trails, buckets, reports).Raised? {
      return;
    }
    var input := ValidateInput(event).value;
    var ts, bs, rs := Fetched(trails), Fetched(buckets), Fetched(reports);
    var w := CollectCoeffects(Initial(input), trails, buckets, reports);
    var out := DiscoverAccountTypes(w).value.output;
    assert Classified(input, ts, bs, rs, out);
    OutputMeaning(input, ts, bs, rs, out, Pipeline(event, trails, buckets, reports).value);
  }

  /** A classification fails OUTPUT_SCHEMA only through the audit bucket name. */
  lemma ClassifiedWellTyped(input: Input, ts: seq<Record>, bs: seq<Record>, rs: seq<Record>, out: map<Field, Value>)
    requires Classified(input, ts, bs, rs, out)
    ensures WellTyped(out) <==> FirstTrailBucket(ts).Null? || FirstTrailBucket(ts).Str?
  {
    SelectedTopicIsName(ts, out[CloudTrailSNSTopicArn]);
    SelectedBillingBucketUnique(rs, bs, out[MasterPayerBillingBucketName], out[MasterPayerBillingBucketName]);
    var bucket := out[AuditCloudTrailBucketName];
    if bucket.Null? || bucket.Str? {
      forall f: Field
        ensures f in out && (if IsFlag(f) then out[f].Bool? else out[f].Null? || out[f].Str?)
      {
        match f
        case IsAuditAccount =>
        case AuditCloudTrailBucketName =>
        case IsConnectedAccount =>
        case IsCloudTrailAccount =>
        case CloudTrailSNSTopicArn =>
        case IsMasterPayerAccount =>
        case MasterPayerBillingBucketName =>
      }
    }
  }

  /** Reading the classification's meaning off the validated output record. */
  lemma OutputMeaning(input: Input, ts: seq<Record>, bs: seq<Record>, rs: seq<Record>, out: map<Field, Value>, o: Output)
    requires Classified(input, ts, bs, rs, out)
    requires OutputValue(o) == out
    ensures Reports(o, input.accountId, ts, bs, rs)
  {
    OutputFields(o);
  }

  /** Each field of the output dictionary holds the record's value. */
  lemma OutputFields(o: Output)
    ensures OutputValue(o)[IsAuditAccount] == Bool(o.isAuditAccount)
    ensures OutputValue(o)[AuditCloudTrailBucketName] == NameValue(o.auditCloudTrailBucketName)
    ensures OutputValue(o)[IsConnectedAccount] == Bool(o.isConnectedAccount)
    ensures OutputValue(o)[IsCloudTrailAccount] == Bool(o.isCloudTrailAccount)
    ensures OutputValue(o)[CloudTrailSNSTopicArn] == NameValue(o.cloudTrailSnsTopicArn)
    ensures OutputValue(o)[IsMasterPayerAccount] == Bool(o.isMasterPayerAccount)
    ensures OutputValue(o)[MasterPayerBillingBucketName] == NameValue(o.masterPayerBillingBucketName)
  {
  }

  /**
   * A failing fetch only empties its own category: whatever the bucket and
   * report listings were, the CloudTrail fields are the same.
   */
  lemma CloudTrailFieldsIgnoreOtherCategories(event: Value, trails: Fetch,
    buckets: Fetch, reports: Fetch, buckets': Fetch, reports': Fetch)
    ensures Pipeline(event, trails, buckets, reports).Ok? && Pipeline(event, trails, buckets', reports').Ok? ==>
      var o, o' := Pipeline(event, trails, buckets, reports).value, Pipeline(event, trails, buckets', reports').value;
      o.isCloudTrailAccount == o'.isCloudTrailAccount && o.cloudTrailSnsTopicArn == o'.cloudTrailSnsTopicArn
  {
    if Pipeline(event, trails, buckets, reports).Raised? || Pipeline(event, trails, buckets', reports').Raised? {
      return;
    }
    var o, o' := Pipeline(event, trails, buckets, reports).value, Pipeline(event, trails, buckets', reports').value;
    PipelineClassifies(event, trails, buckets, reports);
    PipelineClassifies(event, trails, buckets', reports');
    SelectedTopicUnique(Fetched(trails), NameValue(o.cloudTrailSnsTopicArn), NameValue(o'.cloudTrailSnsTopicArn));
    assert o.cloudTrailSnsTopicArn == o'.cloudTrailSnsTopicArn by {
      if o.cloudTrailSnsTopicArn.Some? {
        assert NameValue(o'.cloudTrailSnsTopicArn).Str?;
      }
    }
  }

  /**
   * When listing the buckets fails, the run still succeeds unless the trails
   * or the request make it fail; nothing is local, so neither the audit nor
   * the master-payer test holds, yet the first valid report's bucket is
   * still reported.
   */
  lemma BucketFetchFailure(event: Value, trails: Fetch, reports: Fetch)
    ensures Pipeline(event, trails, Fails, reports).Ok? <==>
      && ValidateInput(event).Ok?
      && (FirstTrailBucket(Fetched(trails)).Null? || FirstTrailBucket(Fetched(trails)).Str?)
      && !(exists t :: SelectedTopic(Fetched(trails), t) && ShortArn(t))
    ensures Pipeline(event, trails, Fails, reports).Ok? ==>
      var o, rs := Pipeline(event, trails, Fails, reports).value, Fetched(reports);
      && !o.isAuditAccount
      && !o.isMasterPayerAccount
      && (forall i :: IsFirst(BillingReport, rs, i) ==> o.masterPayerBillingBucketName == Some(rs[i]["S3Bucket"].s))
      && (NoneValid(BillingReport, rs) ==> o.masterPayerBillingBucketName == None)
  {
    PipelineSucceedsIff(event, trails, Fails, reports);
    if Pipeline(event, trails, Fails, reports).Ok? {
      PipelineClassifies(event, trails, Fails, reports);
      NoBucketsReport(Pipeline(event, trails, Fails, reports).value, ValidateInput(event).value.accountId,
                      Fetched(trails), Fetched(reports));
    }
  }

  /** With no buckets nothing is local: only the first valid report's bucket can be reported. */
  lemma NoBucketsReport(o: Output, accountId: string, ts: seq<Record>, rs: seq<Record>)
    requires Reports(o, accountId, ts, [], rs)
    ensures !o.isAuditAccount && !o.isMasterPayerAccount
    ensures forall i :: IsFirst(BillingReport, rs, i) ==> o.masterPayerBillingBucketName == Some(rs[i]["S3Bucket"].s)
    ensures NoneValid(BillingReport, rs) ==> o.masterPayerBillingBucketName == None
  {
    var local := (x: Record) => LocalValidReport([], x);
    assert NoneValid(local, rs);
    forall i: int | IsFirst(BillingReport, rs, i)
      ensures o.masterPayerBillingBucketName == Some(rs[i]["S3Bucket"].s)
    {
      assert SelectedBillingBucket(rs, [], rs[i]["S3Bucket"]);
      SelectedBillingBucketUnique(rs, [], rs[i]["S3Bucket"], NameValue(o.masterPayerBillingBucketName));
    }
    if NoneValid(BillingReport, rs) {
      SelectedBillingBucketUnique(rs, [], Null, NameValue(o.masterPayerBillingBucketName));
    }
  }

  /** A request without an account id gets DEFAULT_OUTPUT: every flag false, every name null. */
  lemma MissingAccountIdSendsDefault(event: Value, trails: Fetch, buckets: Fetch, reports: Fetch)
    requires event.Dict?
    requires var p := GetIn(event.fields, "ResourceProperties"); !p.Dict? || !GetIn(p.fields, "AccountId").Str?
    ensures Handle(event, trails, buckets, reports) == Output(false, None, false, false, None, false, None)
  {
    InputRequiresAccountId(event);
  }

  /**
   * A valid report definition whose bucket is not local still surfaces:
   * when no valid definition is local, the account is not the master payer
   * but the first valid definition's bucket is reported.
   */
  lemma NonLocalReportStillReported(event: Value, trails: Fetch, buckets: Fetch, reports: Fetch, i: int)
    requires NoneValid((x: Record) => LocalValidReport(Fetched(buckets), x), Fetched(reports))
    requires IsFirst(BillingReport, Fetched(reports), i)
    ensures Pipeline(event, trails, buckets, reports).Ok? ==>
      var o := Pipeline(event, trails, buckets, reports).value;
      !o.isMasterPayerAccount && o.masterPayerBillingBucketName == Some(Fetched(reports)[i]["S3Bucket"].s)
  {
    if Pipeline(event, trails, buckets, reports).Raised? {
      return;
    }
    var o := Pipeline(event, trails, buckets, reports).value;
    var rs, bs := Fetched(reports), Fetched(buckets);
    PipelineClassifies(event, trails, buckets, reports);
    assert SelectedBillingBucket(rs, bs, rs[i]["S3Bucket"]);
    SelectedBillingBucketUnique(rs, bs, rs[i]["S3Bucket"], NameValue(o.masterPayerBillingBucketName));
  }

  /** The request of the worked example. */
  const ExampleInput := Input(Create, "123456789012", "https://cloudformation-response.example/", "example-stack")

  /** The example's one trail: multi-region, organization-wide, logging to a local bucket. */
  const ExampleTrail: Record := map[
    "S3BucketName" := Str("trail-bucket"),
    "SnsTopicName" := Str("topic"),
    "SnsTopicARN" := Str(ExampleArn),
    "IsMultiRegionTrail" := Bool(true),
    "IsOrganizationTrail" := Bool(true),
    "TrailARN" := Str("arn:aws:cloudtrail:us-east-1:123456789012:trail/t")]

  lemma ExampleTrailIsIdeal()
    ensures IdealTrail(ExampleTrail)
    ensures ExampleTrail["S3BucketName"] == Str("trail-bucket")
    ensures ExampleTrail["SnsTopicARN"] == Str(ExampleArn)
  {
    // The second letters tell the keys `S3BucketName` and `SnsTopicName` apart.
    assert "S3BucketName"[1] != "SnsTopicName"[1];
    assert ExampleTrail["TrailARN"].Str?;
    assert ExampleTrail["IsOrganizationTrail"] == Bool(true);
    assert ExampleTrail["IsMultiRegionTrail"] == Bool(true);
    assert ExampleTrail["SnsTopicARN"].Str?;
    assert ExampleTrail["SnsTopicName"].Str?;
    assert ExampleTrail["S3BucketName"].Str?;
  }

  /**
   * One organization trail whose topic lives in the requested account and
   * whose bucket is local, no report definitions, and any valid request:
   * audit, connected and CloudTrail account, not master payer.
   */
  lemma SingleOrganizationTrail(event: Value, trail: Record, bucket: string, arn: string)
    requires ValidateInput(event).Ok?
    requires IdealTrail(trail)
    requires trail["S3BucketName"] == Str(bucket) && trail["SnsTopicARN"] == Str(arn)
    requires ArnAccountIs(Str(arn), ValidateInput(event).value.accountId)
    ensures Handle(event, Returns(Some([trail])), Returns(Some([map["Name" := Str(bucket)]])), Returns(Some([])))
            == Output(true, Some(bucket), true, true, Some(arn), false, None)
  {
    var trails, buckets, reports := Returns(Some([trail])), Returns(Some([map["Name" := Str(bucket)]])), Returns(Some([]));
    SingleTrailSucceeds(event, trail, bucket, arn);
    PipelineClassifies(event, trails, buckets, reports);
    var o := Pipeline(event, trails, buckets, reports).value;
    assert Handle(event, trails, buckets, reports) == o;
    SingleTrailReport(o, ValidateInput(event).value.accountId, trail, bucket, arn);
  }

  /** With one organization trail and string bucket names the run succeeds. */
  lemma SingleTrailSucceeds(event: Value, trail: Record, bucket: string, arn: string)
    requires ValidateInput(event).Ok?
    requires IdealTrail(trail)
    requires trail["S3BucketName"] == Str(bucket) && trail["SnsTopicARN"] == Str(arn)
    requires ArnAccountIs(Str(arn), ValidateInput(event).value.accountId)
    ensures Pipeline(event, Returns(Some([trail])), Returns(Some([map["Name" := Str(bucket)]])), Returns(Some([]))).Ok?
  {
    var ts := [trail];
    assert IsFirst(IdealTrail, ts, 0);
    forall t | SelectedTopic(ts, t)
      ensures !ShortArn(t)
    {
      SelectedTopicUnique(ts, t, Str(arn));
    }
    var bs: seq<Record> := [map["Name" := Str(bucket)]];
    assert NamesHashable(bs);
    assert FirstTrailBucket(ts) == Str(bucket);
    PipelineSucceedsIff(event, Returns(Some(ts)), Returns(Some(bs)), Returns(Some([])));
  }

  /** The only output that means what one organization trail and its local bucket mean. */
  lemma SingleTrailReport(o: Output, accountId: string, trail: Record, bucket: string, arn: string)
    requires IdealTrail(trail)
    requires trail["S3BucketName"] == Str(bucket) && trail["SnsTopicARN"] == Str(arn)
    requires ArnAccountIs(Str(arn), accountId)
    requires Reports(o, accountId, [trail], [map["Name" := Str(bucket)]], [])
    ensures o == Output(true, Some(bucket), true, true, Some(arn), false, None)
  {
    var ts, bs: seq<Record> := [trail], [map["Name" := Str(bucket)]];
    assert IsFirst(IdealTrail, ts, 0);
    assert SelectedTopic(ts, Str(arn));
    SelectedTopicUnique(ts, Str(arn), NameValue(o.cloudTrailSnsTopicArn));
    SelectedBillingBucketUnique([], bs, Null, NameValue(o.masterPayerBillingBucketName));
    assert bs[0]["Name"] == Str(bucket);
    assert HasBucketNamed(bs, Str(bucket));
  }

  /** The worked example: account 123456789012, bucket `trail-bucket`, topic `topic`. */
  lemma EndToEndExample()
    ensures Handle(EventValue(ExampleInput),
                   Returns(Some([ExampleTrail])),
                   Returns(Some([map["Name" := Str("trail-bucket")]])),
                   Returns(Some([])))
            == Output(true, Some("trail-bucket"), true, true, Some(ExampleArn), false, None)
  {
    TopicAccountIdExample();
    assert ArnAccountIs(Str(ExampleArn), ExampleInput.accountId);
    ExampleTrailIsIdeal();
    InputRoundTrip(ExampleInput);
    SingleOrganizationTrail(EventValue(ExampleInput), ExampleTrail, "trail-bucket", ExampleArn);
  }
}
