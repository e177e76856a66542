/**
 * Boundary validation: INPUT_SCHEMA turns the raw CloudFormation request into
 * the validated event the rules read, OUTPUT_SCHEMA checks the seven-field
 * classification before it is handed to `cfnresponse.send`, and DEFAULT_OUTPUT
 * is what is handed over when anything fails.
 */
module Boundary {
  import opened Wrappers
  import opened Python

  datatype RequestType = Create | Update | Delete

  /** The validated event: everything outside these four fields is removed. */
  datatype Input = Input(requestType: RequestType, accountId: string, responseUrl: string, stackId: string)

  function RequestTypeName(t: RequestType): string {
    match t
    case Create => "Create"
    case Update => "Update"
    case Delete => "Delete"
  }

  /** `Any('Create', 'Update', 'Delete')` */
  function ParseRequestType(v: Value): (r: Option<RequestType>)
    ensures r.Some? ==> v == Str(RequestTypeName(r.value))
    ensures forall t :: v == Str(RequestTypeName(t)) ==> r == Some(t)
  {
    if v == Str("Create") then Some(Create)
    else if v == Str("Update") then Some(Update)
    else if v == Str("Delete") then Some(Delete)
    else None
  }

  /**
   * INPUT_SCHEMA applied to the request (`required=True, extra=REMOVE_EXTRA`):
   * the event must be a dictionary whose `RequestType` is one of the three
   * names, whose `ResourceProperties` is a dictionary with a string
   * `AccountId`, and whose `ResponseURL` and `StackId` are strings.
   */
  function ValidateInput(event: Value): (r: Result<Input>)
    ensures r.Raised? ==> r.error == Invalid
  {
    if !event.Dict? then Raised(Invalid)
    else
      var e := event.fields;
      var requestType := ParseRequestType(GetIn(e, "RequestType"));
      var properties := GetIn(e, "ResourceProperties");
      var accountId := if properties.Dict? then GetIn(properties.fields, "AccountId") else Null;
      var responseUrl := GetIn(e, "ResponseURL");
      var stackId := GetIn(e, "StackId");
      if requestType.Some? && accountId.Str? && responseUrl.Str? && stackId.Str? then
        Ok(Input(requestType.value, accountId.s, responseUrl.s, stackId.s))
      else
        Raised(Invalid)
  }

  /** The request holding exactly the validated fields of `i`. */
  function EventValue(i: Input): Value {
    Dict(map[
      "RequestType" := Str(RequestTypeName(i.requestType)),
      "ResourceProperties" := Dict(map["AccountId" := Str(i.accountId)]),
      "ResponseURL" := Str(i.responseUrl),
      "StackId" := Str(i.stackId)])
  }

  /** A request carrying exactly the four fields validates to the same input. */
  lemma InputRoundTrip(i: Input)
    ensures ValidateInput(EventValue(i)) == Ok(i)
  {
  }

  /** Keys outside the schema are dropped: they never change the validated input. */
  lemma InputIgnoresExtraKeys(e: map<string, Value>, key: string, v: Value)
    requires key !in {"RequestType", "ResourceProperties", "ResponseURL", "StackId"}
    ensures ValidateInput(Dict(e[key := v])) == ValidateInput(Dict(e))
  {
    assert GetIn(e[key := v], "RequestType") == GetIn(e, "RequestType");
    assert GetIn(e[key := v], "ResourceProperties") == GetIn(e, "ResourceProperties");
    assert GetIn(e[key := v], "ResponseURL") == GetIn(e, "ResponseURL");
    assert GetIn(e[key := v], "StackId") == GetIn(e, "StackId");
  }

  /**
   * The accepted set exactly: a request validates to `i` iff it is a
   * dictionary carrying `i`'s four fields, whatever else it holds.
   */
  lemma InputAcceptedIff(event: Value, i: Input)
    ensures ValidateInput(event) == Ok(i) <==>
      && event.Dict?
      && GetIn(event.fields, "RequestType") == Str(RequestTypeName(i.requestType))
      && GetIn(event.fields, "ResourceProperties").Dict?
      && GetIn(GetIn(event.fields, "ResourceProperties").fields, "AccountId") == Str(i.accountId)
      && GetIn(event.fields, "ResponseURL") == Str(i.responseUrl)
      && GetIn(event.fields, "StackId") == Str(i.stackId)
  {
  }

  /** Keys beside `AccountId` in `ResourceProperties` are dropped too. */
  lemma PropertiesIgnoreExtraKeys(e: map<string, Value>, p: map<string, Value>, key: string, v: Value)
    requires key != "AccountId"
    ensures ValidateInput(Dict(e["ResourceProperties" := Dict(p[key := v])]))
         == ValidateInput(Dict(e["ResourceProperties" := Dict(p)]))
  {
    assert GetIn(p[key := v], "AccountId") == GetIn(p, "AccountId");
  }

  /** A request without a string account id is rejected. */
  lemma InputRequiresAccountId(event: Value)
    requires event.Dict?
    requires var p := GetIn(event.fields, "ResourceProperties"); !p.Dict? || !GetIn(p.fields, "AccountId").Str?
    ensures ValidateInput(event) == Raised(Invalid)
  {
  }

  /** The keys of the classification (`output`). */
  datatype Field =
    | IsAuditAccount
    | AuditCloudTrailBucketName
    | IsConnectedAccount
    | IsCloudTrailAccount
    | CloudTrailSNSTopicArn
    | IsMasterPayerAccount
    | MasterPayerBillingBucketName

  /** The four boolean fields; the other three are nullable strings. */
  predicate IsFlag(f: Field) {
    f.IsAuditAccount? || f.IsConnectedAccount? || f.IsCloudTrailAccount? || f.IsMasterPayerAccount?
  }

  /** The classification as OUTPUT_SCHEMA admits it. */
  datatype Output = Output(
    isAuditAccount: bool,
    auditCloudTrailBucketName: Option<string>,
    isConnectedAccount: bool,
    isCloudTrailAccount: bool,
    cloudTrailSnsTopicArn: Option<string>,
    isMasterPayerAccount: bool,
    masterPayerBillingBucketName: Option<string>)

  /** DEFAULT_OUTPUT: every flag false, every name null. */
  const DefaultOutput := Output(false, None, false, false, None, false, None)

  /** A nullable string as a Python value. */
  function NameValue(n: Option<string>): Value {
    match n
    case None => Null
    case Some(s) => Str(s)
  }

  /** The output dictionary that holds `o`. */
  function OutputValue(o: Output): map<Field, Value> {
    map[
      IsAuditAccount := Bool(o.isAuditAccount),
      AuditCloudTrailBucketName := NameValue(o.auditCloudTrailBucketName),
      IsConnectedAccount := Bool(o.isConnectedAccount),
      IsCloudTrailAccount := Bool(o.isCloudTrailAccount),
      CloudTrailSNSTopicArn := NameValue(o.cloudTrailSnsTopicArn),
      IsMasterPayerAccount := Bool(o.isMasterPayerAccount),
      MasterPayerBillingBucketName := NameValue(o.masterPayerBillingBucketName)]
  }

  /** Every field is present, each flag a bool and each name `None` or a string. */
  ghost predicate WellTyped(out: map<Field, Value>) {
    forall f: Field :: f in out && (if IsFlag(f) then out[f].Bool? else out[f].Null? || out[f].Str?)
  }

  /** `Any(None, str)` */
  function ParseName(v: Value): Option<Option<string>> {
    if v.Null? then Some(None) else if v.Str? then Some(Some(v.s)) else None
  }

  /** `bool` */
  function ParseFlag(v: Value): Option<bool> {
    if v.Bool? then Some(v.b) else None
  }

  /** OUTPUT_SCHEMA (`required=True, extra=ALLOW_EXTRA`) applied to the output dictionary. */
  function ValidateOutput(out: map<Field, Value>): (r: Result<Output>)
    ensures r.Ok? <==> WellTyped(out)
    ensures r.Ok? ==> OutputValue(r.value) == out
    ensures r.Raised? ==> r.error == Invalid
  {
    if forall f: Field :: f in out then
      var audit := ParseFlag(out[IsAuditAccount]);
      var auditBucket := ParseName(out[AuditCloudTrailBucketName]);
      var connected := ParseFlag(out[IsConnectedAccount]);
      var cloudTrail := ParseFlag(out[IsCloudTrailAccount]);
      var topic := ParseName(out[CloudTrailSNSTopicArn]);
      var masterPayer := ParseFlag(out[IsMasterPayerAccount]);
      var billingBucket := ParseName(out[MasterPayerBillingBucketName]);
      WellTypedByField(out);
      if audit.Some? && auditBucket.Some? && connected.Some? && cloudTrail.Some?
        && topic.Some? && masterPayer.Some? && billingBucket.Some?
      then
        ParsedOutput(out);
        Ok(Output(audit.value, auditBucket.value, connected.value, cloudTrail.value,
                  topic.value, masterPayer.value, billingBucket.value))
      else
        Raised(Invalid)
    else
      Raised(Invalid)
  }

  /** With every field present, the record is well typed exactly when each field parses. */
  lemma WellTypedByField(out: map<Field, Value>)
    requires forall f: Field :: f in out
    ensures WellTyped(out) <==>
      && ParseFlag(out[IsAuditAccount]).Some?
      && ParseName(out[AuditCloudTrailBucketName]).Some?
      && ParseFlag(out[IsConnectedAccount]).Some?
      && ParseFlag(out[IsCloudTrailAccount]).Some?
      && ParseName(out[CloudTrailSNSTopicArn]).Some?
      && ParseFlag(out[IsMasterPayerAccount]).Some?
      && ParseName(out[MasterPayerBillingBucketName]).Some?
  {
    if !WellTyped(out) {
      var f: Field :| !(if IsFlag(f) then out[f].Bool? else out[f].Null? || out[f].Str?);
      match f
      case IsAuditAccount =>
      case AuditCloudTrailBucketName =>
      case IsConnectedAccount =>
      case IsCloudTrailAccount =>
      case CloudTrailSNSTopicArn =>
      case IsMasterPayerAccount =>
      case MasterPayerBillingBucketName =>
    }
  }

  /** The record built from the parsed fields holds exactly the dictionary's values. */
  lemma ParsedOutput(out: map<Field, Value>)
    requires forall f: Field :: f in out
    requires ParseFlag(out[IsAuditAccount]).Some? && ParseName(out[AuditCloudTrailBucketName]).Some?
    requires ParseFlag(out[IsConnectedAccount]).Some? && ParseFlag(out[IsCloudTrailAccount]).Some?
    requires ParseName(out[CloudTrailSNSTopicArn]).Some? && ParseFlag(out[IsMasterPayerAccount]).Some?
    requires ParseName(out[MasterPayerBillingBucketName]).Some?
    ensures OutputValue(Output(
      ParseFlag(out[IsAuditAccount]).value, ParseName(out[AuditCloudTrailBucketName]).value,
      ParseFlag(out[IsConnectedAccount]).value, ParseFlag(out[IsCloudTrailAccount]).value,
      ParseName(out[CloudTrailSNSTopicArn]).value, ParseFlag(out[IsMasterPayerAccount]).value,
      ParseName(out[MasterPayerBillingBucketName]).value)) == out
  {
    var o := Output(
      ParseFlag(out[IsAuditAccount]).value, ParseName(out[AuditCloudTrailBucketName]).value,
      ParseFlag(out[IsConnectedAccount]).value, ParseFlag(out[IsCloudTrailAccount]).value,
      ParseName(out[CloudTrailSNSTopicArn]).value, ParseFlag(out[IsMasterPayerAccount]).value,
      ParseName(out[MasterPayerBillingBucketName]).value);
    forall f: Field
      ensures f in OutputValue(o) && OutputValue(o)[f] == out[f]
    {
      match f
      case IsAuditAccount =>
      case AuditCloudTrailBucketName =>
      case IsConnectedAccount =>
      case IsCloudTrailAccount =>
      case CloudTrailSNSTopicArn =>
      case IsMasterPayerAccount =>
      case MasterPayerBillingBucketName =>
    }
  }

  /** Any classification passes OUTPUT_SCHEMA unchanged. */
  lemma OutputRoundTrip(o: Output)
    ensures ValidateOutput(OutputValue(o)) == Ok(o)
  {
    var out := OutputValue(o);
    forall f: Field
      ensures f in out && (if IsFlag(f) then out[f].Bool? else out[f].Null? || out[f].Str?)
    {
      match f
      case IsAuditAccount =>
      case AuditCloudTrailBucketName =>
      case IsConnectedAccount =>
      case IsCloudTrailAccount =>
      case CloudTrailSNSTopicArn =>
      case IsMasterPayerAccount =>
      case MasterPayerBillingBucketName =>
    }
    var r := ValidateOutput(out);
    assert r.Ok?;
    var v := r.value;
    assert OutputValue(v) == out;
    assert OutputValue(v)[AuditCloudTrailBucketName] == out[AuditCloudTrailBucketName];
    assert OutputValue(v)[CloudTrailSNSTopicArn] == out[CloudTrailSNSTopicArn];
    assert OutputValue(v)[MasterPayerBillingBucketName] == out[MasterPayerBillingBucketName];
  }
}
