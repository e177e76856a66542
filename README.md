# Account discovery: a Dafny model

This project models the classification engine of the account-discovery
CloudFormation custom resource (`services/discovery/src/app.py`). The engine
takes a CloudFormation request naming an AWS account and three listings:

- CloudTrail trails;
- S3 buckets;
- Cost & Usage Report definitions.

From these it decides four things. Is this the audit account, whose bucket
stores the first trail's logs? Is it a connected account (always, on
success)? Is it the CloudTrail account, owning the SNS topic of the
preferred trail? Is it the master payer, holding a valid billing report in
a local bucket? The answer is a seven-field output record. When any stage
raises, `DEFAULT_OUTPUT` (every flag false, every name null) is handed to
`cfnresponse.send` instead.

The Python code threads a "world" dictionary through a `pipe` of pure
stages. The model does the same with immutable values.

| file | module | contents |
|---|---|---|
| `wrappers.dfy` | `Wrappers` | `Option` |
| `python.dfy` | `Python` | decoded JSON values, the exceptions the code can raise, a `Result` that either returns or raises, truthiness and hashability |
| `seqs.dfy` | `Seqs` | order-preserving `Filter`, and what "keeps exactly the passing elements, in order" and "first passing position" mean |
| `schemas.dfy` | `Schemas` | the trail and billing-report schemas, `safe_check` and `keep_valid` |
| `boundary.dfy` | `Boundary` | `INPUT_SCHEMA`, `OUTPUT_SCHEMA`, `DEFAULT_OUTPUT` |
| `arn.dfy` | `Arn` | `str.split` on one separator and its inverse `join` |
| `worlds.dfy` | `Worlds` | the world, the `coeffect` wrapper, the output merge |
| `discovery.dfy` | `Discovery` | the four rules and `discover_account_types` |
| `handler.dfy` | `Handler` | the pipeline and the world-or-default choice in `handler` |

Each rule is proved against an independent declarative statement of what it
should report:

- `SelectedTopic`: the first ideal trail's topic ARN; failing that, the first
  minimum trail's; failing that, null.
- `SelectedBillingBucket`: the first valid local report's bucket; failing
  that, the first valid report's; failing that, null.
- `HasBucketNamed`: membership in the local bucket names.
- `ArnAccountIs`: field 4 of the colon-split ARN.

The rules themselves follow the Python code step by step: the
comprehensions, `keep_valid(...) or keep_valid(...)`, `any(...)`, `[0]`
indexing and `split(':')[4]`. Every exception the Python code can raise on
these inputs is modelled as a `Raised` result:

- a bucket without `Name` raises `KeyError`;
- a list or dictionary used as a set member raises `TypeError`;
- a non-empty topic ARN with fewer than four colons raises `IndexError`; an
  empty one is falsy and is reported with `IsCloudTrailAccount` false;
- a schema rejection raises voluptuous' `Invalid`.

The handler turns any of these into `DEFAULT_OUTPUT` as the output it hands
to `cfnresponse.send`. One more exception lies outside the model: see
"## Left out" on a request that is not a dictionary.

## Model

| member | source | states |
|---|---|---|
| Seqs.Filter | services/discovery/src/app.py:137-140 | a comprehension filter is never longer than its input, and keeps only input elements that pass the condition |
| Seqs.FilterSelects | services/discovery/src/app.py:136-140 | filtering keeps exactly the elements that pass, at strictly increasing positions, i.e. in their original relative order |
| Seqs.FilterHead | services/discovery/src/app.py:157-158 | the filtered list is empty iff nothing passes; otherwise its first element is the first passing element of the input |
| Seqs.FilterFilter | services/discovery/src/app.py:193-195 | filtering by one condition and then by another equals filtering once by their conjunction |
| Schemas.MinimumTrail | services/discovery/src/app.py:143-149 | the definition of MINIMUM_CLOUDTRAIL_CONFIGURATION: string `S3BucketName`, `SnsTopicName`, `SnsTopicARN` and `TrailARN`, and `IsMultiRegionTrail` exactly `True`, extra keys allowed; `Schemas.IdealIsMinimum` relates it to the ideal schema |
| Schemas.BillingReport | services/discovery/src/app.py:173-183 | the definition of MINIMUM_BILLING_REPORT: the literal values of `TimeUnit`, `Format`, `Compression`, `ReportVersioning` and `RefreshClosedReports`, `AdditionalSchemaElements` exactly `['RESOURCES']`, and string `S3Bucket`, `S3Prefix` and `S3Region`; `Discovery.ValidLocalReports` and `Discovery.MasterPayerSelection` use it |
| Schemas.KeepValid | services/discovery/src/app.py:136-140 | the definition of `keep_valid`: check each candidate with `safe_check`, then drop the Nones; `Schemas.KeepValidIsFilter` and `Schemas.KeepValidSelects` prove it keeps exactly the passing candidates, in order |
| Schemas.IdealTrail | services/discovery/src/app.py:152-154 | the ideal trail schema extends the minimum one, so every ideal trail is a minimum trail |
| Schemas.SafeCheck | services/discovery/src/app.py:128-133 | `safe_check` returns the candidate unchanged iff the schema accepts it, and None otherwise; it never raises |
| Schemas.KeepValidIsFilter | services/discovery/src/app.py:136-140 | checking each candidate and dropping the Nones is the same as filtering by the schema |
| Schemas.KeepValidSelects | services/discovery/src/app.py:136-140 | `keep_valid` returns exactly the candidates that pass, in their original order, is a subsequence of its input and is never longer |
| Schemas.IdealIsMinimum | services/discovery/src/app.py:143-154 | every trail kept by the ideal schema is also kept by the minimum schema |
| Boundary.DefaultOutput | services/discovery/src/app.py:21-29 | the definition of DEFAULT_OUTPUT: every flag false, every name None; `Handler.Handle` and `Handler.MissingAccountIdSendsDefault` state when it is used |
| Boundary.ParseRequestType | services/discovery/src/app.py:39 | `Any('Create', 'Update', 'Delete')` accepts exactly the three request-type names and maps each to its own constructor |
| Boundary.ValidateInput | services/discovery/src/app.py:37-46 | INPUT_SCHEMA either returns the four validated fields or raises a schema error |
| Boundary.InputRoundTrip | services/discovery/src/app.py:37-46 | a request holding exactly the validated fields validates back to the same input |
| Boundary.InputAcceptedIff | services/discovery/src/app.py:37-46 | a request validates to a given input iff it is a dictionary whose `RequestType`, `ResourceProperties.AccountId`, `ResponseURL` and `StackId` are that input's values, whatever else it holds |
| Boundary.InputIgnoresExtraKeys | services/discovery/src/app.py:37-46 | top-level keys outside the schema never change the validated input (REMOVE_EXTRA) |
| Boundary.PropertiesIgnoreExtraKeys | services/discovery/src/app.py:40-42 | keys inside `ResourceProperties` other than `AccountId` (such as `ServiceToken`) never change the validated input (REMOVE_EXTRA applies there too) |
| Boundary.InputRequiresAccountId | services/discovery/src/app.py:40-42 | a request without a string `ResourceProperties.AccountId` is rejected |
| Boundary.ValidateOutput | services/discovery/src/app.py:48-58 | OUTPUT_SCHEMA succeeds iff all seven fields are present with flags bool and names None or str; on success the output record holds exactly those values; otherwise it raises a schema error |
| Boundary.WellTypedByField | services/discovery/src/app.py:49-57 | with all seven keys present, the output is well typed iff each flag is a bool and each name is None or a string |
| Boundary.OutputRoundTrip | services/discovery/src/app.py:48-58 | every output record passes OUTPUT_SCHEMA unchanged |
| Arn.Split | services/discovery/src/app.py:165 | `split(':')` gives one field more than there are colons, and no field contains a colon |
| Arn.JoinSplit | services/discovery/src/app.py:165 | joining the split fields with the separator gives back the string |
| Arn.SplitJoin | services/discovery/src/app.py:165 | splitting a join of separator-free fields gives back the fields |
| Worlds.Coeffect | services/discovery/src/app.py:75-85 | a wrapped fetcher stores its listing, or `{}` when it raised, under its own category; event, output and the other categories are unchanged, and the exception does not escape |
| Worlds.CollectCoeffects | services/discovery/src/app.py:68-72 | after the three fetchers each category holds what its own fetch returned, whatever the other two did |
| Worlds.Merge | services/discovery/src/app.py:118 | merging an output dictionary adds its keys with its values and changes nothing else |
| Worlds.AddsOnlyThen | services/discovery/src/app.py:204-209 | two stages in a row that each add only their own keys add the union, and a key the second stage does not add keeps the first stage's value |
| Discovery.LocalBuckets | services/discovery/src/app.py:113 | the set of bucket names is built iff every bucket has a hashable `Name` (else KeyError or TypeError), and it holds exactly the buckets' names |
| Discovery.FirstTrailBucket | services/discovery/src/app.py:112 | the definition of the raw first trail's `S3BucketName`, or None when there is no trail or no such key; `Discovery.AuditAccountIff` and `Handler.ClassifiedWellTyped` state its role |
| Discovery.DiscoverAuditAccount | services/discovery/src/app.py:111-118 | succeeds iff the names are hashable and so is the raw first trail's bucket; adds only the two audit fields; the bucket name is the raw first trail's `S3BucketName` (or None); IsAuditAccount is whether a local bucket has that name |
| Discovery.AuditAccountIff | services/discovery/src/app.py:111-118 | with string bucket names, IsAuditAccount is true iff the first trail has an `S3BucketName` that is a local bucket's name; with no trails both fields are false and null |
| Discovery.DiscoverConnectedAccount | services/discovery/src/app.py:121-125 | adds only IsConnectedAccount, and it is true |
| Discovery.ValidTrails | services/discovery/src/app.py:163 | the definition of `keep_valid(IDEAL) or keep_valid(MINIMUM)`; `Discovery.ChosenTopic` proves its first topic is `SelectedTopic` |
| Discovery.GetFirstValidTrail | services/discovery/src/app.py:157-158 | the definition of `get_first_valid_trail`: the first trail's `SnsTopicARN`, None for no trails, KeyError when the key is missing; `Discovery.ChosenTopic` proves it never raises on valid trails |
| Discovery.ChosenTopic | services/discovery/src/app.py:157-164 | `get_first_valid_trail(keep_valid(IDEAL) or keep_valid(MINIMUM))` never raises, and returns the selected topic: the first ideal trail's ARN, else the first minimum trail's, else None |
| Discovery.SelectedTopicUnique | services/discovery/src/app.py:161-164 | the selected topic is determined by the trail list |
| Discovery.SelectedTopicIsName | services/discovery/src/app.py:143-158 | the selected topic is a string or None |
| Discovery.TopicAccountId | services/discovery/src/app.py:165 | the definition of the account id: field 4 of the colon split, None for a falsy topic (including the empty string), IndexError for a non-empty string with fewer than five fields; `Discovery.TopicAccountIdOfString` states when it raises and what it yields |
| Discovery.TopicAccountIdOfJoin | services/discovery/src/app.py:165 | the account id extracted from an ARN built from colon-free fields is its fifth field |
| Discovery.TopicAccountIdOfString | services/discovery/src/app.py:165 | extraction from a topic string raises iff the string is non-empty with fewer than four colons; when it yields an id, that is field 4 of the split |
| Discovery.TopicAccountIdExample | services/discovery/src/app.py:165 | the ARN `arn:aws:sns:us-east-1:123456789012:topic`, built by joining its six fields, yields account `123456789012` |
| Discovery.DiscoverCloudTrailAccount | services/discovery/src/app.py:161-170 | adds only the two CloudTrail fields; the ARN is the selected topic; IsCloudTrailAccount is whether the ARN's field 4 equals the request's account id; it raises iff the selected topic is a short ARN |
| Discovery.SelectedBillingBucketUnique | services/discovery/src/app.py:190-199 | the selected billing bucket is determined by the reports and buckets, and is a string or None |
| Discovery.GetFirstValidReportBucket | services/discovery/src/app.py:186-187 | the definition of `get_first_valid_report_definition_s3_bucket`: the first definition's `S3Bucket` when any definition is truthy, else the default; `Discovery.FirstValidReportBucket` states it on valid definitions |
| Discovery.MasterPayerFields | services/discovery/src/app.py:191-199 | the definition of the master-payer pair computed from the report listing and the local bucket names; `Discovery.MasterPayerSelection` proves it equals the independent `SelectedBillingBucket` choice |
| Discovery.FirstValidReportBucket | services/discovery/src/app.py:186-187 | on schema-valid definitions `any` means non-empty, and the helper returns the first definition's bucket, or the default when there are none |
| Discovery.DiscoverMasterPayerAccount | services/discovery/src/app.py:190-201 | succeeds iff the bucket names are hashable; adds only the two master-payer fields; IsMasterPayerAccount is whether some definition passes MINIMUM_BILLING_REPORT and writes to a local bucket; the bucket is the selected one |
| Discovery.ValidLocalReports | services/discovery/src/app.py:193-195 | the local ones among the valid definitions are exactly the definitions that are valid and local, in order |
| Discovery.MasterPayerSelection | services/discovery/src/app.py:193-199 | the rule's flag is the existence of a valid local definition, and its bucket is the first valid local definition's, else the first valid definition's, else None |
| Discovery.ReportChoice | services/discovery/src/app.py:194-199 | a valid local definition exists iff the filtered local list is truthy, and the bucket picked from the two filtered lists is the selected one |
| Discovery.StagesCompose | services/discovery/src/app.py:204-209 | the four stages together add exactly the seven fields, and each field keeps the value its own stage gave it |
| Discovery.RulesCompose | services/discovery/src/app.py:204-209 | four successful rules in a row add exactly the seven fields and classify the world they started from |
| Discovery.DiscoverAccountTypes | services/discovery/src/app.py:204-209 | succeeds iff no rule raises; adds exactly the seven output keys and leaves event and coeffects alone; each field has its rule's meaning, with IsConnectedAccount true |
| Handler.Pipeline | services/discovery/src/app.py:222-226 | the definition of the `pipe`: INPUT_SCHEMA, the coeffects, the four rules, then OUTPUT_SCHEMA, stopping at the first exception; `Handler.PipelineSucceedsIff` and `Handler.PipelineClassifies` state when it succeeds and what it yields |
| Handler.Handle | services/discovery/src/app.py:219-231 | the output handed to `cfnresponse.send` is DEFAULT_OUTPUT when the pipeline raised; when it succeeded, it is the pipeline's classification and satisfies `Reports` for the requested account and the three fetches; IsConnectedAccount is true in it iff the pipeline succeeded |
| Handler.PipelineSucceedsIff | services/discovery/src/app.py:220-226 | the pipeline succeeds iff the request is valid, every bucket has a hashable name, the first trail's bucket is a string or missing, and the selected topic is not a short ARN |
| Handler.ClassifySucceedsIff | services/discovery/src/app.py:224-226 | after a valid request, the rules and OUTPUT_SCHEMA succeed iff every bucket has a hashable name, the first trail's bucket is a string or missing, and the selected topic is not a short ARN |
| Handler.PipelineClassifies | services/discovery/src/app.py:220-226 | a successful run had a valid request and hands over the seven fields with the meanings of the four rules (`Reports`), read off the request's account id and the three listings |
| Handler.ClassifiedWellTyped | services/discovery/src/app.py:48-58 | a classification fails OUTPUT_SCHEMA iff the raw first trail's bucket is neither a string nor missing |
| Handler.CloudTrailFieldsIgnoreOtherCategories | services/discovery/src/app.py:75-85 | the CloudTrail fields of a successful run depend only on the trail listing, not on the bucket or report listings |
| Handler.BucketFetchFailure | services/discovery/src/app.py:75-85 | when listing buckets fails, only the request and the trails can make the run fail; the account is then neither audit nor master payer, but the first valid report's bucket is still reported |
| Handler.NoBucketsReport | services/discovery/src/app.py:190-199 | with no buckets, an output meaning what the rules mean is neither audit nor master payer, and reports the first valid definition's bucket, or None when there is none |
| Handler.MissingAccountIdSendsDefault | services/discovery/src/app.py:217-231 | a request without an account id gets DEFAULT_OUTPUT: every flag false, every name null |
| Handler.NonLocalReportStillReported | services/discovery/src/app.py:194-199 | with no valid local definition the account is not the master payer, yet the first valid definition's bucket is reported |
| Handler.SingleOrganizationTrail | services/discovery/src/app.py:217-231 | for any valid request, one organization trail whose topic is in the requested account and whose bucket is local, and no reports: audit, connected and CloudTrail account, not master payer, with that bucket and topic |
| Handler.SingleTrailSucceeds | services/discovery/src/app.py:220-226 | for any valid request, one organization trail with a string bucket and a topic in the requested account, and one string-named bucket, the run succeeds |
| Handler.SingleTrailReport | services/discovery/src/app.py:111-201 | the only output that means what one organization trail and its local bucket mean, with no reports, is audit, connected and CloudTrail account with that bucket and topic, not master payer, no billing bucket |
| Handler.EndToEndExample | services/discovery/src/app.py:217-231 | a worked instance of the previous row, for account `123456789012` |

## Left out

- The boto3 calls `describe_trails`, `list_buckets` and `describe_report_definitions` (app.py:17-19, 90, 96, 102) are network I/O. Each is a `Fetch` parameter instead: the call raised, or it returned a response with or without its listing key.
- Whether a listing key holds something other than a list of dictionaries is not modelled. A listing is a sequence of string-keyed dictionaries.
- `cfnresponse.send` and the CloudFormation response envelope (app.py:233) are HTTP delivery. The model ends at the output dictionary handed to it.
- A request that is not a dictionary (a list, string, boolean or null) makes INPUT_SCHEMA raise, so `output` is DEFAULT_OUTPUT (app.py:231). Then `event.get('PhysicalResourceId')` in the `finally` block raises AttributeError (app.py:233), so the handler crashes and nothing is sent. `Handler.Handle` returns DEFAULT_OUTPUT for such a request, which is the value of `output` at app.py:231. The model does not capture the crash that follows.
- The response status is not modelled. The code sets it to `SUCCESS` (app.py:218) and never changes it, so the code reports SUCCESS even when it falls back to DEFAULT_OUTPUT.
- Logging and `pformat` (app.py:12-14, 82, 132, 221, 227, 232) are side effects only.
- `kwargs` and `context` play no part in classification. INPUT_SCHEMA removes `kwargs` from the world anyway.
- Numbers and floats are not part of `Value`. The fields read here are strings, booleans, lists and dictionaries. Python's `1 == True`, which voluptuous' literal `True` checks would accept, cannot be expressed.
- The voluptuous and toolz libraries are not modelled as such. Only the schemas and record updates used here are stated: `Schema`, `Any`, `ExactSequence`, `get_in`, `update_in`, `assoc_in`, `keyfilter`, `merge` and `pipe`.
- Boundary.ValidateInput: its own contract only fixes the error kind. What it accepts is stated by the separate lemmas InputAcceptedIff, InputRoundTrip, InputIgnoresExtraKeys, PropertiesIgnoreExtraKeys and InputRequiresAccountId.

## Behaviour of the code worth knowing

- The handler always reports `SUCCESS` (app.py:218), including when it falls back to DEFAULT_OUTPUT.
- Malformed candidates can raise past a rule. The audit rule reads the raw, unvalidated first trail and the raw bucket listing (app.py:112-115). A first-trail `S3BucketName` that is a list or dictionary raises `TypeError`. So does a bucket `Name` of that kind. A bucket without `Name` raises `KeyError`. A first-trail `S3BucketName` that is a boolean passes the audit rule but fails OUTPUT_SCHEMA. A non-empty selected topic ARN with fewer than four colons raises `IndexError` (app.py:165). Each of these hands DEFAULT_OUTPUT to `cfnresponse.send` for the whole account. An empty selected topic ARN raises nothing: it is falsy, so no account id is read, and it is reported with `IsCloudTrailAccount` false. The model follows the code, and `Handler.PipelineSucceedsIff` states exactly when the run succeeds.
