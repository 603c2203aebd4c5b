# geo-storage policy updaters, in Dafny

This project models the runtime logic of the geo-storage infrastructure repository.
Almost all of that repository declares cloud resources. The part with behaviour is two
custom-resource handlers. Each one adds a fixed `Allow` statement for
`cloudfront.amazonaws.com` to a resource's JSON access policy. It leaves the statements
already in the policy as they are. The project also models two small pure helpers: the
bucket-name functions, whose only caller (`getBucketArns` in `src/utils.ts`) is left out,
and the branch-to-configuration lookup that the app entry point `src/main.ts` calls.

- `policy_merge.dfy` (`PolicyMerge`) holds what both handlers share: the policy document
  (`Statement` with `Sid`, `Effect`, `Principal`, `Action`, `Resource`, `Condition`) and
  an abstract JSON encoding (`Stringify`, `ParsePolicy`). It also holds the
  `HasStatement` check that mirrors `Statement.some(...)`, the append-if-missing merge
  `AddIfMissing`, the `Plan` a handler reaches, and the response it returns.
- `s3_bucket_policy_updater.dfy` (`S3BucketPolicyUpdater`) models the bucket-policy
  handler. `BucketPolicyStore` is a class that stands for S3's bucket-policy slots. It
  holds the stored policies, the errors each call raises, and counters of gets and puts.
  `Handle` is the handler written as an imperative method. Its postcondition ties the
  new store state and the response to the pure `S3Plan`. The lemmas after it prove
  what the handler promises about `S3Plan`.
- `kms_policy_updater.dfy` (`KmsPolicyUpdater`) models the key-policy handler in the same
  form: `KeyPolicyStore`, `Handle` and `KmsPlan`. The two variants are kept apart. The
  bucket variant falls back to an empty `2012-10-17` document when the bucket has no
  policy, and skips parsing when the policy text is missing or empty. The key variant
  has no fallback, so any read failure is rethrown. It also parses whatever text it
  gets, so missing or empty text is a `SyntaxError`.
- `statics.dfy` (`Statics`) models the environments, the seven bucket-name functions
  and the platform-operator role ARN.
- `configuration.dfy` (`Configuration`) models the configuration table and
  `getConfiguration`.

The check for an existing grant looks only at `Sid` and `Principal.Service`. It does not
look at the condition. So the handlers skip the write even when the stored statement
names a different distribution. `ExistingGrantIsKept` states this in both modules.
Idempotence follows from it. After a successful Create or Update the stored policy is
`Reconciled`, so a second Create or Update issues no put. See `SecondRunKeeps` and
`CreateThenUpdate` in both modules.

Each handler reads `RequestType` from its event's resource properties, not from the
event's top level, where CloudFormation puts it. The constructs that deploy the inline copies of the handlers pass only the resource
name and the distribution ARN as properties, so wherever a construct is instantiated the
handler never sees a request type. No stack in the repository instantiates either
construct, so this is latent. The handler's own view of its event (`S3Event`, `KmsEvent`) therefore carries the
request type as an `Option`. `LifecycleEvent` is the event CloudFormation delivers.
`HandlerViewAsWired` is what the handler reads from it as wired, and `HandlerView` is
the corrected reading. See "Findings".

JavaScript truthiness is modelled where the code relies on it. A `PhysicalResourceId`
that is the empty string counts as absent on Delete. In the bucket variant, a policy
text that is missing or empty counts as no policy.

## Model

| member | source | states |
|---|---|---|
| `PolicyMerge.DeletePhysicalId` | src/lambda/s3-bucket-policy-updater.lambda.ts:30 | On Delete the id is the event's `PhysicalResourceId` when it is present and non-empty, otherwise the synthesized id. |
| `PolicyMerge.Stringify` | src/lambda/s3-bucket-policy-updater.lambda.ts:96 | Stringifying a document and parsing it back gives the same document. |
| `PolicyMerge.ParsePolicy` | src/lambda/kms-policy-updater.lambda.ts:46-49 | Parsing succeeds exactly on the JSON of a document. Text that is not JSON, the empty text included, is a `SyntaxError`. Non-empty JSON without a `Statement` array is a `TypeError`. |
| `PolicyMerge.Matches` | src/lambda/s3-bucket-policy-updater.lambda.ts:65-67 | A match has the expected `Sid` and a principal. A `"*"` principal, a principal without `Service`, and a `Service` given as a list never match. |
| `PolicyMerge.HasStatement` | src/lambda/s3-bucket-policy-updater.lambda.ts:64-68 | An empty statement list has no match. When the scan reports a match, some statement in the list matches. |
| `PolicyMerge.HasStatementIffSome` | src/lambda/s3-bucket-policy-updater.lambda.ts:64-68 | The front-to-back scan holds exactly when some statement has the expected `Sid` and `Principal.Service` `cloudfront.amazonaws.com`. |
| `PolicyMerge.AddIfMissing` | src/lambda/s3-bucket-policy-updater.lambda.ts:63-91 | After the merge a matching statement is present. The old statements are an unchanged prefix, with at most one added after them, and that one is the grant. The list is unchanged exactly when a match was already there. Otherwise the result has exactly one matching statement. |
| `PolicyMerge.AddIfMissingIdempotent` | src/lambda/kms-policy-updater.lambda.ts:49-73 | Merging a second time, with any matching grant, changes nothing. |
| `PolicyMerge.Respond` | src/lambda/s3-bucket-policy-updater.lambda.ts:105-112 | The response succeeds unless the plan failed or its put failed. Errors are rethrown unchanged. A success carries the plan's id and empty `Data`. |
| `S3BucketPolicyUpdater.PhysicalId` | src/lambda/s3-bucket-policy-updater.lambda.ts:106 | The id is `s3-policy-` followed by the bucket name. |
| `S3BucketPolicyUpdater.Grant` | src/lambda/s3-bucket-policy-updater.lambda.ts:72-91 | The added statement passes the check. Its Sid is `AllowCloudfrontToAccessBucket` and its Principal is exactly `Service` `cloudfront.amazonaws.com`. Its Effect is `Allow` and its Actions are `s3:GetObject` and `s3:ListBucket`. Its Resources are the bucket ARN and the bucket ARN followed by `/*`. Its condition is `StringEquals` with `AWS:SourceArn` set to the distribution ARN. |
| `S3BucketPolicyUpdater.Truthy` | src/lambda/s3-bucket-policy-updater.lambda.ts:51 | A response without a `Policy` field and an empty policy text are falsy, so nothing is parsed. Any JSON text is truthy. |
| `S3BucketPolicyUpdater.WorkingDocument` | src/lambda/s3-bucket-policy-updater.lambda.ts:36-61 | `NoSuchBucketPolicy`, a missing policy text and an empty policy text all give the empty `2012-10-17` document. Any other get error is rethrown. A non-empty text is parsed. |
| `S3BucketPolicyUpdater.S3Plan` | src/lambda/s3-bucket-policy-updater.lambda.ts:27-108 | Only a `RequestType` of Delete skips. A failure carries the read error. Keep happens exactly when the read document already has the statement. Write carries the read document with `AddIfMissing` applied, and it always changes the document. Both Keep and Write answer `s3-policy-<bucket>`. |
| `S3BucketPolicyUpdater.GetOutcome` | src/lambda/s3-bucket-policy-updater.lambda.ts:43-46 | A get returns the injected fault for the bucket if there is one. Otherwise it returns the stored policy, or `NoSuchBucketPolicy` when the bucket has none. |
| `S3BucketPolicyUpdater.BucketPolicyStore.GetBucketPolicy` | src/lambda/s3-bucket-policy-updater.lambda.ts:43-46 | A get returns `GetOutcome` and counts one get. It changes nothing else. |
| `S3BucketPolicyUpdater.BucketPolicyStore.PutBucketPolicy` | src/lambda/s3-bucket-policy-updater.lambda.ts:94-98 | A put replaces the bucket's whole policy unless the put fails. It counts one put. |
| `S3BucketPolicyUpdater.Handle` | src/lambda/s3-bucket-policy-updater.lambda.ts:17-113 | A `RequestType` of Delete does no get. Otherwise, an absent `RequestType` included, the handler does exactly one get. It does one put exactly when `S3Plan` writes, and none otherwise. The put stores the merged document for this bucket, and no other policy changes. The response is the plan's response. |
| `S3BucketPolicyUpdater.DeleteSkips` | src/lambda/s3-bucket-policy-updater.lambda.ts:27-33 | Delete returns the event's id, or `s3-policy-<bucket>`, with empty `Data`, whatever is stored. |
| `S3BucketPolicyUpdater.MissingPolicyStartsEmpty` | src/lambda/s3-bucket-policy-updater.lambda.ts:36-61 | When the bucket has no policy, the handler writes a `2012-10-17` document that holds only the grant. |
| `S3BucketPolicyUpdater.OtherErrorsPropagate` | src/lambda/s3-bucket-policy-updater.lambda.ts:54-61 | Any other get error, or a text that does not parse, fails the invocation. A get error fails it with that same error. |
| `S3BucketPolicyUpdater.ExistingGrantIsKept` | src/lambda/s3-bucket-policy-updater.lambda.ts:64-68 | A stored grant skips the write, even when its condition names another distribution. |
| `S3BucketPolicyUpdater.WriteAppendsOneStatement` | src/lambda/s3-bucket-policy-updater.lambda.ts:70-98 | A write happens only when no matching statement was there. It appends exactly the grant at the end and keeps the earlier statements and the version. The result has exactly one matching statement. |
| `S3BucketPolicyUpdater.StablePhysicalId` | src/lambda/s3-bucket-policy-updater.lambda.ts:105-108 | A successful Create or Update answers `s3-policy-<bucket>`, whatever id the event carried. |
| `S3BucketPolicyUpdater.HandlerViewAsWired` | src/S3BucketPolicyUpdater.ts:154-160 | As the construct wires it, the resource properties carry no `RequestType`, so the handler reads none, whatever the lifecycle event; the bucket, distribution and id pass through. |
| `S3BucketPolicyUpdater.HandlerView` | src/lambda/s3-bucket-policy-updater.lambda.ts:21-28 | The corrected reading takes the request type from the event's top level; the bucket, distribution and id pass through. |
| `S3BucketPolicyUpdater.WiredDeleteStillMerges` | src/lambda/s3-bucket-policy-updater.lambda.ts:21-28 | As wired, a stack deletion is not skipped. A failed get fails the deletion with that error, and a bucket without a policy gets the one-statement policy written. |
| `S3BucketPolicyUpdater.LifecycleDeleteSkips` | src/lambda/s3-bucket-policy-updater.lambda.ts:27-33 | With the corrected reading, exactly the Delete events skip, and they answer the event's id or `s3-policy-<bucket>`. |
| `S3BucketPolicyUpdater.SuccessReconciles` | src/lambda/s3-bucket-policy-updater.lambda.ts:63-103 | After a successful Create or Update, the stored bucket policy already contains the statement. |
| `S3BucketPolicyUpdater.SecondRunKeeps` | src/lambda/s3-bucket-policy-updater.lambda.ts:63-103 | On a bucket whose policy already contains the statement, another Create or Update keeps the policy and writes nothing. |
| `S3BucketPolicyUpdater.CreateThenUpdate` | src/lambda/s3-bucket-policy-updater.lambda.ts:17-113 | Create runs with at most one put. If Create succeeds, Create and Update together do at most one put: Update makes no put, changes no policy and gives the same answer, and the stored policy contains the statement. |
| `KmsPolicyUpdater.PhysicalId` | src/lambda/kms-policy-updater.lambda.ts:89 | The id is `kms-policy-` followed by the key id. |
| `KmsPolicyUpdater.Grant` | src/lambda/kms-policy-updater.lambda.ts:57-73 | The added statement passes the check. Its Sid is `AllowCloudfrontToDecryptWithKey` and its Principal is exactly `Service` `cloudfront.amazonaws.com`. Its Effect is `Allow` and its Actions are `kms:Decrypt` and `kms:DescribeKey`. Its Resource is the single string `*`. Its condition is `StringEquals` with `AWS:SourceArn` set to the distribution ARN. |
| `KmsPolicyUpdater.ReadDocument` | src/lambda/kms-policy-updater.lambda.ts:37-46 | Every get error is rethrown, including a missing policy. A missing policy text is a `SyntaxError`. Otherwise the text is parsed. |
| `KmsPolicyUpdater.KmsPlan` | src/lambda/kms-policy-updater.lambda.ts:28-91 | Only a `RequestType` of Delete skips. Keep happens exactly when the read document already has the statement. Write carries the read document with `AddIfMissing` applied. Both Keep and Write answer `kms-policy-<key>`. |
| `KmsPolicyUpdater.GetOutcome` | src/lambda/kms-policy-updater.lambda.ts:37-41 | A get of a key policy returns the injected fault for the key if there is one. Otherwise it returns the stored policy, or `NotFoundException` when there is none. |
| `KmsPolicyUpdater.KeyPolicyStore.GetKeyPolicy` | src/lambda/kms-policy-updater.lambda.ts:37-41 | A get returns `GetOutcome` for the named key policy and counts one get. |
| `KmsPolicyUpdater.KeyPolicyStore.PutKeyPolicy` | src/lambda/kms-policy-updater.lambda.ts:76-81 | A put replaces the named key policy unless the put fails. It counts one put. |
| `KmsPolicyUpdater.Handle` | src/lambda/kms-policy-updater.lambda.ts:17-96 | A `RequestType` of Delete does no get. Otherwise, an absent `RequestType` included, the handler does exactly one get, of the key policy named `default`. It does one put exactly when `KmsPlan` writes. The put goes to the same key and `default`, and no other policy changes. The response is the plan's response. |
| `KmsPolicyUpdater.DeleteSkips` | src/lambda/kms-policy-updater.lambda.ts:28-33 | Delete returns the event's id, or `kms-policy-<key>`, with empty `Data`. |
| `KmsPolicyUpdater.NoMissingPolicyFallback` | src/lambda/kms-policy-updater.lambda.ts:37-46 | Any get failure fails the invocation with that same error, a missing policy included. A missing, empty or unparsable text fails it too, and nothing is written. |
| `KmsPolicyUpdater.ExistingGrantIsKept` | src/lambda/kms-policy-updater.lambda.ts:49-53 | A stored grant skips the write, even when its condition names another distribution. |
| `KmsPolicyUpdater.WriteAppendsOneStatement` | src/lambda/kms-policy-updater.lambda.ts:55-81 | A write happens only when no matching statement was there. It appends exactly the grant and keeps the earlier statements in order. The result has exactly one matching statement. |
| `KmsPolicyUpdater.StablePhysicalId` | src/lambda/kms-policy-updater.lambda.ts:88-91 | A successful Create or Update answers `kms-policy-<key>`. |
| `KmsPolicyUpdater.HandlerViewAsWired` | src/CloudfrontKmsPolicy.ts:131-137 | As the construct wires it, the resource properties carry no `RequestType`, so the handler reads none, whatever the lifecycle event; the key, distribution and id pass through. |
| `KmsPolicyUpdater.HandlerView` | src/lambda/kms-policy-updater.lambda.ts:21-28 | The corrected reading takes the request type from the event's top level; the key, distribution and id pass through. |
| `KmsPolicyUpdater.WiredDeleteStillMerges` | src/lambda/kms-policy-updater.lambda.ts:21-28 | As wired, a stack deletion is not skipped. A failed get fails the deletion with that error, and a key policy with no statements gets the grant written. |
| `KmsPolicyUpdater.LifecycleDeleteSkips` | src/lambda/kms-policy-updater.lambda.ts:28-33 | With the corrected reading, exactly the Delete events skip, and they answer the event's id or `kms-policy-<key>`. |
| `KmsPolicyUpdater.SuccessReconciles` | src/lambda/kms-policy-updater.lambda.ts:49-86 | After a successful Create or Update, the `default` key policy already contains the statement. |
| `KmsPolicyUpdater.SecondRunKeeps` | src/lambda/kms-policy-updater.lambda.ts:49-86 | On a key whose policy already contains the statement, another Create or Update writes nothing. |
| `KmsPolicyUpdater.CreateThenUpdate` | src/lambda/kms-policy-updater.lambda.ts:17-96 | Create runs with at most one put. If Create succeeds, Create and Update together do at most one put: Update makes no put, changes no policy and gives the same answer, and the `default` key policy contains the statement. |
| `Statics.BucketBackupSuffix` | src/Statics.ts:56 | The suffix is `-backup` for a backup bucket and empty otherwise. |
| `Statics.BucketName` | src/Statics.ts:57-63 | A bucket name is the kind's prefix, then the branch, then the suffix. The branch can be read back from the name. |
| `Statics.CycloramaBucket` | src/Statics.ts:57 | The cyclorama bucket's name is its `BucketName`. |
| `Statics.MeshBucket` | src/Statics.ts:58 | The mesh bucket's name is its `BucketName`. |
| `Statics.ObliekBucket` | src/Statics.ts:59 | The obliek bucket's name is its `BucketName`. |
| `Statics.OrthoBucket` | src/Statics.ts:60 | The ortho bucket's name is its `BucketName`. |
| `Statics.LidarAirborneBucket` | src/Statics.ts:61 | The airborne lidar bucket's name is its `BucketName`. |
| `Statics.LidarTerrestrischBucket` | src/Statics.ts:62 | The terrestrial lidar bucket's name is its `BucketName`. |
| `Statics.KaartViewerDocsBucket` | src/Statics.ts:63 | The map-viewer docs bucket's name is its `BucketName`. |
| `Statics.BackupNameExtendsPrimary` | src/Statics.ts:56-63 | A backup bucket's name is the primary name followed by `-backup`. |
| `Statics.BucketNameInjective` | src/Statics.ts:57-63 | For a fixed kind and backup flag, different branches give different names. |
| `Statics.BucketNamesDistinct` | src/Statics.ts:57-63 | Buckets of different kinds never share a name, whatever their branches and backup flags. |
| `Statics.LandingzonePlatformOperatorRoleArn` | src/Statics.ts:66 | The ARN is, in order, `arn:aws:iam::`, the account id, `:role/aws-reserved/sso.amazonaws.com/`, the region and `/AWSReservedSSO_lz-platform-operator_*`; its length is the sum of theirs. An account id without a colon can also be read back by scanning to the next colon. |
| `Configuration.MissingConfigurationMessage` | src/Configuration.ts:52 | The error message names the branch. |
| `Configuration.ConfigurationsTable` | src/Configuration.ts:40-47 | `acceptance` is the only key, and every entry's `branchName` is its key. Acceptance deploys from account 836443378780 to account 766983128454, both in eu-central-1. |
| `Configuration.GetConfiguration` | src/Configuration.ts:49-55 | The lookup succeeds exactly for branches in the table, and then returns that entry, whose `branchName` is the branch. Otherwise it throws the message that names the branch. |
| `Configuration.IndexObject` | src/Configuration.ts:50 | Indexing the object literal finds the table entry, an inherited `Object.prototype` member, or nothing. |
| `Configuration.GetConfigurationAsWritten` | src/Configuration.ts:49-55 | The lookup as written throws only when the index finds nothing, and then throws the message that names the branch. |
| `Configuration.InheritedNameEscapesGuard` | src/Configuration.ts:50-53 | The branch `constructor` is not in the table. The lookup as written returns without throwing, and the corrected lookup refuses it. |
| `Configuration.AsWrittenAgreesOutsideInheritedNames` | src/Configuration.ts:49-55 | Apart from the inherited member names, the lookup as written and the corrected lookup agree. |

## Left out

- AWS SDK clients and the network are replaced by the two store classes. Their get and put faults are fixed maps, so a fault is deterministic per resource and per call kind.
- `JSON.parse` and `JSON.stringify` are an abstract encoding (`PolicyText`), not a JSON parser. JSON members the model does not name, such as `Id` or `NotAction`, are not carried through a round trip. A `Statement` array entry that is not an object cannot be represented, because `Statement` models objects only. In the source such an entry has no `Sid`, so the scan passes over it and the merge keeps it; a `null` entry throws a `TypeError`, but only when the scan reaches it before a match.
- `Principal.Service` given as an array is one of the `Entities` values other than `One`, so it does not match. This is what the strict `===` in the source does.
- Of the custom-resource event, only the request type, the physical id and the resource properties are modelled. The response URL, stack and request ids belong to the lifecycle manager.
- Logging through `console.log` and `console.error` is not modelled.
- Timeouts, retries by the lifecycle manager, and the lost-update race between two concurrent invocations on one resource are left out. Each invocation is modelled as running alone.
- The inline copies of the two handlers in `src/S3BucketPolicyUpdater.ts` and `src/CloudfrontKmsPolicy.ts` are not modelled separately. Their logic is the same as the `.lambda.ts` handlers modelled here, including the read of `RequestType` from the resource properties.
- The CDK stacks and constructs are resource declarations with no behaviour, so they are left out. The hash-derived construct ids and the `BRANCH_NAME` environment read in `src/main.ts` are left out too.
- `src/utils.ts` `getBucketArns` is left out. It calls a bucket-name function that `src/Statics.ts` does not define.
- The seven bucket-name functions are modelled once, as `BucketName` over a `BucketKind`. Each source function also keeps its own wrapper.
- Statics' SSM parameter names and its other plain string constants are not modelled, because no logic depends on them. The project name, the five environments and the connection ARN are kept as constants; only the deployment and acceptance environments and the connection ARN are used, by the configuration table.

## Findings

| source | as written | input that shows it | evidently intended | confidence | as-written member | corrected member |
|---|---|---|---|---|---|---|
| src/Configuration.ts:50-53 | `configurations[buildBranch]` indexes a plain object literal. Names inherited from `Object.prototype` are truthy, so they pass the `!config` guard. | branch `constructor` returns the `Object` function instead of throwing | throw for every branch without an own entry in the table | high, not executed | `Configuration.GetConfigurationAsWritten` | `Configuration.GetConfiguration` |
| src/lambda/s3-bucket-policy-updater.lambda.ts:21-28 | `RequestType` is destructured from `ResourceProperties`. The construct passes only `BucketName` and `CloudfrontDistributionArn` there (src/S3BucketPolicyUpdater.ts:154-160), and CloudFormation puts the request type at the event's top level. No stack in the repository instantiates the construct, so the defect is latent. | a Delete event: the read request type is undefined, so the handler gets the bucket policy and merges; a failed get (the bucket already gone) fails the deletion, and a bucket without a policy gets the grant written (`S3BucketPolicyUpdater.WiredDeleteStillMerges`) | read the top-level `RequestType`, so that Delete returns at once | high, not executed | `S3BucketPolicyUpdater.HandlerViewAsWired` | `S3BucketPolicyUpdater.HandlerView` |
| src/lambda/kms-policy-updater.lambda.ts:21-28 | `RequestType` is destructured from `ResourceProperties`. The construct passes only `KeyId` and `CloudfrontDistributionArn` there (src/CloudfrontKmsPolicy.ts:131-137), and CloudFormation puts the request type at the event's top level. No stack in the repository instantiates the construct, so the defect is latent. | a Delete event: the read request type is undefined, so the handler gets the key policy and merges; a failed get (the key pending deletion) fails the deletion, and a policy without the grant gets it written (`KmsPolicyUpdater.WiredDeleteStillMerges`) | read the top-level `RequestType`, so that Delete returns at once | high, not executed | `KmsPolicyUpdater.HandlerViewAsWired` | `KmsPolicyUpdater.HandlerView` |
