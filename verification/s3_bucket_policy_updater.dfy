/**
 * The bucket-policy updater: a custom-resource handler that grants the CloudFront
 * service read access to one bucket, adding its statement to the bucket policy
 * without disturbing the statements already there. A bucket that has no policy yet
 * is treated as having an empty one.
 */
module S3BucketPolicyUpdater {
  import opened Wrappers
  import opened PolicyMerge

  const StatementSid := "AllowCloudfrontToAccessBucket"

  /** What `GetBucketPolicy` raises for a bucket without a policy. */
  const NoSuchBucketPolicy := AwsError("NoSuchBucketPolicy")

  /**
   * The handler's view of its event. `requestType` is the `RequestType` resource
   * property it destructures, `None` when the properties carry none.
   */
  datatype S3Event = S3Event(
    bucketName: string,
    cloudfrontDistributionArn: string,
    requestType: Option<RequestType>,
    physicalResourceId: Option<string>)

  /** The id returned on every successful Create or Update. */
  function PhysicalId(bucketName: string): (id: string)
    ensures |id| >= 10 && id[..10] == "s3-policy-" && id[10..] == bucketName
  {
    "s3-policy-" + bucketName
  }

  /** The statement pushed when the bucket policy does not grant CloudFront yet. */
  function Grant(bucketName: string, distributionArn: string): (stmt: Statement)
    ensures Matches(stmt, StatementSid)
    ensures stmt.sid == Some(StatementSid)
    ensures stmt.principal == Some(Entities(map["Service" := One(CloudfrontService)]))
    ensures stmt.effect == "Allow"
    ensures stmt.action == Many(["s3:GetObject", "s3:ListBucket"])
    ensures stmt.resource == Many(["arn:aws:s3:::" + bucketName, "arn:aws:s3:::" + bucketName + "/*"])
    ensures stmt.condition == map["StringEquals" := map["AWS:SourceArn" := One(distributionArn)]]
  {
    Statement(
      Some(StatementSid),
      "Allow",
      Some(Entities(map["Service" := One(CloudfrontService)])),
      Many(["s3:GetObject", "s3:ListBucket"]),
      Many(["arn:aws:s3:::" + bucketName, "arn:aws:s3:::" + bucketName + "/*"]),
      map["StringEquals" := map["AWS:SourceArn" := One(distributionArn)]])
  }

  /** `if (currentPolicy.Policy)`: a missing field and the empty string are both falsy. */
  predicate Truthy(policy: Option<PolicyText>): (truthy: bool)
    ensures policy.None? ==> !truthy
    ensures policy.Some? && EmptyText(policy.value) ==> !truthy
    ensures policy.Some? && policy.value.Json? ==> truthy
  {
    policy.Some? && !EmptyText(policy.value)
  }

  /**
   * The document the handler works on after the read: the stored policy, or the empty
   * `2012-10-17` document when the bucket has none (`NoSuchBucketPolicy`) or the
   * response carries no policy text; any other read or parse error is rethrown.
   */
  function WorkingDocument(got: Result<Option<PolicyText>, AwsError>): (r: Result<Document, AwsError>)
    ensures got.Err? ==> r == (if got.error.name == "NoSuchBucketPolicy" then Ok(EmptyDocument) else Err(got.error))
    ensures got.Ok? && !Truthy(got.value) ==> r == Ok(EmptyDocument)
    ensures got.Ok? && Truthy(got.value) ==> r == ParsePolicy(got.value.value)
  {
    match got
    case Err(e) => if e.name == "NoSuchBucketPolicy" then Ok(EmptyDocument) else Err(e)
    case Ok(policy) => if Truthy(policy) then ParsePolicy(policy.value) else Ok(EmptyDocument)
  }

  /** What one invocation decides, given the event and the outcome of `GetBucketPolicy`. */
  function S3Plan(event: S3Event, got: Result<Option<PolicyText>, AwsError>): (plan: Plan)
    ensures plan.Skip? <==> event.requestType == Some(Delete)
    ensures plan.Fail? ==> WorkingDocument(got) == Err(plan.error)
    ensures plan.Keep? || plan.Write? ==> WorkingDocument(got).Ok? && plan.id == PhysicalId(event.bucketName)
    ensures plan.Keep? ==> HasStatement(WorkingDocument(got).value.statements, StatementSid)
    ensures plan.Write? ==>
      var read := WorkingDocument(got).value;
      && plan.doc == read.(statements := AddIfMissing(read.statements, StatementSid, Grant(event.bucketName, event.cloudfrontDistributionArn)))
      && plan.doc.statements != read.statements
  {
    if event.requestType == Some(Delete) then
      Skip(DeletePhysicalId(event.physicalResourceId, PhysicalId(event.bucketName)))
    else
      match WorkingDocument(got)
      case Err(e) => Fail(e)
      case Ok(doc) =>
        if HasStatement(doc.statements, StatementSid) then Keep(PhysicalId(event.bucketName))
        else
          Write(doc.(statements := doc.statements + [Grant(event.bucketName, event.cloudfrontDistributionArn)]),
                PhysicalId(event.bucketName))
  }

  /** The outcome of `GetBucketPolicy` for a bucket, given the stored policies and injected faults. */
  function GetOutcome(policies: map<string, Option<PolicyText>>, getFaults: map<string, AwsError>, bucketName: string)
    : (r: Result<Option<PolicyText>, AwsError>)
    ensures bucketName in getFaults ==> r == Err(getFaults[bucketName])
    ensures bucketName !in getFaults ==> r == (if bucketName in policies then Ok(policies[bucketName]) else Err(NoSuchBucketPolicy))
  {
    if bucketName in getFaults then Err(getFaults[bucketName])
    else if bucketName in policies then Ok(policies[bucketName])
    else Err(NoSuchBucketPolicy)
  }

  /**
   * The bucket-policy slots of the S3 service as the handler sees them. A bucket
   * missing from `policies` has no bucket policy; a bucket mapped to `None` answers
   * without a `Policy` field. `getFaults` and `putFaults` are the errors the two calls
   * raise for a bucket (access denied, throttling, ...). `gets` and `puts` count calls.
   */
  class BucketPolicyStore {
    var policies: map<string, Option<PolicyText>>
    var getFaults: map<string, AwsError>
    var putFaults: map<string, AwsError>
    var gets: nat
    var puts: nat

    constructor (policies: map<string, Option<PolicyText>>, getFaults: map<string, AwsError>, putFaults: map<string, AwsError>)
      ensures this.policies == policies && this.getFaults == getFaults && this.putFaults == putFaults
      ensures gets == 0 && puts == 0
    {
      this.policies := policies;
      this.getFaults := getFaults;
      this.putFaults := putFaults;
      gets, puts := 0, 0;
    }

    /** `s3Client.send(new GetBucketPolicyCommand({ Bucket }))` */
    method GetBucketPolicy(bucketName: string) returns (r: Result<Option<PolicyText>, AwsError>)
      modifies this`gets
      ensures r == GetOutcome(policies, getFaults, bucketName)
      ensures gets == old(gets) + 1
    {
      r := GetOutcome(policies, getFaults, bucketName);
      gets := gets + 1;
    }

    /** `s3Client.send(new PutBucketPolicyCommand({ Bucket, Policy }))`: replaces the whole policy. */
    method PutBucketPolicy(bucketName: string, policy: PolicyText) returns (failure: Option<AwsError>)
      modifies this`policies, this`puts
      ensures failure == (if bucketName in putFaults then Some(putFaults[bucketName]) else None)
      ensures policies == if failure.Some? then old(policies) else old(policies)[bucketName := Some(policy)]
      ensures puts == old(puts) + 1
    {
      if bucketName in putFaults {
        failure := Some(putFaults[bucketName]);
      } else {
        failure := None;
        policies := policies[bucketName := Some(policy)];
      }
      puts := puts + 1;
    }
  }

  /** The error the put for `plan` raises, if the plan writes at all. */
  function PutFault(plan: Plan, putFaults: map<string, AwsError>, bucketName: string): Option<AwsError> {
    if plan.Write? && bucketName in putFaults then Some(putFaults[bucketName]) else None
  }

  /**
   * The handler. Delete returns at once; otherwise one read, the merge, and a write
   * only when the statement was missing.
   */
  method Handle(store: BucketPolicyStore, event: S3Event) returns (r: Result<HandlerResponse, AwsError>)
    modifies store
    ensures store.getFaults == old(store.getFaults) && store.putFaults == old(store.putFaults)
    ensures store.gets == old(store.gets) + (if event.requestType == Some(Delete) then 0 else 1)
    ensures var plan := S3Plan(event, GetOutcome(old(store.policies), old(store.getFaults), event.bucketName));
      && store.puts == old(store.puts) + (if plan.Write? then 1 else 0)
      && store.policies == (if plan.Write? && event.bucketName !in store.putFaults
                            then old(store.policies)[event.bucketName := Some(Stringify(plan.doc))]
                            else old(store.policies))
      && r == Respond(plan, PutFault(plan, store.putFaults, event.bucketName))
  {
    ghost var got := GetOutcome(store.policies, store.getFaults, event.bucketName);
    if event.requestType == Some(Delete) {
      return Ok(HandlerResponse(DeletePhysicalId(event.physicalResourceId, PhysicalId(event.bucketName)), map[]));
    }
    var policy := EmptyDocument;
    var current := store.GetBucketPolicy(event.bucketName);
    match current {
      case Err(e) =>
        if e.name != "NoSuchBucketPolicy" {
          return Err(e);
        }
      case Ok(text) =>
        if Truthy(text) {
          var parsed := ParsePolicy(text.value);
          if parsed.Err? {
            return Err(parsed.error);
          }
          policy := parsed.value;
        }
    }
    assert WorkingDocument(got) == Ok(policy);
    var hasStatement := HasStatement(policy.statements, StatementSid);
    if !hasStatement {
      policy := policy.(statements := policy.statements + [Grant(event.bucketName, event.cloudfrontDistributionArn)]);
      var failure := store.PutBucketPolicy(event.bucketName, Stringify(policy));
      if failure.Some? {
        return Err(failure.value);
      }
    }
    return Ok(HandlerResponse(PhysicalId(event.bucketName), map[]));
  }

  // ---------------------------------------------------------------------------
  // Properties of one invocation

  /** Delete ignores the bucket policy entirely and echoes the caller's id when it has one. */
  lemma DeleteSkips(event: S3Event, got: Result<Option<PolicyText>, AwsError>)
    requires event.requestType == Some(Delete)
    ensures S3Plan(event, got) == Skip(DeletePhysicalId(event.physicalResourceId, PhysicalId(event.bucketName)))
    ensures Respond(S3Plan(event, got), None) == Ok(HandlerResponse(
      if event.physicalResourceId.Some? && event.physicalResourceId.value != "" then event.physicalResourceId.value
      else "s3-policy-" + event.bucketName, map[]))
  {
  }

  /** No policy yet: the result is the empty document plus the grant, a one-statement policy. */
  lemma MissingPolicyStartsEmpty(event: S3Event, got: Result<Option<PolicyText>, AwsError>)
    requires event.requestType != Some(Delete)
    requires got == Err(NoSuchBucketPolicy) || got == Ok(None) || (got.Ok? && got.value.Some? && EmptyText(got.value.value))
    ensures S3Plan(event, got) == Write(
      Document(PolicyVersion, [Grant(event.bucketName, event.cloudfrontDistributionArn)]),
      PhysicalId(event.bucketName))
  {
  }

  /** Every other read or parse error is rethrown, and nothing is written. */
  lemma OtherErrorsPropagate(event: S3Event, got: Result<Option<PolicyText>, AwsError>)
    requires event.requestType != Some(Delete)
    requires (got.Err? && got.error.name != "NoSuchBucketPolicy")
          || (got.Ok? && Truthy(got.value) && !got.value.value.Json?)
    ensures S3Plan(event, got).Fail?
    ensures got.Err? ==> S3Plan(event, got) == Fail(got.error)
  {
  }

  /**
   * A statement with the right Sid and principal is enough to skip the write, even if
   * its condition admits a different distribution than the one in the event.
   */
  lemma ExistingGrantIsKept(event: S3Event, doc: Document, i: nat, otherArn: string)
    requires event.requestType != Some(Delete)
    requires i < |doc.statements|
    requires doc.statements[i] == Grant(event.bucketName, otherArn)
    ensures S3Plan(event, Ok(Some(Stringify(doc)))) == Keep(PhysicalId(event.bucketName))
  {
    HasStatementIffSome(doc.statements, StatementSid);
  }

  /**
   * When the handler writes, it writes the document it read with exactly one
   * statement appended; the earlier statements are unchanged and in order, and the
   * new document carries exactly one matching statement.
   */
  lemma WriteAppendsOneStatement(event: S3Event, got: Result<Option<PolicyText>, AwsError>)
    requires S3Plan(event, got).Write?
    ensures WorkingDocument(got).Ok?
    ensures var before := WorkingDocument(got).value.statements;
            var after := S3Plan(event, got).doc.statements;
            && |after| == |before| + 1
            && after[..|before|] == before
            && after[|before|] == Grant(event.bucketName, event.cloudfrontDistributionArn)
            && !HasStatement(before, StatementSid)
            && CountMatching(after, StatementSid) == 1
    ensures S3Plan(event, got).doc.version == WorkingDocument(got).value.version
  {
  }

  /** A successful Create or Update always answers `s3-policy-<bucket>`, whatever id the event carried. */
  lemma StablePhysicalId(event: S3Event, got: Result<Option<PolicyText>, AwsError>, putError: Option<AwsError>)
    requires event.requestType != Some(Delete)
    requires Respond(S3Plan(event, got), putError).Ok?
    ensures Respond(S3Plan(event, got), putError) == Ok(HandlerResponse("s3-policy-" + event.bucketName, map[]))
  {
  }

  // ---------------------------------------------------------------------------
  // Where the request type comes from

  /**
   * A custom-resource event as CloudFormation delivers it: the lifecycle request type
   * and the physical id at the top level, and the two resource properties the construct
   * passes, the bucket name and the distribution ARN.
   */
  datatype LifecycleEvent = LifecycleEvent(
    requestType: RequestType,
    physicalResourceId: Option<string>,
    bucketName: string,
    cloudfrontDistributionArn: string)

  /**
   * The handler's view as wired: it takes the request type from the resource
   * properties, and the construct passes none, so every lifecycle event reads as neither
   * Create, Update nor Delete.
   */
  function HandlerViewAsWired(e: LifecycleEvent): (event: S3Event)
    ensures event.requestType == None
    ensures event.bucketName == e.bucketName && event.cloudfrontDistributionArn == e.cloudfrontDistributionArn
    ensures event.physicalResourceId == e.physicalResourceId
  {
    S3Event(e.bucketName, e.cloudfrontDistributionArn, None, e.physicalResourceId)
  }

  /** The handler's view with the request type read from the top level of the event. */
  function HandlerView(e: LifecycleEvent): (event: S3Event)
    ensures event.requestType == Some(e.requestType)
    ensures event.bucketName == e.bucketName && event.cloudfrontDistributionArn == e.cloudfrontDistributionArn
    ensures event.physicalResourceId == e.physicalResourceId
  {
    S3Event(e.bucketName, e.cloudfrontDistributionArn, Some(e.requestType), e.physicalResourceId)
  }

  /**
   * As wired, deleting the stack does not skip: the handler reads the bucket policy,
   * rethrows a failed read, and writes the grant back when it is missing.
   */
  lemma WiredDeleteStillMerges(e: LifecycleEvent, got: Result<Option<PolicyText>, AwsError>)
    requires e.requestType == Delete
    ensures !S3Plan(HandlerViewAsWired(e), got).Skip?
    ensures got.Err? && got.error.name != "NoSuchBucketPolicy" ==> S3Plan(HandlerViewAsWired(e), got) == Fail(got.error)
    ensures got == Err(NoSuchBucketPolicy) ==> S3Plan(HandlerViewAsWired(e), got) == Write(
      Document(PolicyVersion, [Grant(e.bucketName, e.cloudfrontDistributionArn)]),
      PhysicalId(e.bucketName))
  {
  }

  /** With the top-level request type, exactly the Delete events skip, and they answer at once. */
  lemma LifecycleDeleteSkips(e: LifecycleEvent, got: Result<Option<PolicyText>, AwsError>)
    ensures S3Plan(HandlerView(e), got).Skip? <==> e.requestType == Delete
    ensures e.requestType == Delete ==>
      S3Plan(HandlerView(e), got) == Skip(DeletePhysicalId(e.physicalResourceId, PhysicalId(e.bucketName)))
  {
  }

  // ---------------------------------------------------------------------------
  // Idempotence

  /** After a successful Create or Update the stored bucket policy already grants CloudFront. */
  predicate Reconciled(policies: map<string, Option<PolicyText>>, bucketName: string) {
    && bucketName in policies
    && policies[bucketName].Some?
    && policies[bucketName].value.Json?
    && HasStatement(policies[bucketName].value.doc.statements, StatementSid)
  }

  /** The policy a successful invocation leaves behind passes the check. */
  lemma SuccessReconciles(event: S3Event, policies: map<string, Option<PolicyText>>, getFaults: map<string, AwsError>, putFaults: map<string, AwsError>)
    requires event.requestType != Some(Delete)
    requires var plan := S3Plan(event, GetOutcome(policies, getFaults, event.bucketName));
             Respond(plan, PutFault(plan, putFaults, event.bucketName)).Ok?
    ensures var plan := S3Plan(event, GetOutcome(policies, getFaults, event.bucketName));
            Reconciled(if plan.Write? then policies[event.bucketName := Some(Stringify(plan.doc))] else policies, event.bucketName)
  {
  }

  /**
   * A second Create or Update of a reconciled bucket, for any distribution, issues no
   * put and leaves the policy as it is.
   */
  lemma SecondRunKeeps(event: S3Event, policies: map<string, Option<PolicyText>>, getFaults: map<string, AwsError>)
    requires event.requestType != Some(Delete)
    requires Reconciled(policies, event.bucketName)
    requires event.bucketName !in getFaults
    ensures S3Plan(event, GetOutcome(policies, getFaults, event.bucketName)) == Keep(PhysicalId(event.bucketName))
  {
  }

  /**
   * Create followed by Update on the same bucket. If Create succeeds, the two together
   * do at most one put, and the Update changes no policy and gives the same answer.
   * A get fault is a standing error of the service (access denied, throttling); a
   * bucket without a policy answers `NoSuchBucketPolicy` through `policies`. A
   * standing `NoSuchBucketPolicy` fault, which no put would clear, is excluded.
   */
  method CreateThenUpdate(store: BucketPolicyStore, bucketName: string, distributionArn: string)
    returns (first: Result<HandlerResponse, AwsError>, second: Result<HandlerResponse, AwsError>,
             ghost putsAfterFirst: nat, ghost policiesAfterFirst: map<string, Option<PolicyText>>)
    requires bucketName in store.getFaults ==> store.getFaults[bucketName].name != "NoSuchBucketPolicy"
    modifies store
    ensures putsAfterFirst <= old(store.puts) + 1
    ensures first.Ok? ==> second == first
    ensures first.Ok? ==> store.puts == putsAfterFirst && store.policies == policiesAfterFirst
    ensures first.Ok? ==> Reconciled(store.policies, bucketName)
  {
    var create := HandlerView(LifecycleEvent(Create, None, bucketName, distributionArn));
    first := Handle(store, create);
    putsAfterFirst, policiesAfterFirst := store.puts, store.policies;
    if first.Ok? {
      SuccessReconciles(create, old(store.policies), store.getFaults, store.putFaults);
    }
    var previousId := if first.Ok? then Some(first.value.physicalResourceId) else None;
    second := Handle(store, HandlerView(LifecycleEvent(Update, previousId, bucketName, distributionArn)));
  }
}
