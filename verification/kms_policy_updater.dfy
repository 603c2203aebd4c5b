/**
 * The key-policy updater: a custom-resource handler that lets the CloudFront service
 * decrypt with one KMS key, adding its statement to the key's `default` policy without
 * disturbing the statements already there. Unlike the bucket variant it has no
 * fallback: a key policy that cannot be read, for whatever reason, fails the invocation.
 */
module KmsPolicyUpdater {
  import opened Wrappers
  import opened PolicyMerge

  const StatementSid := "AllowCloudfrontToDecryptWithKey"

  /** The only key policy name KMS supports, and the one the handler reads and writes. */
  const DefaultPolicyName := "default"

  /** What `GetKeyPolicy` raises for a key (or policy name) that does not exist. */
  const NotFoundException := AwsError("NotFoundException")

  /**
   * The handler's view of its event. `requestType` is the `RequestType` resource
   * property it destructures, `None` when the properties carry none.
   */
  datatype KmsEvent = KmsEvent(
    keyId: string,
    cloudfrontDistributionArn: string,
    requestType: Option<RequestType>,
    physicalResourceId: Option<string>)

  /** One key-policy slot: a key and a policy name. */
  datatype KeyPolicyRef = KeyPolicyRef(keyId: string, policyName: string)

  /** The id returned on every successful Create or Update. */
  function PhysicalId(keyId: string): (id: string)
    ensures |id| >= 11 && id[..11] == "kms-policy-" && id[11..] == keyId
  {
    "kms-policy-" + keyId
  }

  /** The statement pushed when the key policy does not grant CloudFront yet. */
  function Grant(distributionArn: string): (stmt: Statement)
    ensures Matches(stmt, StatementSid)
    ensures stmt.sid == Some(StatementSid)
    ensures stmt.principal == Some(Entities(map["Service" := One(CloudfrontService)]))
    ensures stmt.effect == "Allow"
    ensures stmt.action == Many(["kms:Decrypt", "kms:DescribeKey"])
    ensures stmt.resource == One("*")
    ensures stmt.condition == map["StringEquals" := map["AWS:SourceArn" := One(distributionArn)]]
  {
    Statement(
      Some(StatementSid),
      "Allow",
      Some(Entities(map["Service" := One(CloudfrontService)])),
      Many(["kms:Decrypt", "kms:DescribeKey"]),
      One("*"),
      map["StringEquals" := map["AWS:SourceArn" := One(distributionArn)]])
  }

  /**
   * `JSON.parse(currentPolicy.Policy)` with no truthiness test in front of it: a missing
   * field (`undefined`) and the empty string are both a `SyntaxError`.
   */
  function ReadDocument(got: Result<Option<PolicyText>, AwsError>): (r: Result<Document, AwsError>)
    ensures got.Err? ==> r == Err(got.error)
    ensures got == Ok(None) ==> r == Err(SyntaxError)
    ensures got.Ok? && got.value.Some? ==> r == ParsePolicy(got.value.value)
    ensures r.Ok? <==> got.Ok? && got.value.Some? && got.value.value.Json?
  {
    match got
    case Err(e) => Err(e)
    case Ok(policy) => if policy.Some? then ParsePolicy(policy.value) else Err(SyntaxError)
  }

  /** What one invocation decides, given the event and the outcome of `GetKeyPolicy`. */
  function KmsPlan(event: KmsEvent, got: Result<Option<PolicyText>, AwsError>): (plan: Plan)
    ensures plan.Skip? <==> event.requestType == Some(Delete)
    ensures plan.Fail? ==> ReadDocument(got) == Err(plan.error)
    ensures plan.Keep? || plan.Write? ==> ReadDocument(got).Ok? && plan.id == PhysicalId(event.keyId)
    ensures plan.Keep? ==> HasStatement(ReadDocument(got).value.statements, StatementSid)
    ensures plan.Write? ==>
      var read := ReadDocument(got).value;
      && plan.doc == read.(statements := AddIfMissing(read.statements, StatementSid, Grant(event.cloudfrontDistributionArn)))
      && plan.doc.statements != read.statements
  {
    if event.requestType == Some(Delete) then
      Skip(DeletePhysicalId(event.physicalResourceId, PhysicalId(event.keyId)))
    else
      match ReadDocument(got)
      case Err(e) => Fail(e)
      case Ok(doc) =>
        if HasStatement(doc.statements, StatementSid) then Keep(PhysicalId(event.keyId))
        else
          Write(doc.(statements := doc.statements + [Grant(event.cloudfrontDistributionArn)]), PhysicalId(event.keyId))
  }

  /** The outcome of `GetKeyPolicy` for a slot, given the stored policies and injected faults. */
  function GetOutcome(policies: map<KeyPolicyRef, Option<PolicyText>>, getFaults: map<string, AwsError>, slot: KeyPolicyRef)
    : (r: Result<Option<PolicyText>, AwsError>)
    ensures slot.keyId in getFaults ==> r == Err(getFaults[slot.keyId])
    ensures slot.keyId !in getFaults ==> r == (if slot in policies then Ok(policies[slot]) else Err(NotFoundException))
  {
    if slot.keyId in getFaults then Err(getFaults[slot.keyId])
    else if slot in policies then Ok(policies[slot])
    else Err(NotFoundException)
  }

  /**
   * The key-policy slots of the KMS service as the handler sees them. A slot missing
   * from `policies` does not exist; a slot mapped to `None` answers without a `Policy`
   * field. `getFaults` and `putFaults` are the errors the two calls raise for a key
   * (access denied, throttling, ...). `gets` and `puts` count calls.
   */
  class KeyPolicyStore {
    var policies: map<KeyPolicyRef, Option<PolicyText>>
    var getFaults: map<string, AwsError>
    var putFaults: map<string, AwsError>
    var gets: nat
    var puts: nat

    constructor (policies: map<KeyPolicyRef, Option<PolicyText>>, getFaults: map<string, AwsError>, putFaults: map<string, AwsError>)
      ensures this.policies == policies && this.getFaults == getFaults && this.putFaults == putFaults
      ensures gets == 0 && puts == 0
    {
      this.policies := policies;
      this.getFaults := getFaults;
      this.putFaults := putFaults;
      gets, puts := 0, 0;
    }

    /** `kmsClient.send(new GetKeyPolicyCommand({ KeyId, PolicyName }))` */
    method GetKeyPolicy(keyId: string, policyName: string) returns (r: Result<Option<PolicyText>, AwsError>)
      modifies this`gets
      ensures r == GetOutcome(policies, getFaults, KeyPolicyRef(keyId, policyName))
      ensures gets == old(gets) + 1
    {
      r := GetOutcome(policies, getFaults, KeyPolicyRef(keyId, policyName));
      gets := gets + 1;
    }

    /** `kmsClient.send(new PutKeyPolicyCommand({ KeyId, PolicyName, Policy }))`: replaces the whole policy. */
    method PutKeyPolicy(keyId: string, policyName: string, policy: PolicyText) returns (failure: Option<AwsError>)
      modifies this`policies, this`puts
      ensures failure == (if keyId in putFaults then Some(putFaults[keyId]) else None)
      ensures policies == if failure.Some? then old(policies) else old(policies)[KeyPolicyRef(keyId, policyName) := Some(policy)]
      ensures puts == old(puts) + 1
    {
      if keyId in putFaults {
        failure := Some(putFaults[keyId]);
      } else {
        failure := None;
        policies := policies[KeyPolicyRef(keyId, policyName) := Some(policy)];
      }
      puts := puts + 1;
    }
  }

  /** The error the put for `plan` raises, if the plan writes at all. */
  function PutFault(plan: Plan, putFaults: map<string, AwsError>, keyId: string): Option<AwsError> {
    if plan.Write? && keyId in putFaults then Some(putFaults[keyId]) else None
  }

  /**
   * The handler. Delete returns at once; otherwise one read of the `default` key
   * policy, the merge, and a write of the same slot only when the statement was missing.
   */
  method Handle(store: KeyPolicyStore, event: KmsEvent) returns (r: Result<HandlerResponse, AwsError>)
    modifies store
    ensures store.getFaults == old(store.getFaults) && store.putFaults == old(store.putFaults)
    ensures store.gets == old(store.gets) + (if event.requestType == Some(Delete) then 0 else 1)
    ensures var slot := KeyPolicyRef(event.keyId, DefaultPolicyName);
      var plan := KmsPlan(event, GetOutcome(old(store.policies), old(store.getFaults), slot));
      && store.puts == old(store.puts) + (if plan.Write? then 1 else 0)
      && store.policies == (if plan.Write? && event.keyId !in store.putFaults
                            then old(store.policies)[slot := Some(Stringify(plan.doc))]
                            else old(store.policies))
      && r == Respond(plan, PutFault(plan, store.putFaults, event.keyId))
  {
    ghost var got := GetOutcome(store.policies, store.getFaults, KeyPolicyRef(event.keyId, DefaultPolicyName));
    if event.requestType == Some(Delete) {
      return Ok(HandlerResponse(DeletePhysicalId(event.physicalResourceId, PhysicalId(event.keyId)), map[]));
    }
    var current := store.GetKeyPolicy(event.keyId, DefaultPolicyName);
    if current.Err? {
      return Err(current.error);
    }
    if current.value.None? {
      return Err(SyntaxError);
    }
    var parsed := ParsePolicy(current.value.value);
    if parsed.Err? {
      return Err(parsed.error);
    }
    var policy := parsed.value;
    assert ReadDocument(got) == Ok(policy);
    var hasStatement := HasStatement(policy.statements, StatementSid);
    if !hasStatement {
      policy := policy.(statements := policy.statements + [Grant(event.cloudfrontDistributionArn)]);
      var failure := store.PutKeyPolicy(event.keyId, DefaultPolicyName, Stringify(policy));
      if failure.Some? {
        return Err(failure.value);
      }
    }
    return Ok(HandlerResponse(PhysicalId(event.keyId), map[]));
  }

  // ---------------------------------------------------------------------------
  // Properties of one invocation

  /** Delete ignores the key policy entirely and echoes the caller's id when it has one. */
  lemma DeleteSkips(event: KmsEvent, got: Result<Option<PolicyText>, AwsError>)
    requires event.requestType == Some(Delete)
    ensures Respond(KmsPlan(event, got), None) == Ok(HandlerResponse(
      if event.physicalResourceId.Some? && event.physicalResourceId.value != "" then event.physicalResourceId.value
      else "kms-policy-" + event.keyId, map[]))
  {
  }

  /**
   * Any failed read propagates unchanged, the missing policy included; so do a
   * response without policy text and text that does not parse. Nothing is written.
   */
  lemma NoMissingPolicyFallback(event: KmsEvent, got: Result<Option<PolicyText>, AwsError>)
    requires event.requestType != Some(Delete)
    requires got.Err? || got.value.None? || !got.value.value.Json?
    ensures KmsPlan(event, got).Fail?
    ensures got.Err? ==> KmsPlan(event, got) == Fail(got.error)
    ensures got == Ok(None) || (got.Ok? && got.value.Some? && EmptyText(got.value.value)) ==> KmsPlan(event, got) == Fail(SyntaxError)
  {
  }

  /**
   * A statement with the right Sid and principal is enough to skip the write, even if
   * its condition admits a different distribution than the one in the event.
   */
  lemma ExistingGrantIsKept(event: KmsEvent, doc: Document, i: nat, otherArn: string)
    requires event.requestType != Some(Delete)
    requires i < |doc.statements|
    requires doc.statements[i] == Grant(otherArn)
    ensures KmsPlan(event, Ok(Some(Stringify(doc)))) == Keep(PhysicalId(event.keyId))
  {
    HasStatementIffSome(doc.statements, StatementSid);
  }

  /**
   * When the handler writes, it writes the document it read with exactly one
   * statement appended; the earlier statements are unchanged and in order, and the
   * new document carries exactly one matching statement.
   */
  lemma WriteAppendsOneStatement(event: KmsEvent, got: Result<Option<PolicyText>, AwsError>)
    requires KmsPlan(event, got).Write?
    ensures ReadDocument(got).Ok?
    ensures var before := ReadDocument(got).value.statements;
            var after := KmsPlan(event, got).doc.statements;
            && |after| == |before| + 1
            && after[..|before|] == before
            && after[|before|] == Grant(event.cloudfrontDistributionArn)
            && !HasStatement(before, StatementSid)
            && CountMatching(after, StatementSid) == 1
    ensures KmsPlan(event, got).doc.version == ReadDocument(got).value.version
  {
  }

  /** A successful Create or Update always answers `kms-policy-<key>`, whatever id the event carried. */
  lemma StablePhysicalId(event: KmsEvent, got: Result<Option<PolicyText>, AwsError>, putError: Option<AwsError>)
    requires event.requestType != Some(Delete)
    requires Respond(KmsPlan(event, got), putError).Ok?
    ensures Respond(KmsPlan(event, got), putError) == Ok(HandlerResponse("kms-policy-" + event.keyId, map[]))
  {
  }

  // ---------------------------------------------------------------------------
  // Where the request type comes from

  /**
   * A custom-resource event as CloudFormation delivers it: the lifecycle request type
   * and the physical id at the top level, and the two resource properties the construct
   * passes, the key id and the distribution ARN.
   */
  datatype LifecycleEvent = LifecycleEvent(
    requestType: RequestType,
    physicalResourceId: Option<string>,
    keyId: string,
    cloudfrontDistributionArn: string)

  /**
   * The handler's view as wired: it takes the request type from the resource
   * properties, and the construct passes none, so every lifecycle event reads as neither
   * Create, Update nor Delete.
   */
  function HandlerViewAsWired(e: LifecycleEvent): (event: KmsEvent)
    ensures event.requestType == None
    ensures event.keyId == e.keyId && event.cloudfrontDistributionArn == e.cloudfrontDistributionArn
    ensures event.physicalResourceId == e.physicalResourceId
  {
    KmsEvent(e.keyId, e.cloudfrontDistributionArn, None, e.physicalResourceId)
  }

  /** The handler's view with the request type read from the top level of the event. */
  function HandlerView(e: LifecycleEvent): (event: KmsEvent)
    ensures event.requestType == Some(e.requestType)
    ensures event.keyId == e.keyId && event.cloudfrontDistributionArn == e.cloudfrontDistributionArn
    ensures event.physicalResourceId == e.physicalResourceId
  {
    KmsEvent(e.keyId, e.cloudfrontDistributionArn, Some(e.requestType), e.physicalResourceId)
  }

  /**
   * As wired, deleting the stack does not skip: the handler reads the key policy,
   * rethrows a failed read (a key already scheduled for deletion, say), and writes the
   * grant back when it is missing.
   */
  lemma WiredDeleteStillMerges(e: LifecycleEvent, got: Result<Option<PolicyText>, AwsError>)
    requires e.requestType == Delete
    ensures !KmsPlan(HandlerViewAsWired(e), got).Skip?
    ensures got.Err? ==> KmsPlan(HandlerViewAsWired(e), got) == Fail(got.error)
    ensures got == Ok(Some(Stringify(EmptyDocument))) ==> KmsPlan(HandlerViewAsWired(e), got) == Write(
      Document(PolicyVersion, [Grant(e.cloudfrontDistributionArn)]),
      PhysicalId(e.keyId))
  {
  }

  /** With the top-level request type, exactly the Delete events skip, and they answer at once. */
  lemma LifecycleDeleteSkips(e: LifecycleEvent, got: Result<Option<PolicyText>, AwsError>)
    ensures KmsPlan(HandlerView(e), got).Skip? <==> e.requestType == Delete
    ensures e.requestType == Delete ==>
      KmsPlan(HandlerView(e), got) == Skip(DeletePhysicalId(e.physicalResourceId, PhysicalId(e.keyId)))
  {
  }

  // ---------------------------------------------------------------------------
  // Idempotence

  /** After a successful Create or Update the `default` key policy already grants CloudFront. */
  predicate Reconciled(policies: map<KeyPolicyRef, Option<PolicyText>>, keyId: string) {
    var slot := KeyPolicyRef(keyId, DefaultPolicyName);
    && slot in policies
    && policies[slot].Some?
    && policies[slot].value.Json?
    && HasStatement(policies[slot].value.doc.statements, StatementSid)
  }

  /** The policy a successful invocation leaves behind passes the check. */
  lemma SuccessReconciles(event: KmsEvent, policies: map<KeyPolicyRef, Option<PolicyText>>, getFaults: map<string, AwsError>, putFaults: map<string, AwsError>)
    requires event.requestType != Some(Delete)
    requires var plan := KmsPlan(event, GetOutcome(policies, getFaults, KeyPolicyRef(event.keyId, DefaultPolicyName)));
             Respond(plan, PutFault(plan, putFaults, event.keyId)).Ok?
    ensures var slot := KeyPolicyRef(event.keyId, DefaultPolicyName);
            var plan := KmsPlan(event, GetOutcome(policies, getFaults, slot));
            Reconciled(if plan.Write? then policies[slot := Some(Stringify(plan.doc))] else policies, event.keyId)
  {
  }

  /**
   * A second Create or Update of a reconciled key, for any distribution, issues no
   * put and leaves the policy as it is.
   */
  lemma SecondRunKeeps(event: KmsEvent, policies: map<KeyPolicyRef, Option<PolicyText>>, getFaults: map<string, AwsError>)
    requires event.requestType != Some(Delete)
    requires Reconciled(policies, event.keyId)
    requires event.keyId !in getFaults
    ensures KmsPlan(event, GetOutcome(policies, getFaults, KeyPolicyRef(event.keyId, DefaultPolicyName))) == Keep(PhysicalId(event.keyId))
  {
  }

  /**
   * Create followed by Update on the same key. If Create succeeds, the two together do
   * at most one put, and the Update changes no policy and gives the same answer.
   */
  method CreateThenUpdate(store: KeyPolicyStore, keyId: string, distributionArn: string)
    returns (first: Result<HandlerResponse, AwsError>, second: Result<HandlerResponse, AwsError>,
             ghost putsAfterFirst: nat, ghost policiesAfterFirst: map<KeyPolicyRef, Option<PolicyText>>)
    modifies store
    ensures putsAfterFirst <= old(store.puts) + 1
    ensures first.Ok? ==> second == first
    ensures first.Ok? ==> store.puts == putsAfterFirst && store.policies == policiesAfterFirst
    ensures first.Ok? ==> Reconciled(store.policies, keyId)
  {
    var create := HandlerView(LifecycleEvent(Create, None, keyId, distributionArn));
    first := Handle(store, create);
    putsAfterFirst, policiesAfterFirst := store.puts, store.policies;
    if first.Ok? {
      SuccessReconciles(create, old(store.policies), store.getFaults, store.putFaults);
    }
    var previousId := if first.Ok? then Some(first.value.physicalResourceId) else None;
    second := Handle(store, HandlerView(LifecycleEvent(Update, previousId, keyId, distributionArn)));
  }
}
