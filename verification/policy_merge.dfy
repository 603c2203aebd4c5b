/**
 * The part the two policy-updater handlers share: the shape of an access-policy
 * document, the abstract JSON encoding it travels in, the "already granted"
 * predicate both handlers evaluate with `Statement.some(...)`, the append-if-missing
 * merge, and the custom-resource response.
 */
module PolicyMerge {
  import opened Wrappers

  // ---------------------------------------------------------------------------
  // Custom-resource lifecycle

  datatype RequestType = Create | Update | Delete

  /** What a handler hands back to the lifecycle manager; `data` is always empty. */
  datatype HandlerResponse = HandlerResponse(physicalResourceId: string, data: map<string, string>)

  /** An exception, identified by its `name` property. */
  datatype AwsError = AwsError(name: string)

  /** Thrown by `JSON.parse` on text that is not JSON (including the empty string and `undefined`). */
  const SyntaxError := AwsError("SyntaxError")
  /** Thrown by `policy.Statement.some` when the parsed document has no `Statement` array. */
  const TypeError := AwsError("TypeError")

  /**
   * `event.PhysicalResourceId || synthesized`: the id the lifecycle manager sent,
   * unless it is missing or the empty string (both are falsy).
   */
  function DeletePhysicalId(eventId: Option<string>, synthesized: string): (id: string)
    ensures eventId.Some? && eventId.value != "" ==> id == eventId.value
    ensures eventId.None? || eventId.value == "" ==> id == synthesized
  {
    if eventId.Some? && eventId.value != "" then eventId.value else synthesized
  }

  // ---------------------------------------------------------------------------
  // Policy documents

  const PolicyVersion := "2012-10-17"
  const CloudfrontService := "cloudfront.amazonaws.com"

  /** A JSON field that holds either one string or an array of strings (`Action`, `Resource`, ...). */
  datatype StringOrList = One(value: string) | Many(values: seq<string>)

  /** `"Principal": "*"` or an object such as `{"Service": "..."}` or `{"AWS": [...]}`. */
  datatype Principal = Everyone | Entities(entities: map<string, StringOrList>)

  /** `Condition`: operator (`StringEquals`, ...) to condition key to value(s). */
  type Condition = map<string, map<string, StringOrList>>

  datatype Statement = Statement(
    sid: Option<string>,
    effect: string,
    principal: Option<Principal>,
    action: StringOrList,
    resource: StringOrList,
    condition: Condition)

  datatype Document = Document(version: string, statements: seq<Statement>)

  /** `{ Version: '2012-10-17', Statement: [] }` */
  const EmptyDocument := Document(PolicyVersion, [])

  /**
   * The text of a policy as the cloud service stores it, kept abstract: either the
   * JSON encoding of a document, text that is not JSON at all, or JSON whose
   * `Statement` member is missing or not an array.
   */
  datatype PolicyText = Json(doc: Document) | MalformedJson(text: string) | StatementNotArray(text: string)

  /** The empty string, which is not JSON whichever way it is classified. */
  predicate EmptyText(t: PolicyText) {
    !t.Json? && t.text == ""
  }

  /** `JSON.stringify(policy)` */
  function Stringify(d: Document): (t: PolicyText)
    ensures ParsePolicy(t) == Ok(d)
  {
    Json(d)
  }

  /**
   * `JSON.parse(text)` followed by the first use of `policy.Statement` as an array:
   * a document, a `SyntaxError`, or a `TypeError`.
   */
  function ParsePolicy(t: PolicyText): (r: Result<Document, AwsError>)
    ensures r.Ok? <==> t.Json?
    ensures t.MalformedJson? || EmptyText(t) ==> r == Err(SyntaxError)
    ensures t.StatementNotArray? && !EmptyText(t) ==> r == Err(TypeError)
  {
    match t
    case Json(d) => Ok(d)
    case MalformedJson(_) => Err(SyntaxError)
    case StatementNotArray(s) => if s == "" then Err(SyntaxError) else Err(TypeError)
  }

  // ---------------------------------------------------------------------------
  // The "already granted" check

  /**
   * `stmt.Sid === sid && stmt.Principal && stmt.Principal.Service === 'cloudfront.amazonaws.com'`.
   * The condition (which distribution is allowed) is not looked at. A `"*"` principal
   * has no `Service` member, and a list of services is never `===` to a string.
   */
  predicate Matches(stmt: Statement, sid: string): (m: bool)
    ensures m ==> stmt.sid == Some(sid) && stmt.principal.Some?
    ensures stmt.principal == Some(Everyone) ==> !m
    ensures stmt.principal.Some? && stmt.principal.value.Entities? ==>
      var entities := stmt.principal.value.entities;
      ("Service" !in entities || entities["Service"].Many?) ==> !m
  {
    && stmt.sid == Some(sid)
    && stmt.principal.Some?
    && stmt.principal.value.Entities?
    && "Service" in stmt.principal.value.entities
    && stmt.principal.value.entities["Service"] == One(CloudfrontService)
  }

  /** `statements.some(stmt => Matches(stmt, sid))`, scanning from the front. */
  predicate HasStatement(statements: seq<Statement>, sid: string): (found: bool)
    ensures |statements| == 0 ==> !found
    ensures found ==> exists i :: 0 <= i < |statements| && Matches(statements[i], sid)
    decreases |statements|
  {
    |statements| > 0 && (Matches(statements[0], sid) || HasStatement(statements[1..], sid))
  }

  /** The scan agrees with the plain existential reading of `.some`. */
  lemma {:induction false} HasStatementIffSome(statements: seq<Statement>, sid: string)
    ensures HasStatement(statements, sid) <==> exists i :: 0 <= i < |statements| && Matches(statements[i], sid)
    decreases |statements|
  {
    if |statements| > 0 {
      HasStatementIffSome(statements[1..], sid);
      if !Matches(statements[0], sid) && exists i :: 0 <= i < |statements| && Matches(statements[i], sid) {
        var i :| 0 <= i < |statements| && Matches(statements[i], sid);
        assert statements[1..][i - 1] == statements[i];
      }
    }
  }

  lemma {:induction false} HasStatementAppend(a: seq<Statement>, b: seq<Statement>, sid: string)
    ensures HasStatement(a + b, sid) <==> HasStatement(a, sid) || HasStatement(b, sid)
    decreases |a|
  {
    if |a| > 0 {
      assert (a + b)[1..] == a[1..] + b;
      HasStatementAppend(a[1..], b, sid);
    } else {
      assert a + b == b;
    }
  }

  /** How many statements of a document the check would accept. */
  function CountMatching(statements: seq<Statement>, sid: string): nat
    decreases |statements|
  {
    if |statements| == 0 then 0
    else (if Matches(statements[0], sid) then 1 else 0) + CountMatching(statements[1..], sid)
  }

  lemma {:induction false} CountMatchingPositive(statements: seq<Statement>, sid: string)
    ensures CountMatching(statements, sid) > 0 <==> HasStatement(statements, sid)
    decreases |statements|
  {
    if |statements| > 0 {
      CountMatchingPositive(statements[1..], sid);
    }
  }

  lemma {:induction false} CountMatchingAppend(a: seq<Statement>, b: seq<Statement>, sid: string)
    ensures CountMatching(a + b, sid) == CountMatching(a, sid) + CountMatching(b, sid)
    decreases |a|
  {
    if |a| > 0 {
      assert (a + b)[1..] == a[1..] + b;
      CountMatchingAppend(a[1..], b, sid);
    } else {
      assert a + b == b;
    }
  }

  // ---------------------------------------------------------------------------
  // The merge

  /**
   * The safe merge both handlers perform on the statement list: leave it alone when
   * a matching statement is present, otherwise push `grant` at the end.
   */
  function AddIfMissing(statements: seq<Statement>, sid: string, grant: Statement): (merged: seq<Statement>)
    requires Matches(grant, sid)
    ensures HasStatement(merged, sid)
    ensures |statements| <= |merged| <= |statements| + 1
    ensures merged[..|statements|] == statements
    ensures merged == statements <==> HasStatement(statements, sid)
    ensures |merged| == |statements| + 1 ==> merged[|statements|] == grant
    ensures !HasStatement(statements, sid) ==> CountMatching(merged, sid) == 1
  {
    if HasStatement(statements, sid) then statements
    else
      HasStatementAppend(statements, [grant], sid);
      CountMatchingAppend(statements, [grant], sid);
      CountMatchingPositive(statements, sid);
      statements + [grant]
  }

  /** Merging twice is merging once. */
  lemma AddIfMissingIdempotent(statements: seq<Statement>, sid: string, grant: Statement, other: Statement)
    requires Matches(grant, sid) && Matches(other, sid)
    ensures AddIfMissing(AddIfMissing(statements, sid, grant), sid, other) == AddIfMissing(statements, sid, grant)
  {
  }

  // ---------------------------------------------------------------------------
  // What one invocation decides to do

  /**
   * The decision a handler reaches from the event and the policy it read:
   * return at once on Delete, fail, keep the stored policy, or write `doc` back.
   */
  datatype Plan =
    | Skip(id: string)
    | Fail(error: AwsError)
    | Keep(id: string)
    | Write(doc: Document, id: string)

  /** The handler's response for a plan, given what the put (if any) raised. */
  function Respond(plan: Plan, putError: Option<AwsError>): (r: Result<HandlerResponse, AwsError>)
    ensures r.Ok? ==> r.value.data == map[]
    ensures r.Ok? <==> !plan.Fail? && !(plan.Write? && putError.Some?)
    ensures r.Ok? ==> r.value.physicalResourceId == plan.id
    ensures plan.Fail? ==> r == Err(plan.error)
    ensures plan.Write? && putError.Some? ==> r == Err(putError.value)
  {
    match plan
    case Skip(id) => Ok(HandlerResponse(id, map[]))
    case Fail(e) => Err(e)
    case Keep(id) => Ok(HandlerResponse(id, map[]))
    case Write(_, id) => if putError.Some? then Err(putError.value) else Ok(HandlerResponse(id, map[]))
  }
}
