/**
 * Per-branch deployment configuration: a table from git branch name to the accounts
 * the pipeline deploys from and to, and the lookup that refuses unknown branches.
 */
module Configuration {
  import opened Wrappers
  import opened Statics

  datatype Configuration = Configuration(
    branchName: string,
    codeStarConnectionArn: string,
    deploymentEnvironment: Environment,
    targetEnvironment: Environment)

  /** The configuration table; `acceptance` is its only branch. */
  const Configurations: map<string, Configuration> := map[
    "acceptance" := Configuration(
      "acceptance",
      GnBuildCodeStarConnectionArn,
      DeploymentEnvironment,
      AcceptanceEnvironment)
  ]

  /** The error thrown for a branch without a configuration. */
  function MissingConfigurationMessage(branch: string): (message: string)
    ensures |message| > 28 + |branch| && message[28..28 + |branch|] == branch
  {
    var message := "No configuration for branch " + branch + " found. Add a configuration in Configuration.ts";
    assert message[28..28 + |branch|] == branch;
    message
  }

  /** Every entry is filed under its own branch name. */
  predicate TableConsistent(table: map<string, Configuration>) {
    forall branch :: branch in table ==> table[branch].branchName == branch
  }

  lemma ConfigurationsTable()
    ensures Configurations.Keys == {"acceptance"}
    ensures TableConsistent(Configurations)
    ensures Configurations["acceptance"].deploymentEnvironment == Environment("836443378780", "eu-central-1")
    ensures Configurations["acceptance"].targetEnvironment == Environment("766983128454", "eu-central-1")
  {
  }

  /**
   * The configuration for a branch, or the error naming the branch when the table has
   * no entry for it.
   */
  function GetConfiguration(branch: string): (r: Result<Configuration, string>)
    ensures r.Ok? <==> branch in Configurations
    ensures r.Ok? ==> r.value == Configurations[branch] && r.value.branchName == branch
    ensures r.Err? ==> r.error == MissingConfigurationMessage(branch)
  {
    if branch in Configurations then Ok(Configurations[branch]) else Err(MissingConfigurationMessage(branch))
  }

  // ---------------------------------------------------------------------------
  // The lookup as written: an index into a JavaScript object literal

  /**
   * Names every plain JavaScript object inherits from `Object.prototype`; indexing an
   * object literal with one of them yields a function (or, for `__proto__`, the
   * prototype object), and both are truthy.
   */
  const InheritedMembers: set<string> := {
    "constructor", "hasOwnProperty", "isPrototypeOf", "propertyIsEnumerable",
    "toLocaleString", "toString", "valueOf", "__proto__",
    "__defineGetter__", "__defineSetter__", "__lookupGetter__", "__lookupSetter__"
  }

  /** What `configurations[branch]` evaluates to. */
  datatype Lookup = OwnEntry(config: Configuration) | InheritedMember(name: string) | Undefined

  function IndexObject(branch: string): (v: Lookup)
    ensures v.OwnEntry? <==> branch in Configurations
    ensures v.InheritedMember? <==> branch !in Configurations && branch in InheritedMembers
  {
    if branch in Configurations then OwnEntry(Configurations[branch])
    else if branch in InheritedMembers then InheritedMember(branch)
    else Undefined
  }

  /** `if (!config) throw ...; return config;` on the value the index produced. */
  function GetConfigurationAsWritten(branch: string): (r: Result<Lookup, string>)
    ensures r.Err? <==> IndexObject(branch).Undefined?
    ensures r.Ok? ==> r.value == IndexObject(branch)
    ensures r.Err? ==> r.error == MissingConfigurationMessage(branch)
  {
    var config := IndexObject(branch);
    if config.Undefined? then Err(MissingConfigurationMessage(branch)) else Ok(config)
  }

  /**
   * A branch called `constructor` is not in the table, yet the lookup as written does
   * not throw: it returns the `Object` constructor in place of a configuration. The
   * corrected lookup refuses it.
   */
  lemma InheritedNameEscapesGuard()
    ensures "constructor" !in Configurations
    ensures GetConfigurationAsWritten("constructor") == Ok(InheritedMember("constructor"))
    ensures GetConfiguration("constructor").Err?
  {
  }

  /** The two lookups agree on every branch except the inherited member names. */
  lemma AsWrittenAgreesOutsideInheritedNames(branch: string)
    requires branch !in InheritedMembers
    ensures GetConfiguration(branch).Ok? <==> GetConfigurationAsWritten(branch).Ok?
    ensures GetConfiguration(branch).Ok? ==> GetConfigurationAsWritten(branch) == Ok(OwnEntry(GetConfiguration(branch).value))
  {
  }
}
