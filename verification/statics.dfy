/**
 * Fixed names of the geo-storage platform: the accounts and regions it deploys to,
 * the bucket names per branch, and the platform-operator role ARN.
 */
module Statics {

  datatype Environment = Environment(account: string, region: string)

  const ProjectName := "geo-storage"
  const GnBuildCodeStarConnectionArn :=
    "arn:aws:codestar-connections:eu-central-1:836443378780:connection/9d20671d-91bc-49e2-8680-59ff96e2ab11"

  const DeploymentEnvironment := Environment("836443378780", "eu-central-1")
  const AcceptanceEnvironment := Environment("766983128454", "eu-central-1")
  const ProductionEnvironment := Environment("549334216741", "eu-central-1")
  const BackupEnvironment := Environment("751076321715", "eu-west-1")
  const BackupEnvironmentAcceptance := Environment("766983128454", "eu-west-1")

  // ---------------------------------------------------------------------------
  // Bucket names

  function BucketBackupSuffix(backup: bool): (suffix: string)
    ensures backup <==> suffix != ""
    ensures backup ==> suffix == "-backup"
  {
    if backup then "-backup" else ""
  }

  /** The seven data buckets; each has its own name function. */
  datatype BucketKind = Cyclorama | Mesh | Obliek | Ortho | LidarAirborne | LidarTerrestrisch | KaartViewerDocs

  /** The fixed part in front of the branch name. */
  function Prefix(kind: BucketKind): string {
    match kind
    case Cyclorama => "gemeentenijmegen-geo-cyclorama-"
    case Mesh => "gemeentenijmegen-geo-mesh-"
    case Obliek => "gemeentenijmegen-geo-obliek-"
    case Ortho => "gemeentenijmegen-geo-ortho-"
    case LidarAirborne => "gemeentenijmegen-geo-lidar-airborne-"
    case LidarTerrestrisch => "gemeentenijmegen-geo-lidar-terrestrisch-"
    case KaartViewerDocs => "gemeentenijmegen-kaartviewer-docs-"
  }

  /** Recovers the branch from a bucket name of the given kind and backup flag. */
  function BranchOf(kind: BucketKind, backup: bool, name: string): string
    requires |Prefix(kind)| + |BucketBackupSuffix(backup)| <= |name|
  {
    name[|Prefix(kind)|..|name| - |BucketBackupSuffix(backup)|]
  }

  /**
   * `<prefix><branch><suffix>`: the name starts with the kind's prefix, ends with the
   * backup suffix, and the branch can be read back from between the two.
   */
  function BucketName(kind: BucketKind, branch: string, backup: bool): (name: string)
    ensures |name| == |Prefix(kind)| + |branch| + |BucketBackupSuffix(backup)|
    ensures name[..|Prefix(kind)|] == Prefix(kind)
    ensures name[|name| - |BucketBackupSuffix(backup)|..] == BucketBackupSuffix(backup)
    ensures BranchOf(kind, backup, name) == branch
  {
    var name := Prefix(kind) + branch + BucketBackupSuffix(backup);
    assert name[..|Prefix(kind)|] == Prefix(kind);
    assert name[|Prefix(kind)|..|name| - |BucketBackupSuffix(backup)|] == branch;
    name
  }

  function CycloramaBucket(branch: string, backup: bool): (name: string)
    ensures name == BucketName(Cyclorama, branch, backup)
  { "gemeentenijmegen-geo-cyclorama-" + branch + BucketBackupSuffix(backup) }

  function MeshBucket(branch: string, backup: bool): (name: string)
    ensures name == BucketName(Mesh, branch, backup)
  { "gemeentenijmegen-geo-mesh-" + branch + BucketBackupSuffix(backup) }

  function ObliekBucket(branch: string, backup: bool): (name: string)
    ensures name == BucketName(Obliek, branch, backup)
  { "gemeentenijmegen-geo-obliek-" + branch + BucketBackupSuffix(backup) }

  function OrthoBucket(branch: string, backup: bool): (name: string)
    ensures name == BucketName(Ortho, branch, backup)
  { "gemeentenijmegen-geo-ortho-" + branch + BucketBackupSuffix(backup) }

  function LidarAirborneBucket(branch: string, backup: bool): (name: string)
    ensures name == BucketName(LidarAirborne, branch, backup)
  { "gemeentenijmegen-geo-lidar-airborne-" + branch + BucketBackupSuffix(backup) }

  function LidarTerrestrischBucket(branch: string, backup: bool): (name: string)
    ensures name == BucketName(LidarTerrestrisch, branch, backup)
  { "gemeentenijmegen-geo-lidar-terrestrisch-" + branch + BucketBackupSuffix(backup) }

  function KaartViewerDocsBucket(branch: string, backup: bool): (name: string)
    ensures name == BucketName(KaartViewerDocs, branch, backup)
  { "gemeentenijmegen-kaartviewer-docs-" + branch + BucketBackupSuffix(backup) }

  /** The backup bucket's name is the primary bucket's name followed by `-backup`. */
  lemma BackupNameExtendsPrimary(kind: BucketKind, branch: string)
    ensures BucketName(kind, branch, true) == BucketName(kind, branch, false) + "-backup"
  {
  }

  /** For a fixed kind and backup flag, different branches give different bucket names. */
  lemma BucketNameInjective(kind: BucketKind, backup: bool, branch1: string, branch2: string)
    requires BucketName(kind, branch1, backup) == BucketName(kind, branch2, backup)
    ensures branch1 == branch2
  {
  }

  /** The characters of a prefix at positions 17, 21 and 22, and at 27 for the lidar kinds. */
  function Signature(kind: BucketKind): (char, char, char, char) {
    match kind
    case Cyclorama => ('g', 'c', 'y', ' ')
    case Mesh => ('g', 'm', 'e', ' ')
    case Obliek => ('g', 'o', 'b', ' ')
    case Ortho => ('g', 'o', 'r', ' ')
    case LidarAirborne => ('g', 'l', 'i', 'a')
    case LidarTerrestrisch => ('g', 'l', 'i', 't')
    case KaartViewerDocs => ('k', 't', 'v', ' ')
  }

  lemma PrefixSignature(kind: BucketKind)
    ensures |Prefix(kind)| > 22
    ensures Prefix(kind)[17] == Signature(kind).0
    ensures Prefix(kind)[21] == Signature(kind).1
    ensures Prefix(kind)[22] == Signature(kind).2
    ensures kind == LidarAirborne || kind == LidarTerrestrisch ==> |Prefix(kind)| > 27 && Prefix(kind)[27] == Signature(kind).3
  {
  }

  /** A position at which the prefixes of two different kinds hold different characters. */
  function PrefixDifference(kind1: BucketKind, kind2: BucketKind): nat
  {
    var s1, s2 := Signature(kind1), Signature(kind2);
    if s1.0 != s2.0 then 17 else if s1.1 != s2.1 then 21 else if s1.2 != s2.2 then 22 else 27
  }

  /** Two different kinds have prefixes that differ at `PrefixDifference`. */
  lemma PrefixesDiffer(kind1: BucketKind, kind2: BucketKind)
    requires kind1 != kind2
    ensures var i := PrefixDifference(kind1, kind2);
            i < |Prefix(kind1)| && i < |Prefix(kind2)| && Prefix(kind1)[i] != Prefix(kind2)[i]
  {
    PrefixSignature(kind1);
    PrefixSignature(kind2);
  }

  /** A bucket name agrees with its kind's prefix at every position of the prefix. */
  lemma NameFollowsPrefix(kind: BucketKind, branch: string, backup: bool, i: nat)
    requires i < |Prefix(kind)|
    ensures BucketName(kind, branch, backup)[i] == Prefix(kind)[i]
  {
    var name := BucketName(kind, branch, backup);
    assert name[i] == name[..|Prefix(kind)|][i];
  }

  /**
   * Names of different kinds never collide, whatever the branches and backup flags:
   * no prefix is a prefix of another, so the names differ inside the prefixes.
   */
  lemma BucketNamesDistinct(kind1: BucketKind, kind2: BucketKind, branch1: string, branch2: string, backup1: bool, backup2: bool)
    requires kind1 != kind2
    ensures BucketName(kind1, branch1, backup1) != BucketName(kind2, branch2, backup2)
  {
    PrefixesDiffer(kind1, kind2);
    var i := PrefixDifference(kind1, kind2);
    NameFollowsPrefix(kind1, branch1, backup1, i);
    NameFollowsPrefix(kind2, branch2, backup2, i);
  }

  // ---------------------------------------------------------------------------
  // Platform-operator role

  const RoleArnPrefix := "arn:aws:iam::"
  const RoleArnPath := "role/aws-reserved/sso.amazonaws.com/"
  const RoleArnSuffix := "/AWSReservedSSO_lz-platform-operator_*"

  /** The text up to (not including) the first `sep`, or all of `s` when there is none. */
  function TakeUntil(s: string, sep: char): (r: string)
    ensures |r| <= |s| && r == s[..|r|]
    ensures sep !in r
    decreases |s|
  {
    if |s| == 0 || s[0] == sep then "" else [s[0]] + TakeUntil(s[1..], sep)
  }

  lemma {:induction false} TakeUntilStopsAtSeparator(a: string, sep: char, rest: string)
    requires sep !in a
    ensures TakeUntil(a + ([sep] + rest), sep) == a
    decreases |a|
  {
    if |a| > 0 {
      assert (a + ([sep] + rest))[1..] == a[1..] + ([sep] + rest);
      TakeUntilStopsAtSeparator(a[1..], sep, rest);
    } else {
      assert a + ([sep] + rest) == [sep] + rest;
    }
  }

  /** The part of `x + y + z` between `x` and `z` is `y`. */
  lemma MiddleOfConcat(x: string, y: string, z: string)
    ensures (x + y + z)[|x|..|x| + |y|] == y
  {
  }

  /** The account id of a role ARN: what follows `arn:aws:iam::` up to the next colon. */
  function AccountOf(arn: string): string {
    if |arn| < |RoleArnPrefix| then "" else TakeUntil(arn[|RoleArnPrefix|..], ':')
  }

  /** `arn:aws:iam::<account>:role/aws-reserved/sso.amazonaws.com/<region>/AWSReservedSSO_lz-platform-operator_*` */
  function LandingzonePlatformOperatorRoleArn(accountId: string, region: string): (arn: string)
    ensures |arn| == |RoleArnPrefix| + |accountId| + 1 + |RoleArnPath| + |region| + |RoleArnSuffix|
    ensures arn[..|RoleArnPrefix|] == RoleArnPrefix
    ensures arn[|RoleArnPrefix|..|RoleArnPrefix| + |accountId|] == accountId
    ensures arn[|RoleArnPrefix| + |accountId|..|RoleArnPrefix| + |accountId| + 1 + |RoleArnPath|] == [':'] + RoleArnPath
    ensures arn[|RoleArnPrefix| + |accountId| + 1 + |RoleArnPath|..|arn| - |RoleArnSuffix|] == region
    ensures arn[|arn| - |RoleArnSuffix|..] == RoleArnSuffix
    ensures ':' !in accountId ==> AccountOf(arn) == accountId
  {
    var rest := RoleArnPath + region + RoleArnSuffix;
    var afterPrefix := accountId + ([':'] + rest);
    var arn := RoleArnPrefix + afterPrefix;
    var head := RoleArnPrefix + accountId;
    var path := [':'] + RoleArnPath;
    assert arn == head + path + (region + RoleArnSuffix);
    MiddleOfConcat(head, path, region + RoleArnSuffix);
    assert arn == head + path + region + RoleArnSuffix;
    MiddleOfConcat(head + path, region, RoleArnSuffix);
    assert arn[..|RoleArnPrefix|] == RoleArnPrefix;
    assert arn[|RoleArnPrefix|..] == afterPrefix;
    assert ':' !in accountId ==> TakeUntil(afterPrefix, ':') == accountId by {
      if ':' !in accountId {
        TakeUntilStopsAtSeparator(accountId, ':', rest);
      }
    }
    arn
  }
}
