/** The decision and path logic of `self_update`: whether a newer release
    exists, and which archive members hold the new program. */
module SelfUpdate {
  import opened Base
  import opened Fetch

  /** A release version as (major, minor, patch); pre-release and build tags are not modelled. */
  datatype Version = Version(major: nat, minor: nat, patch: nat)

  /** The version this program carries (`SCRIPT_VERSION`). */
  const ScriptVersion := Version(1, 6, 2)

  /** Semantic-version precedence on numeric triples. */
  predicate VersionLess(a: Version, b: Version)
  {
    || a.major < b.major
    || (a.major == b.major && a.minor < b.minor)
    || (a.major == b.major && a.minor == b.minor && a.patch < b.patch)
  }

  lemma VersionLessIsStrictTotalOrder(a: Version, b: Version, c: Version)
    ensures !VersionLess(a, a)
    ensures VersionLess(a, b) && VersionLess(b, c) ==> VersionLess(a, c)
    ensures a == b || VersionLess(a, b) || VersionLess(b, a)
    ensures !(VersionLess(a, b) && VersionLess(b, a))
  {
  }

  datatype Decision = UpToDate | AheadOfRelease | UpdateAvailable

  /** The comparison `SCRIPT_VERSION >= latest_ver` and its inner `>`. */
  function Decide(running: Version, latest: Version): (d: Decision)
    ensures d == UpdateAvailable <==> VersionLess(running, latest)
    ensures d == AheadOfRelease <==> VersionLess(latest, running)
    ensures d == UpToDate <==> running == latest
  {
    if !VersionLess(running, latest) then
      if VersionLess(latest, running) then AheadOfRelease else UpToDate
    else UpdateAvailable
  }

  /** Running 1.6.2 against a 1.6.2 release: nothing to do. */
  lemma SameVersionStays()
    ensures Decide(ScriptVersion, Version(1, 6, 2)) == UpToDate
  {
  }

  /** Running 1.6.2 against a 1.7.0 release: update. */
  lemma NewerReleaseUpdates()
    ensures Decide(ScriptVersion, Version(1, 7, 0)) == UpdateAvailable
  {
  }

  const HashCutoff: nat := 7

  /** `sha[:7]`: Python slicing keeps a shorter sha whole. */
  function ShortSha(sha: string): (s: string)
    ensures |s| == if |sha| < HashCutoff then |sha| else HashCutoff
    ensures s <= sha
  {
    if |sha| < HashCutoff then sha else sha[..HashCutoff]
  }

  /** The top-level folder of GitHub's zipball: `<owner>-<repo>-<short sha>`. */
  function ArchiveRoot(sha: string): string
  {
    "CreamySoup-soup-" + ShortSha(sha)
  }

  /** The archive member `<root>/<file>`. */
  function MemberName(sha: string, file: string): (m: string)
    ensures |m| == |ArchiveRoot(sha)| + 1 + |file|
    ensures m[..|ArchiveRoot(sha)| + 1] == ArchiveRoot(sha) + "/"
    ensures m[|ArchiveRoot(sha)| + 1..] == file
  {
    ArchiveRoot(sha) + "/" + file
  }

  const ProgramFile := "soup.py"
  const RequirementsFile := "requirements.txt"

  /** The two members read from the archive share one folder, differ in file
      name, and depend only on the first seven characters of the sha. */
  lemma MemberNames(sha: string, sha': string)
    requires |sha| >= HashCutoff && |sha'| >= HashCutoff
    requires sha[..HashCutoff] == sha'[..HashCutoff]
    ensures |MemberName(sha, ProgramFile)| == 31
    ensures MemberName(sha, ProgramFile) == "CreamySoup-soup-" + sha[..7] + "/soup.py"
    ensures MemberName(sha, RequirementsFile) == "CreamySoup-soup-" + sha[..7] + "/requirements.txt"
    ensures MemberName(sha, ProgramFile) != MemberName(sha, RequirementsFile)
    ensures MemberName(sha, ProgramFile) == MemberName(sha', ProgramFile)
  {
    assert |MemberName(sha, ProgramFile)| != |MemberName(sha, RequirementsFile)|;
    assert ShortSha(sha) == ShortSha(sha');
  }

  /** What the GitHub API returned for the two queries of `self_update`. */
  datatype ReleaseQuery = ReleaseQuery(
    latest: ApiResponse,    // GET /repos/CreamySoup/soup/releases/latest
    tag: Version,           // its tag_name
    zipballUrl: string,     // its zipball_url
    ref: ApiResponse,       // GET /repos/CreamySoup/soup/git/ref/tags/<tag>
    commitSha: string)      // its object.sha

  /** Where the API phase of `self_update` ends. */
  datatype Plan =
    | Stay                                              // nothing to do, or transient failure
    | Abort(fault: Fault)                               // an exception escapes
    | Download(zipUrl: string, requirementsMember: string, programMember: string)

  /** The API phase of `self_update` for the program at version `running`. */
  function PlanSelfUpdate(running: Version, q: ReleaseQuery): (p: Plan)
    ensures p.Download? <==>
              VerifyGhApiReq(q.latest) == Ok(true) && VersionLess(running, q.tag) &&
              VerifyGhApiReq(q.ref) == Ok(true)
    ensures p.Download? ==>
              p.zipUrl == q.zipballUrl &&
              p.requirementsMember == MemberName(q.commitSha, RequirementsFile) &&
              p.programMember == MemberName(q.commitSha, ProgramFile)
    ensures !VersionLess(running, q.tag) ==> !p.Download?
    ensures p.Abort? ==> p.fault.HttpFailure?
    ensures VerifyGhApiReq(q.latest).Err? ==> p == Abort(VerifyGhApiReq(q.latest).fault)
    ensures VerifyGhApiReq(q.latest) == Ok(false) ==> p == Stay
    ensures VerifyGhApiReq(q.latest) == Ok(true) && VersionLess(running, q.tag) && VerifyGhApiReq(q.ref).Err? ==>
              p == Abort(VerifyGhApiReq(q.ref).fault)
    ensures VerifyGhApiReq(q.latest) == Ok(true) && VersionLess(running, q.tag) && VerifyGhApiReq(q.ref) == Ok(false) ==>
              p == Stay
  {
    match VerifyGhApiReq(q.latest)
    case Err(f) => Abort(f)
    case Ok(false) => Stay
    case Ok(true) =>
      if Decide(running, q.tag) != UpdateAvailable then Stay
      else match VerifyGhApiReq(q.ref)
        case Err(f) => Abort(f)
        case Ok(false) => Stay
        case Ok(true) =>
          Download(q.zipballUrl, MemberName(q.commitSha, RequirementsFile),
                MemberName(q.commitSha, ProgramFile))
  }
}
