/**
 * `parse_skill_metadata` and `find_all_skills` exactly as the source writes
 * them, for a header that is not a YAML mapping. Python's `in` then tests a
 * substring of a str or an element of a list, and raises TypeError on a
 * number, a boolean or null; indexing a str or a list by a key raises
 * TypeError too. `find_all_skills` catches only ValueError and OSError, so a
 * TypeError from one manifest ends the whole scan.
 */
module SkillParserAsWritten {
  import opened Wrappers
  import opened Errors
  import opened Paths
  import opened Frontmatter
  import opened FileSystem
  import opened SkillParser

  /** Python's `sub in t` for two str values. */
  predicate IsSubstring(sub: string, t: string)
    decreases |t|
  {
    sub <= t || (t != [] && IsSubstring(sub, t[1..]))
  }

  /** The field checks of `parse_skill_metadata` on a header of any YAML type. */
  function MetadataAsWritten(header: Result<Value, Error>, manifest: Path): (r: Result<SkillMetadata, Error>)
    ensures header.Success? && header.value.Mapping? ==> r == MetadataFrom(header, manifest)
    ensures header.Success? && (header.value.Null? || header.value.Int? || header.value.Bool?) ==>
      r == Failure(HeaderTypeError)
  {
    match header
    case Failure(e) => Failure(e)
    case Success(v) =>
      match v
      case Mapping(h) => FieldsOf(h, manifest)
      case Str(t) =>
        if !IsSubstring("name", t) then Failure(MissingField("name", ToString(manifest)))
        else if !IsSubstring("description", t) then Failure(MissingField("description", ToString(manifest)))
        else Failure(HeaderTypeError)
      case List(items) =>
        if Str("name") !in items then Failure(MissingField("name", ToString(manifest)))
        else if Str("description") !in items then Failure(MissingField("description", ToString(manifest)))
        else Failure(HeaderTypeError)
      case _ => Failure(HeaderTypeError)
  }

  function ParseAsWritten(env: Environment, manifest: Path): Result<SkillMetadata, Error> {
    MetadataAsWritten(HeaderOf(env, manifest), manifest)
  }

  /**
   * The loop of `find_all_skills` over the outcomes, as written: a ValueError or
   * an OSError skips the manifest, any other exception propagates.
   */
  function ScanAsWritten(outcomes: seq<Result<SkillMetadata, Error>>): (r: Result<seq<SkillMetadata>, Error>)
    ensures r.Failure? ==> r.error.Class() == TypeError
    ensures r.Failure? ==> exists i :: 0 <= i < |outcomes| && outcomes[i] == Failure(r.error)
    ensures r.Success? ==> |r.value| <= |outcomes|
    decreases |outcomes|
  {
    if outcomes == [] then Success([])
    else
      match ScanAsWritten(outcomes[..|outcomes| - 1])
      case Failure(e) => Failure(e)
      case Success(earlier) =>
        match outcomes[|outcomes| - 1]
        case Success(s) => Success(earlier + [s])
        case Failure(e) => if e.Class() == TypeError then Failure(e) else Success(earlier)
  }

  /** Without a TypeError among the outcomes, the scan as written keeps what the corrected scan keeps. */
  lemma {:induction false} ScanAgreesWithoutTypeError(outcomes: seq<Result<SkillMetadata, Error>>)
    requires forall i :: 0 <= i < |outcomes| && outcomes[i].Failure? ==> outcomes[i].error.Class() != TypeError
    ensures ScanAsWritten(outcomes) == Success(Kept(outcomes))
    decreases |outcomes|
  {
    if outcomes != [] {
      var n := |outcomes| - 1;
      ScanAgreesWithoutTypeError(outcomes[..n]);
    }
  }

  /** One TypeError anywhere ends the scan as written, whatever the other manifests hold. */
  lemma {:induction false} TypeErrorStopsScan(outcomes: seq<Result<SkillMetadata, Error>>, k: nat)
    requires k < |outcomes| && outcomes[k].Failure? && outcomes[k].error.Class() == TypeError
    ensures ScanAsWritten(outcomes).Failure?
    decreases |outcomes|
  {
    var n := |outcomes| - 1;
    if k < n {
      TypeErrorStopsScan(outcomes[..n], k);
    }
  }

  /** The two parses accept the same manifests with the same record; they differ only in how they refuse. */
  lemma ParsesAgreeOnSuccess(env: Environment, manifest: Path)
    ensures ParseAsWritten(env, manifest).Success? <==> ParseSkillMetadata(env, manifest).Success?
    ensures ParseAsWritten(env, manifest).Success? ==> ParseAsWritten(env, manifest) == ParseSkillMetadata(env, manifest)
  {
  }

  /** The corrected parse never raises a TypeError, so the scan as written would never stop on it. */
  lemma CorrectedScanNeverStops(env: Environment, manifests: seq<Path>)
    ensures ScanAsWritten(Outcomes(env, manifests)) == Success(Kept(Outcomes(env, manifests)))
  {
    var o := Outcomes(env, manifests);
    forall i | 0 <= i < |o| && o[i].Failure? ensures o[i].error.Class() != TypeError {
      assert o[i] == ParseSkillMetadata(env, manifests[i]);
    }
    ScanAgreesWithoutTypeError(o);
  }

  /**
   * A manifest whose header is the bare number 42 raises TypeError as written,
   * while the corrected parse refuses it with a ValueError that discovery skips.
   */
  lemma NumericHeaderRaisesTypeError(env: Environment, manifest: Path, body: string)
    requires ReadText(env.fs, manifest) == Some(Compose("42", body))
    requires env.load("42") == Some(Int(42))
    ensures ParseAsWritten(env, manifest) == Failure(HeaderTypeError)
    ensures ParseSkillMetadata(env, manifest) == Failure(HeaderNotMapping(ToString(manifest)))
  {
    ComposedHeaderRoundTrip("42", body);
    assert HeaderOf(env, manifest) == Success(Int(42));
  }

  /**
   * The discrepancy end to end: a skills tree holding one good manifest and one
   * whose header is 42 yields nothing as written, and the good skill when corrected.
   */
  lemma OneBadManifestHidesAll(env: Environment, bad: Path, good: Path, body: string, s: SkillMetadata)
    requires ReadText(env.fs, bad) == Some(Compose("42", body))
    requires env.load("42") == Some(Int(42))
    requires ParseSkillMetadata(env, good) == Success(s)
    ensures ScanAsWritten([ParseAsWritten(env, bad), ParseAsWritten(env, good)]).Failure?
    ensures Kept(Outcomes(env, [bad, good])) == [s]
  {
    NumericHeaderStopsScan(env, bad, good, body);
    NumericHeaderRaisesTypeError(env, bad, body);
    KeptOfFailureThenSuccess(env, bad, good, HeaderNotMapping(ToString(bad)), s);
  }

  lemma KeptOfFailureThenSuccess(env: Environment, bad: Path, good: Path, e: Error, s: SkillMetadata)
    requires ParseSkillMetadata(env, bad) == Failure(e)
    requires ParseSkillMetadata(env, good) == Success(s)
    ensures Kept(Outcomes(env, [bad, good])) == [s]
  {
    var o := Outcomes(env, [bad, good]);
    assert o[0] == ParseSkillMetadata(env, bad);
    assert o[1] == ParseSkillMetadata(env, good);
    KeptSkipsLeadingFailure(o, e, s);
  }

  lemma NumericHeaderStopsScan(env: Environment, bad: Path, good: Path, body: string)
    requires ReadText(env.fs, bad) == Some(Compose("42", body))
    requires env.load("42") == Some(Int(42))
    ensures ScanAsWritten([ParseAsWritten(env, bad), ParseAsWritten(env, good)]).Failure?
  {
    NumericHeaderRaisesTypeError(env, bad, body);
    var o := [ParseAsWritten(env, bad), ParseAsWritten(env, good)];
    assert o[0] == Failure(HeaderTypeError);
    TypeErrorStopsScan(o, 0);
  }

  lemma KeptSkipsLeadingFailure(o: seq<Result<SkillMetadata, Error>>, e: Error, s: SkillMetadata)
    requires |o| == 2 && o[0] == Failure(e) && o[1] == Success(s)
    ensures Kept(o) == [s]
  {
    assert o[..1] == [Failure(e)];
    assert o[..1][..0] == [];
  }
}
