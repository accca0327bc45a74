/**
 * What the skill registry promises across operations: discovery keeps exactly
 * the manifests that parse, a skill found by name is the one whose manifest
 * names it, every listed file can be fetched, and no relative path that climbs
 * out of a skill's directory is served.
 */
module SkillParserProperties {
  import opened Wrappers
  import opened Errors
  import opened Paths
  import opened Frontmatter
  import opened FileSystem
  import opened StringOrder
  import opened SkillParser

  // Discovery

  /** Keeping the successes of two runs of outcomes keeps those of each in turn. */
  lemma {:induction false} KeptAppend(a: seq<Result<SkillMetadata, Error>>, b: seq<Result<SkillMetadata, Error>>)
    ensures Kept(a + b) == Kept(a) + Kept(b)
    decreases |b|
  {
    if b == [] {
      assert a + b == a;
    } else {
      var b' := b[..|b| - 1];
      assert (a + b)[..|a + b| - 1] == a + b';
      assert (a + b)[|a + b| - 1] == b[|b| - 1];
      KeptAppend(a, b');
    }
  }

  /** A record is kept exactly when it is one of the successes. */
  lemma {:induction false} KeptMembership(outcomes: seq<Result<SkillMetadata, Error>>, s: SkillMetadata)
    ensures s in Kept(outcomes) <==> Success(s) in outcomes
    decreases |outcomes|
  {
    if outcomes != [] {
      var n := |outcomes| - 1;
      KeptMembership(outcomes[..n], s);
      assert outcomes == outcomes[..n] + [outcomes[n]];
    }
  }

  /** Parsing a concatenation of manifests gives the outcomes of each part. */
  lemma OutcomesAppend(env: Environment, a: seq<Path>, b: seq<Path>)
    ensures Outcomes(env, a + b) == Outcomes(env, a) + Outcomes(env, b)
  {
  }

  /** A record is discovered exactly when some manifest parses to it. */
  lemma DiscoverMembership(env: Environment, manifests: seq<Path>, s: SkillMetadata)
    ensures s in Kept(Outcomes(env, manifests)) <==>
      exists i :: 0 <= i < |manifests| && ParseSkillMetadata(env, manifests[i]) == Success(s)
  {
    var outcomes := Outcomes(env, manifests);
    KeptMembership(outcomes, s);
    if Success(s) in outcomes {
      var i :| 0 <= i < |outcomes| && outcomes[i] == Success(s);
      assert ParseSkillMetadata(env, manifests[i]) == Success(s);
    }
    if i :| 0 <= i < |manifests| && ParseSkillMetadata(env, manifests[i]) == Success(s) {
      assert outcomes[i] == Success(s);
    }
  }

  /** A manifest that fails to parse changes nothing: the scan goes on past it. */
  lemma DiscoverySkipsFailure(env: Environment, a: seq<Path>, m: Path, b: seq<Path>)
    requires ParseSkillMetadata(env, m).Failure?
    ensures Kept(Outcomes(env, a + [m] + b)) == Kept(Outcomes(env, a + b))
  {
    OutcomesAppend(env, a + [m], b);
    OutcomesAppend(env, a, [m]);
    OutcomesAppend(env, a, b);
    var failed := Outcomes(env, [m]);
    assert failed == [ParseSkillMetadata(env, m)];
    KeptAppend(Outcomes(env, a) + failed, Outcomes(env, b));
    KeptAppend(Outcomes(env, a), failed);
    KeptAppend(Outcomes(env, a), Outcomes(env, b));
    assert failed[..0] == [];
  }

  /**
   * Every discovered skill came from the SKILL.md file in its own directory:
   * that manifest, parsed again, gives the same record.
   */
  lemma DiscoveredSkillReparses(env: Environment, root: Path, s: SkillMetadata)
    requires s in Skills(env, root)
    ensures s.skillPath + [ManifestName] in ManifestsUnder(env, root)
    ensures ParseSkillMetadata(env, s.skillPath + [ManifestName]) == Success(s)
  {
    var manifests := ManifestsUnder(env, root);
    DiscoverMembership(env, manifests, s);
    var i :| 0 <= i < |manifests| && ParseSkillMetadata(env, manifests[i]) == Success(s);
    ManifestsAreNamed(env, root, i);
    ParsedSkillPath(env, manifests[i], s);
  }

  /** rglob("SKILL.md") reports only paths whose last name is SKILL.md. */
  lemma ManifestsAreNamed(env: Environment, root: Path, i: nat)
    requires i < |ManifestsUnder(env, root)|
    ensures var m := ManifestsUnder(env, root)[i]; m != [] && m[|m| - 1] == ManifestName
  {
  }

  /** A parsed manifest's directory, joined with the manifest's name, is the manifest. */
  lemma ParsedSkillPath(env: Environment, manifest: Path, s: SkillMetadata)
    requires manifest != [] && manifest[|manifest| - 1] == ManifestName
    requires ParseSkillMetadata(env, manifest) == Success(s)
    ensures s.skillPath + [ManifestName] == manifest
  {
  }

  /** A manifest written as a header between delimiter lines yields that header's record. */
  lemma ComposedManifestParses(env: Environment, manifest: Path, yaml: string, body: string, h: Header)
    requires ReadText(env.fs, manifest) == Some(Compose(yaml, body))
    requires yaml != [] && !IsSpace(yaml[0]) && NoDelimiterLine(yaml)
    requires env.load(yaml) == Some(Mapping(h)) && "name" in h && "description" in h
    ensures ParseSkillMetadata(env, manifest) == Success(SkillMetadata(h["name"], h["description"], Parent(manifest)))
  {
    ComposedHeaderRoundTrip(yaml, body);
    assert HeaderOf(env, manifest) == Success(Mapping(h));
  }

  // Lookup by name

  /** The return type is checked before anything is read. */
  lemma ReturnTypeCheckedFirst(env: Environment, root: Path, name: string, relativePath: string, returnType: string)
    requires returnType !in {"content", "file_path", "both"}
    ensures SkillContent(env, root, name, returnType) == Failure(InvalidReturnType(returnType))
    ensures SkillFile(env, root, name, relativePath, returnType) == Failure(InvalidReturnType(returnType))
  {
  }

  /** A valid lookup fails with "not found" exactly when no discovered skill has the name. */
  lemma SkillNotFoundExactly(env: Environment, root: Path, name: string, returnType: string)
    requires returnType in {"content", "file_path", "both"}
    ensures SkillContent(env, root, name, returnType) == Failure(SkillNotFound(name)) <==>
      forall s :: s in Skills(env, root) ==> s.name != Str(name)
  {
    match Find(env, root, name)
    case None =>
    case Some(s) =>
      var mode := ParseReturnType(returnType).value;
      assert SkillContent(env, root, name, returnType) == Deliver(env.fs, s.skillPath + [ManifestName], mode);
  }

  /** The manifest of the skill a lookup finds can be read. */
  lemma ManifestOfFoundReadable(env: Environment, root: Path, name: string)
    requires Find(env, root, name).Some?
    ensures ReadText(env.fs, Find(env, root, name).value.skillPath + [ManifestName]).Some?
  {
    var s := Find(env, root, name).value;
    DiscoveredSkillReparses(env, root, s);
    ParsedManifestIsFile(env, s.skillPath + [ManifestName]);
  }

  /**
   * In content mode the text returned is a manifest whose header carries the
   * requested name.
   */
  lemma ContentNamesTheSkill(env: Environment, root: Path, name: string, text: string)
    requires SkillContent(env, root, name, "content") == Success(Content(text))
    ensures exists h :: ExtractFrontmatter(text, env.load) == Success(Mapping(h)) && "name" in h && h["name"] == Str(name)
  {
    var s := Find(env, root, name).value;
    var path := s.skillPath + [ManifestName];
    DiscoveredSkillReparses(env, root, s);
    assert ReadText(env.fs, path) == Some(text);
    var h := HeaderOf(env, path).value.entries;
    assert ExtractFrontmatter(text, env.load) == Success(Mapping(h));
  }

  /**
   * What `get_skill_content` returns for a skill it finds: the text of its
   * SKILL.md, the resolved path of it, or both.
   */
  lemma SkillContentValues(env: Environment, root: Path, name: string)
    requires Find(env, root, name).Some?
    ensures var m := Resolve(Find(env, root, name).value.skillPath + [ManifestName]);
      && m in env.fs && env.fs[m].File?
      && SkillContent(env, root, name, "content") == Success(Content(env.fs[m].content))
      && SkillContent(env, root, name, "file_path") == Success(FilePath(ToString(m)))
      && SkillContent(env, root, name, "both") == Success(Both(env.fs[m].content, ToString(m)))
  {
    ManifestOfFoundReadable(env, root, name);
  }

  /** For a readable file, "both" pairs what "content" and "file_path" give. */
  lemma DeliverBothCombines(fs: Tree, path: Path, content: string, filePath: string)
    requires ReadText(fs, path).Some?
    ensures Deliver(fs, path, BothMode) == Success(Both(content, filePath)) <==>
      && Deliver(fs, path, ContentMode) == Success(Content(content))
      && Deliver(fs, path, FilePathMode) == Success(FilePath(filePath))
  {
  }

  /** "both" gives the content and the file path of the other two modes, and fails when they fail. */
  lemma ContentBothCombines(env: Environment, root: Path, name: string, content: string, filePath: string)
    ensures SkillContent(env, root, name, "both") == Success(Both(content, filePath)) <==>
      && SkillContent(env, root, name, "content") == Success(Content(content))
      && SkillContent(env, root, name, "file_path") == Success(FilePath(filePath))
  {
    if Find(env, root, name).Some? {
      ManifestOfFoundReadable(env, root, name);
      var path := Find(env, root, name).value.skillPath + [ManifestName];
      DeliverBothCombines(env.fs, path, content, filePath);
    }
  }

  // Listing

  /** A name is in the flattened groups exactly when it is in one of them. */
  lemma {:induction false} FlattenMembership(groups: seq<seq<string>>, x: string)
    ensures x in Flatten(groups) <==> exists i :: 0 <= i < |groups| && x in groups[i]
    decreases |groups|
  {
    if groups != [] {
      var n := |groups| - 1;
      var earlier := groups[..n];
      FlattenMembership(earlier, x);
      if x in Flatten(earlier) {
        var i :| 0 <= i < |earlier| && x in earlier[i];
        assert groups[i] == earlier[i];
      }
      if i :| 0 <= i < n && x in groups[i] {
        assert earlier[i] == groups[i];
      }
    }
  }

  /** A name is listed exactly when a file entry below the directory is shown as it. */
  lemma ListingMembership(fs: Tree, dir: Path, entries: seq<Path>, relative: bool, x: string)
    requires forall i :: 0 <= i < |entries| ==> dir <= entries[i]
    ensures x in Listing(fs, dir, entries, relative) <==>
      exists i :: 0 <= i < |entries| && x in Shown(fs, dir, entries[i], relative)
  {
    var groups := ShownEach(fs, dir, entries, relative);
    FlattenMembership(groups, x);
    if i :| 0 <= i < |entries| && x in Shown(fs, dir, entries[i], relative) {
      assert x in groups[i];
    }
  }

  /** The listing is sorted and holds each name collected from the walk as often as it was collected. */
  lemma ListingSortedPermutation(env: Environment, root: Path, name: string, relative: bool, files: seq<string>)
    requires SkillFiles(env, root, name, relative) == Success(files)
    ensures Find(env, root, name).Some?
    ensures Sorted(files)
    ensures var dir := Find(env, root, name).value.skillPath;
      multiset(files) == multiset(Listing(env.fs, dir, EntriesUnder(env, dir), relative))
  {
  }

  /** The order in which the walk meets the files does not change the sorted listing. */
  lemma ListingIgnoresWalkOrder(a: seq<string>, b: seq<string>)
    requires multiset(a) == multiset(b)
    ensures SortStrings(a) == SortStrings(b)
  {
    SortedUnique(SortStrings(a), SortStrings(b));
  }

  /** Walk entries are entry paths in a well-formed world. */
  lemma WalkEntries(env: Environment)
    requires Valid(env.fs, env.walk)
    ensures forall p :: p in env.walk ==> IsEntryPath(p)
  {
    forall p | p in env.walk ensures IsEntryPath(p) {
      assert p in env.fs;
    }
  }

  /** The walked entry a manifest came from is its name below its resolved directory. */
  lemma ManifestWalked(env: Environment, root: Path, dir: Path)
    requires forall p :: p in env.walk ==> IsEntryPath(p)
    requires dir + [ManifestName] in ManifestsUnder(env, root)
    ensures Resolve(dir) + [ManifestName] in env.walk
  {
    RglobReported(env.walk, root, Named(ManifestName), dir + [ManifestName]);
    ResolveAppendPlain(dir, [ManifestName]);
  }

  /** rglob("*") on a directory reports the walked entry one name below it. */
  lemma ChildFound(env: Environment, dir: Path, n: string)
    requires Resolve(dir) + [n] in env.walk
    ensures dir + [n] in EntriesUnder(env, dir)
  {
    var e := Resolve(dir) + [n];
    assert e[|Resolve(dir)|..] == [n];
    RglobFinds(env.walk, dir, AnyName, e);
  }

  /** A file entry one name below the directory is listed under that name. */
  lemma ChildListed(fs: Tree, dir: Path, entries: seq<Path>, n: string)
    requires forall i :: 0 <= i < |entries| ==> dir <= entries[i]
    requires dir + [n] in entries && IsFile(fs, dir + [n])
    ensures n in Listing(fs, dir, entries, true)
  {
    var i :| 0 <= i < |entries| && entries[i] == dir + [n];
    assert entries[i][|dir|..] == [n];
    assert n in Shown(fs, dir, entries[i], true);
    ListingMembership(fs, dir, entries, true, n);
  }

  /** A manifest that parses is a file. */
  lemma ParsedManifestIsFile(env: Environment, manifest: Path)
    requires ParseSkillMetadata(env, manifest).Success?
    ensures IsFile(env.fs, manifest)
  {
  }

  /** A skill's own manifest is among the names its relative listing shows. */
  lemma ManifestListed(env: Environment, root: Path, name: string, files: seq<string>)
    requires Valid(env.fs, env.walk)
    requires SkillFiles(env, root, name, true) == Success(files)
    ensures ManifestName in files
  {
    ListingSortedPermutation(env, root, name, true, files);
    var s := Find(env, root, name).value;
    ManifestListedBelow(env, root, s);
    assert ManifestName in multiset(Listing(env.fs, s.skillPath, EntriesUnder(env, s.skillPath), true));
  }

  /** The relative listing of a discovered skill's directory shows its manifest. */
  lemma ManifestListedBelow(env: Environment, root: Path, s: SkillMetadata)
    requires Valid(env.fs, env.walk)
    requires s in Skills(env, root)
    ensures ManifestName in Listing(env.fs, s.skillPath, EntriesUnder(env, s.skillPath), true)
  {
    var dir := s.skillPath;
    DiscoveredSkillReparses(env, root, s);
    WalkEntries(env);
    ManifestWalked(env, root, dir);
    ChildFound(env, dir, ManifestName);
    ParsedManifestIsFile(env, dir + [ManifestName]);
    ChildListed(env.fs, dir, EntriesUnder(env, dir), ManifestName);
  }

  /** The relative name rglob("*") gives a file entry resolves, inside the directory, to that file. */
  lemma EntryResolvesInside(env: Environment, dir: Path, e: Path)
    requires forall p :: p in env.walk ==> IsEntryPath(p)
    requires e in EntriesUnder(env, dir) && IsFile(env.fs, e)
    ensures ResolveInSkill(env.fs, dir, JoinNames(e[|dir|..])) == Success(Resolve(e))
  {
    var suffix := e[|dir|..];
    RglobReported(env.walk, dir, AnyName, e);
    JoinRelativeNames(dir, suffix);
    FileInsideAccepted(env.fs, dir, JoinNames(suffix), e);
  }

  /** A relative path naming a file whose resolved form lies inside the directory passes every check. */
  lemma FileInsideAccepted(fs: Tree, dir: Path, relativePath: string, e: Path)
    requires JoinPath(dir, relativePath) == e
    requires IsUnder(Resolve(e), Resolve(dir)) && IsFile(fs, e)
    ensures ResolveInSkill(fs, dir, relativePath) == Success(Resolve(e))
  {
    ResolveIdempotent(e);
  }

  /** Every name of the relative listing of a directory passes the checks of `get_skill_file`. */
  lemma ListedNameResolves(env: Environment, dir: Path, x: string)
    requires forall p :: p in env.walk ==> IsEntryPath(p)
    requires x in Listing(env.fs, dir, EntriesUnder(env, dir), true)
    ensures ResolveInSkill(env.fs, dir, x).Success?
  {
    var entries := EntriesUnder(env, dir);
    ListingMembership(env.fs, dir, entries, true, x);
    var i :| 0 <= i < |entries| && x in Shown(env.fs, dir, entries[i], true);
    EntryResolvesInside(env, dir, entries[i]);
  }

  /** A file that resolves inside the found skill is served in content mode. */
  lemma ResolvedFileServed(env: Environment, root: Path, name: string, relativePath: string)
    requires Find(env, root, name).Some?
    requires ResolveInSkill(env.fs, Find(env, root, name).value.skillPath, relativePath).Success?
    ensures SkillFile(env, root, name, relativePath, "content").Success?
  {
    var q := ResolveInSkill(env.fs, Find(env, root, name).value.skillPath, relativePath).value;
    assert ReadText(env.fs, q).Some?;
  }

  /** What `get_skill_file` returns for a path that passes its checks: the file's text, its resolved path, or both. */
  lemma SkillFileValues(env: Environment, root: Path, name: string, relativePath: string, q: Path)
    requires Find(env, root, name).Some?
    requires ResolveInSkill(env.fs, Find(env, root, name).value.skillPath, relativePath) == Success(q)
    ensures q in env.fs && env.fs[q].File?
    ensures SkillFile(env, root, name, relativePath, "content") == Success(Content(env.fs[q].content))
    ensures SkillFile(env, root, name, relativePath, "file_path") == Success(FilePath(ToString(q)))
    ensures SkillFile(env, root, name, relativePath, "both") == Success(Both(env.fs[q].content, ToString(q)))
  {
    ResolveIdempotent(JoinPath(Find(env, root, name).value.skillPath, relativePath));
    assert Resolve(q) == q;
  }

  /** A refusal of the path checks is what `get_skill_file` raises, in every valid mode. */
  lemma SkillFileRefusal(env: Environment, root: Path, name: string, relativePath: string, returnType: string)
    requires returnType in {"content", "file_path", "both"}
    requires Find(env, root, name).Some?
    requires ResolveInSkill(env.fs, Find(env, root, name).value.skillPath, relativePath).Failure?
    ensures SkillFile(env, root, name, relativePath, returnType) ==
      Failure(ResolveInSkill(env.fs, Find(env, root, name).value.skillPath, relativePath).error)
  {
  }

  /** The path a single entry name asks for inside a skill: that name below the resolved directory. */
  lemma ChildPath(dir: Path, n: string)
    requires IsEntryName(n)
    ensures Resolve(JoinPath(dir, n)) == Resolve(dir) + [n]
    ensures IsUnder(Resolve(dir) + [n], Resolve(dir))
    ensures Resolve(Resolve(dir) + [n]) == Resolve(dir) + [n]
  {
    assert JoinNames([n]) == n;
    JoinRelativeNames(dir, [n]);
    ResolveAppendPlain(dir, [n]);
    ResolveIdempotent(dir + [n]);
  }

  /** A name inside the skill that nothing is called is "File not found", in every valid mode. */
  lemma MissingChildNotFound(env: Environment, root: Path, name: string, n: string, returnType: string)
    requires returnType in {"content", "file_path", "both"}
    requires Find(env, root, name).Some? && IsEntryName(n)
    requires Resolve(Find(env, root, name).value.skillPath) + [n] !in env.fs
    ensures SkillFile(env, root, name, n, returnType) == Failure(FileNotFound(n))
  {
    var dir := Find(env, root, name).value.skillPath;
    ChildPath(dir, n);
    SkillFileRefusal(env, root, name, n, returnType);
  }

  /** A subdirectory of the skill asked for as a file is "Path is not a file", in every valid mode. */
  lemma SubdirectoryNotAFile(env: Environment, root: Path, name: string, n: string, returnType: string)
    requires returnType in {"content", "file_path", "both"}
    requires Find(env, root, name).Some? && IsEntryName(n)
    requires var d := Resolve(Find(env, root, name).value.skillPath) + [n]; d in env.fs && env.fs[d] == Directory
    ensures SkillFile(env, root, name, n, returnType) == Failure(NotAFile(n))
  {
    var dir := Find(env, root, name).value.skillPath;
    ChildPath(dir, n);
    SkillFileRefusal(env, root, name, n, returnType);
  }

  /** Every name of a relative listing can be fetched back, inside the skill, as a file. */
  lemma ListedFileFetches(env: Environment, root: Path, name: string, files: seq<string>, x: string)
    requires Valid(env.fs, env.walk)
    requires SkillFiles(env, root, name, true) == Success(files) && x in files
    ensures SkillFile(env, root, name, x, "content").Success?
  {
    ListingSortedPermutation(env, root, name, true, files);
    var dir := Find(env, root, name).value.skillPath;
    assert x in multiset(Listing(env.fs, dir, EntriesUnder(env, dir), true));
    WalkEntries(env);
    ListedNameResolves(env, dir, x);
    ResolvedFileServed(env, root, name, x);
  }

  // Containment

  /** A path that resolves outside the skill is refused whatever the filesystem holds. */
  lemma EscapeRefusedWhateverExists(fs: Tree, fs': Tree, skillPath: Path, relativePath: string)
    requires !IsUnder(Resolve(JoinPath(skillPath, relativePath)), Resolve(skillPath))
    ensures ResolveInSkill(fs, skillPath, relativePath) == ResolveInSkill(fs', skillPath, relativePath) == Failure(InvalidPath)
  {
  }

  /** "../" followed by another directory's name is refused. */
  lemma SiblingTraversalRefused(fs: Tree, skillPath: Path, sibling: string)
    requires Resolve(skillPath) != [] && IsEntryName(sibling)
    requires sibling != Resolve(skillPath)[|Resolve(skillPath)| - 1]
    ensures ResolveInSkill(fs, skillPath, "../" + sibling) == Failure(InvalidPath)
  {
    var names := ["..", sibling];
    assert JoinNames(names) == "../" + sibling;
    ParseClimbingNames(names);
    assert JoinPath(skillPath, "../" + sibling) == skillPath + names;
    SiblingResolvesBeside(skillPath, sibling);
  }

  /** "..", then a name, resolves to that name beside the directory. */
  lemma SiblingResolvesBeside(skillPath: Path, sibling: string)
    requires IsEntryName(sibling)
    ensures Resolve(skillPath + ["..", sibling]) == Parent(Resolve(skillPath)) + [sibling]
  {
    var up := skillPath + [".."];
    assert (skillPath + ["..", sibling])[..|skillPath| + 1] == up;
    assert up[..|skillPath|] == skillPath;
  }

  /** A relative path made only of ".." names always leaves a skill directory below the root. */
  lemma UpwardOnlyRefused(fs: Tree, skillPath: Path, ups: seq<string>)
    requires Resolve(skillPath) != []
    requires ups != [] && forall i :: 0 <= i < |ups| ==> ups[i] == ".."
    ensures ResolveInSkill(fs, skillPath, JoinNames(ups)) == Failure(InvalidPath)
  {
    ParseClimbingNames(ups);
    assert JoinPath(skillPath, JoinNames(ups)) == skillPath + ups;
    UpwardStepsLeave(skillPath, ups);
  }

  /** A relative path whose first name is ".." reads back as its names, none of them dropped. */
  lemma ParseClimbingNames(names: seq<string>)
    requires names != [] && names[0] == ".."
    requires forall i :: 0 <= i < |names| ==> names[i] != "" && names[i] != "." && Separator !in names[i]
    ensures ParsePath(JoinNames(names)) == PathArg(false, names)
  {
    SplitJoinNames(names);
    JoinNamesStartsWithFirst(names);
  }

  /** In `get_skill_file`, "both" gives the content and the file path of the other two modes. */
  lemma FileBothCombines(env: Environment, root: Path, name: string, relativePath: string, content: string, filePath: string)
    ensures SkillFile(env, root, name, relativePath, "both") == Success(Both(content, filePath)) <==>
      && SkillFile(env, root, name, relativePath, "content") == Success(Content(content))
      && SkillFile(env, root, name, relativePath, "file_path") == Success(FilePath(filePath))
  {
    if Find(env, root, name).Some? {
      var dir := Find(env, root, name).value.skillPath;
      var r := ResolveInSkill(env.fs, dir, relativePath);
      if r.Success? {
        assert ReadText(env.fs, r.value).Some?;
        DeliverBothCombines(env.fs, r.value, content, filePath);
      }
    }
  }
}
