/**
 * The skill registry: discovery of SKILL.md manifests below a skills directory,
 * lookup by name, listing of a skill's files, and reads of one file that may
 * not leave the skill's directory.
 *
 * Every operation re-walks the filesystem. The filesystem, the walk order and
 * the YAML loader are the `Environment`, read-only for the duration of a call.
 * Each operation is a method of `SkillParser` (the loops of the source) proved
 * equal to a specification function of this module.
 */
module SkillParser {
  import opened Wrappers
  import opened Errors
  import opened Paths
  import opened Frontmatter
  import opened FileSystem
  import opened StringOrder

  const ManifestName: string := "SKILL.md"

  /** What an operation reads: the filesystem, rglob's walk order, and yaml.safe_load. */
  datatype Environment = Environment(fs: Tree, walk: seq<Path>, load: YamlLoader)

  /** `SkillMetadata`: the header's two values, verbatim, and the manifest's directory. */
  datatype SkillMetadata = SkillMetadata(name: Value, description: Value, skillPath: Path) {

    /** `to_dict`: exactly the keys name, description and path. */
    function ToDict(): (d: map<string, Value>)
      ensures d.Keys == {"name", "description", "path"}
      ensures d["name"] == name && d["description"] == description
      ensures d["path"] == Str(ToString(skillPath))
    {
      map["name" := name, "description" := description, "path" := Str(ToString(skillPath))]
    }
  }

  /** The `return_type` argument once it is known to be one of the three accepted words. */
  datatype ReturnType = ContentMode | FilePathMode | BothMode

  /** What `get_skill_content` and `get_skill_file` return: a text, a path, or both of them. */
  datatype Payload = Content(content: string) | FilePath(filePath: string) | Both(content: string, filePath: string)

  function ParseReturnType(s: string): (r: Option<ReturnType>)
    ensures r.Some? <==> s in {"content", "file_path", "both"}
    ensures r == Some(ContentMode) <==> s == "content"
    ensures r == Some(FilePathMode) <==> s == "file_path"
  {
    if s == "content" then Some(ContentMode)
    else if s == "file_path" then Some(FilePathMode)
    else if s == "both" then Some(BothMode)
    else None
  }

  /** The header of the manifest at `manifest`, or why it has none. */
  function HeaderOf(env: Environment, manifest: Path): Result<Value, Error> {
    match ReadText(env.fs, manifest)
    case None => Failure(Unreadable(ToString(manifest)))
    case Some(content) => ExtractFrontmatter(content, env.load)
  }

  /**
   * The record a manifest's header yields: the header must be a mapping, `name`
   * is checked before `description`, both values are kept verbatim, and the
   * skill's path is the manifest's directory. A header of another YAML type is
   * refused with a ValueError (see SkillParserAsWritten for the source's TypeError).
   */
  function MetadataFrom(header: Result<Value, Error>, manifest: Path): (r: Result<SkillMetadata, Error>)
    ensures r.Success? <==>
      header.Success? && header.value.Mapping?
      && "name" in header.value.entries && "description" in header.value.entries
    ensures r.Success? ==>
      && r.value.name == header.value.entries["name"]
      && r.value.description == header.value.entries["description"]
      && r.value.skillPath == Parent(manifest)
    ensures header.Failure? ==> r == Failure(header.error)
    ensures header.Success? && !header.value.Mapping? ==> r == Failure(HeaderNotMapping(ToString(manifest)))
    ensures header.Success? && header.value.Mapping? && "name" !in header.value.entries ==>
      r == Failure(MissingField("name", ToString(manifest)))
    ensures header.Success? && header.value.Mapping? && "name" in header.value.entries ==>
      "description" !in header.value.entries ==> r == Failure(MissingField("description", ToString(manifest)))
  {
    match header
    case Failure(e) => Failure(e)
    case Success(Mapping(h)) => FieldsOf(h, manifest)
    case Success(_) => Failure(HeaderNotMapping(ToString(manifest)))
  }

  /** The two required fields of a mapping header, `name` first. */
  function FieldsOf(h: Header, manifest: Path): Result<SkillMetadata, Error> {
    if "name" !in h then Failure(MissingField("name", ToString(manifest)))
    else if "description" !in h then Failure(MissingField("description", ToString(manifest)))
    else Success(SkillMetadata(h["name"], h["description"], Parent(manifest)))
  }

  /** `parse_skill_metadata`: read the manifest, extract its header, check the two fields. */
  function ParseSkillMetadata(env: Environment, manifest: Path): (r: Result<SkillMetadata, Error>)
    ensures r.Success? ==> r.value.skillPath == Parent(manifest)
    ensures ReadText(env.fs, manifest).None? ==> r == Failure(Unreadable(ToString(manifest)))
  {
    MetadataFrom(HeaderOf(env, manifest), manifest)
  }

  /** What parsing each manifest gives, in order. */
  function Outcomes(env: Environment, manifests: seq<Path>): (r: seq<Result<SkillMetadata, Error>>)
    ensures |r| == |manifests|
  {
    seq(|manifests|, i requires 0 <= i < |manifests| => ParseSkillMetadata(env, manifests[i]))
  }

  /** The records of the outcomes that succeeded, in order; a failure is skipped. */
  function Kept(outcomes: seq<Result<SkillMetadata, Error>>): (r: seq<SkillMetadata>)
    ensures |r| <= |outcomes|
    decreases |outcomes|
  {
    if outcomes == [] then []
    else
      var earlier := Kept(outcomes[..|outcomes| - 1]);
      match outcomes[|outcomes| - 1]
      case Success(s) => earlier + [s]
      case Failure(_) => earlier
  }

  /** `skills_directory.rglob("SKILL.md")` */
  function ManifestsUnder(env: Environment, root: Path): seq<Path> {
    Rglob(env.walk, root, Named(ManifestName))
  }

  /** What `find_all_skills` returns. */
  function Skills(env: Environment, root: Path): seq<SkillMetadata> {
    Kept(Outcomes(env, ManifestsUnder(env, root)))
  }

  /** The first record whose name is exactly `name`. */
  function FirstNamed(skills: seq<SkillMetadata>, name: string): (r: Option<nat>)
    ensures r.Some? ==> r.value < |skills| && skills[r.value].name == Str(name)
    ensures r.Some? ==> forall k :: 0 <= k < r.value ==> skills[k].name != Str(name)
    ensures r.None? <==> forall k :: 0 <= k < |skills| ==> skills[k].name != Str(name)
    decreases |skills|
  {
    if skills == [] then None
    else if skills[0].name == Str(name) then Some(0)
    else
      match FirstNamed(skills[1..], name)
      case None => None
      case Some(i) => Some(i + 1)
  }

  /** A record with the name, preceded by none, is the one found. */
  lemma FirstNamedAt(skills: seq<SkillMetadata>, name: string, i: nat)
    requires i < |skills| && skills[i].name == Str(name)
    requires forall k :: 0 <= k < i ==> skills[k].name != Str(name)
    ensures FirstNamed(skills, name) == Some(i)
  {
  }

  /** The skill a lookup by `name` settles on: the first discovered one with that name. */
  function Find(env: Environment, root: Path, name: string): (r: Option<SkillMetadata>)
    ensures r.Some? ==> r.value in Skills(env, root) && r.value.name == Str(name)
    ensures r.Some? ==> var skills := Skills(env, root);
      exists i :: 0 <= i < |skills| && skills[i] == r.value && forall k :: 0 <= k < i ==> skills[k].name != Str(name)
    ensures r.None? <==> forall s :: s in Skills(env, root) ==> s.name != Str(name)
  {
    var skills := Skills(env, root);
    match FirstNamed(skills, name)
    case None => None
    case Some(i) => Some(skills[i])
  }

  /** The value returned for `path` in the given mode; the path shown is the resolved one. */
  function Deliver(fs: Tree, path: Path, mode: ReturnType): (r: Result<Payload, Error>)
    ensures r.Failure? <==> mode != FilePathMode && !IsFile(fs, path)
    ensures r.Failure? ==> r.error == Unreadable(ToString(path))
    ensures mode == FilePathMode ==> r == Success(FilePath(ToString(Resolve(path))))
    ensures mode == ContentMode && IsFile(fs, path) ==> r == Success(Content(fs[Resolve(path)].content))
    ensures mode == BothMode && IsFile(fs, path) ==>
      r == Success(Both(fs[Resolve(path)].content, ToString(Resolve(path))))
  {
    match mode
    case FilePathMode => Success(FilePath(ToString(Resolve(path))))
    case ContentMode =>
      (match ReadText(fs, path)
       case None => Failure(Unreadable(ToString(path)))
       case Some(t) => Success(Content(t)))
    case BothMode =>
      (match ReadText(fs, path)
       case None => Failure(Unreadable(ToString(path)))
       case Some(t) => Success(Both(t, ToString(Resolve(path)))))
  }

  /** What `get_skill_content` returns. */
  function SkillContent(env: Environment, root: Path, name: string, returnType: string): Result<Payload, Error> {
    match ParseReturnType(returnType)
    case None => Failure(InvalidReturnType(returnType))
    case Some(mode) =>
      match Find(env, root, name)
      case None => Failure(SkillNotFound(name))
      case Some(skill) => Deliver(env.fs, skill.skillPath + [ManifestName], mode)
  }

  /** How `list_skill_files` shows one entry rglob("*") reports below `dir`: nothing for a non-file. */
  function Shown(fs: Tree, dir: Path, e: Path, relative: bool): seq<string>
    requires dir <= e
  {
    if !IsFile(fs, e) then []
    else if relative then [JoinNames(e[|dir|..])]
    else [ToString(e)]
  }

  /** How each entry rglob("*") reports below `dir` is shown, in walk order. */
  function ShownEach(fs: Tree, dir: Path, entries: seq<Path>, relative: bool): (r: seq<seq<string>>)
    requires forall i :: 0 <= i < |entries| ==> dir <= entries[i]
    ensures |r| == |entries|
  {
    seq(|entries|, i requires 0 <= i < |entries| => Shown(fs, dir, entries[i], relative))
  }

  /** The groups one after the other. */
  function Flatten(groups: seq<seq<string>>): (r: seq<string>)
    decreases |groups|
  {
    if groups == [] then [] else Flatten(groups[..|groups| - 1]) + groups[|groups| - 1]
  }

  /** The names `list_skill_files` collects, in walk order, for the entries rglob("*") reports. */
  function Listing(fs: Tree, dir: Path, entries: seq<Path>, relative: bool): seq<string>
    requires forall i :: 0 <= i < |entries| ==> dir <= entries[i]
  {
    Flatten(ShownEach(fs, dir, entries, relative))
  }

  /** `skill_path.rglob("*")` */
  function EntriesUnder(env: Environment, dir: Path): (r: seq<Path>)
    ensures forall i :: 0 <= i < |r| ==> dir <= r[i]
  {
    Rglob(env.walk, dir, AnyName)
  }

  /** What `list_skill_files` returns. */
  function SkillFiles(env: Environment, root: Path, name: string, relative: bool): Result<seq<string>, Error> {
    match Find(env, root, name)
    case None => Failure(SkillNotFound(name))
    case Some(skill) =>
      var dir := skill.skillPath;
      Success(SortStrings(Listing(env.fs, dir, EntriesUnder(env, dir), relative)))
  }

  /**
   * The checks of `get_skill_file` on `skill_path / relative_path`: resolve first,
   * then containment, then existence, then file-ness.
   */
  function ResolveInSkill(fs: Tree, skillPath: Path, relativePath: string): (r: Result<Path, Error>)
    ensures r.Success? ==> IsUnder(r.value, Resolve(skillPath)) && r.value in fs && fs[r.value].File?
    ensures r.Success? ==> r.value == Resolve(JoinPath(skillPath, relativePath))
    ensures !IsUnder(Resolve(JoinPath(skillPath, relativePath)), Resolve(skillPath)) ==> r == Failure(InvalidPath)
    ensures var q := Resolve(JoinPath(skillPath, relativePath));
      IsUnder(q, Resolve(skillPath)) && !Exists(fs, q) ==> r == Failure(FileNotFound(relativePath))
    ensures var q := Resolve(JoinPath(skillPath, relativePath));
      IsUnder(q, Resolve(skillPath)) && Exists(fs, q) && !IsFile(fs, q) ==> r == Failure(NotAFile(relativePath))
    ensures var q := Resolve(JoinPath(skillPath, relativePath));
      IsUnder(q, Resolve(skillPath)) && IsFile(fs, q) ==> r == Success(q)
  {
    var filePath := Resolve(JoinPath(skillPath, relativePath));
    ResolveIdempotent(JoinPath(skillPath, relativePath));
    if !IsUnder(filePath, Resolve(skillPath)) then Failure(InvalidPath)
    else if !Exists(fs, filePath) then Failure(FileNotFound(relativePath))
    else if !IsFile(fs, filePath) then Failure(NotAFile(relativePath))
    else Success(filePath)
  }

  /** What `get_skill_file` returns. */
  function SkillFile(env: Environment, root: Path, name: string, relativePath: string, returnType: string): Result<Payload, Error> {
    match ParseReturnType(returnType)
    case None => Failure(InvalidReturnType(returnType))
    case Some(mode) =>
      match Find(env, root, name)
      case None => Failure(SkillNotFound(name))
      case Some(skill) =>
        match ResolveInSkill(env.fs, skill.skillPath, relativePath)
        case Failure(e) => Failure(e)
        case Success(filePath) => Deliver(env.fs, filePath, mode)
  }

  class SkillParser {
    const skillsDirectory: Path

    constructor (skillsDirectory: Path)
      ensures this.skillsDirectory == skillsDirectory
    {
      this.skillsDirectory := skillsDirectory;
    }

    /** `SkillParser(skills_directory)`: fails only when the directory does not exist. */
    static method Open(env: Environment, skillsDirectory: Path) returns (r: Result<SkillParser, Error>)
      ensures r.Success? <==> Exists(env.fs, skillsDirectory)
      ensures r.Success? ==> fresh(r.value) && r.value.skillsDirectory == skillsDirectory
      ensures r.Failure? ==> r.error == DirectoryMissing(ToString(skillsDirectory))
    {
      if !Exists(env.fs, skillsDirectory) {
        return Failure(DirectoryMissing(ToString(skillsDirectory)));
      }
      var parser := new SkillParser(skillsDirectory);
      return Success(parser);
    }

    /** `find_all_skills`: one manifest that fails never stops the scan. */
    method FindAllSkills(env: Environment) returns (skills: seq<SkillMetadata>)
      ensures skills == Skills(env, skillsDirectory)
    {
      var manifests := ManifestsUnder(env, skillsDirectory);
      skills := ParseEach(env, manifests);
    }

    /** The loop of `find_all_skills` over the manifests rglob found. */
    static method ParseEach(env: Environment, manifests: seq<Path>) returns (skills: seq<SkillMetadata>)
      ensures skills == Kept(Outcomes(env, manifests))
    {
      ghost var outcomes := Outcomes(env, manifests);
      skills := [];
      for i := 0 to |manifests|
        invariant skills == Kept(outcomes[..i])
      {
        assert outcomes[..i + 1][..i] == outcomes[..i];
        var parsed := ParseSkillMetadata(env, manifests[i]);
        assert outcomes[..i + 1][i] == parsed;
        if parsed.Success? {
          skills := skills + [parsed.value];
        }
      }
      assert outcomes[..|manifests|] == outcomes;
    }

    /** `get_skill_content` */
    method GetSkillContent(env: Environment, skillName: string, returnType: string := "both")
      returns (r: Result<Payload, Error>)
      ensures r == SkillContent(env, skillsDirectory, skillName, returnType)
    {
      var mode := ParseReturnType(returnType);
      if mode.None? {
        return Failure(InvalidReturnType(returnType));
      }
      var skills := FindAllSkills(env);
      for i := 0 to |skills|
        invariant forall k :: 0 <= k < i ==> skills[k].name != Str(skillName)
      {
        if skills[i].name == Str(skillName) {
          FirstNamedAt(skills, skillName, i);
          assert Find(env, skillsDirectory, skillName) == Some(skills[i]);
          var manifest := skills[i].skillPath + [ManifestName];
          return Deliver(env.fs, manifest, mode.value);
        }
      }
      assert Find(env, skillsDirectory, skillName).None?;
      return Failure(SkillNotFound(skillName));
    }

    /** `list_skill_files` */
    method ListSkillFiles(env: Environment, skillName: string, relative: bool := true)
      returns (r: Result<seq<string>, Error>)
      ensures r == SkillFiles(env, skillsDirectory, skillName, relative)
    {
      var skills := FindAllSkills(env);
      for i := 0 to |skills|
        invariant forall k :: 0 <= k < i ==> skills[k].name != Str(skillName)
      {
        if skills[i].name == Str(skillName) {
          FirstNamedAt(skills, skillName, i);
          var dir := skills[i].skillPath;
          var entries := EntriesUnder(env, dir);
          var files := CollectFiles(env.fs, dir, entries, relative);
          return Success(SortStrings(files));
        }
      }
      assert Find(env, skillsDirectory, skillName).None?;
      return Failure(SkillNotFound(skillName));
    }

    /** The loop of `list_skill_files` over the entries rglob("*") found below `dir`. */
    static method CollectFiles(fs: Tree, dir: Path, entries: seq<Path>, relative: bool) returns (files: seq<string>)
      requires forall i :: 0 <= i < |entries| ==> dir <= entries[i]
      ensures files == Listing(fs, dir, entries, relative)
    {
      ghost var groups := ShownEach(fs, dir, entries, relative);
      files := [];
      for j := 0 to |entries|
        invariant files == Flatten(groups[..j])
      {
        assert groups[..j + 1][..j] == groups[..j];
        assert groups[..j + 1][j] == Shown(fs, dir, entries[j], relative);
        var filePath := entries[j];
        if IsFile(fs, filePath) {
          if relative {
            files := files + [JoinNames(filePath[|dir|..])];
          } else {
            files := files + [ToString(filePath)];
          }
        }
      }
      assert groups[..|entries|] == groups;
    }

    /** The checks of `get_skill_file` on the skill it found, in order, then the file in the requested mode. */
    static method ServeInSkill(fs: Tree, skillPath: Path, relativePath: string, mode: ReturnType)
      returns (r: Result<Payload, Error>)
      ensures ResolveInSkill(fs, skillPath, relativePath).Failure? ==>
        r == Failure(ResolveInSkill(fs, skillPath, relativePath).error)
      ensures ResolveInSkill(fs, skillPath, relativePath).Success? ==>
        r == Deliver(fs, ResolveInSkill(fs, skillPath, relativePath).value, mode)
    {
      ghost var checked := ResolveInSkill(fs, skillPath, relativePath);
      var filePath := Resolve(JoinPath(skillPath, relativePath));
      if !IsUnder(filePath, Resolve(skillPath)) {
        assert checked == Failure(InvalidPath);
        return Failure(InvalidPath);
      }
      if !Exists(fs, filePath) {
        assert checked == Failure(FileNotFound(relativePath));
        return Failure(FileNotFound(relativePath));
      }
      if !IsFile(fs, filePath) {
        assert checked == Failure(NotAFile(relativePath));
        return Failure(NotAFile(relativePath));
      }
      assert checked == Success(filePath);
      return Deliver(fs, filePath, mode);
    }

    /** `get_skill_file` */
    method GetSkillFile(env: Environment, skillName: string, relativePath: string, returnType: string := "both")
      returns (r: Result<Payload, Error>)
      ensures r == SkillFile(env, skillsDirectory, skillName, relativePath, returnType)
    {
      var mode := ParseReturnType(returnType);
      if mode.None? {
        return Failure(InvalidReturnType(returnType));
      }
      var skills := FindAllSkills(env);
      for i := 0 to |skills|
        invariant forall k :: 0 <= k < i ==> skills[k].name != Str(skillName)
      {
        if skills[i].name == Str(skillName) {
          FirstNamedAt(skills, skillName, i);
          assert Find(env, skillsDirectory, skillName) == Some(skills[i]);
          r := ServeInSkill(env.fs, skills[i].skillPath, relativePath, mode.value);
          return;
        }
      }
      assert Find(env, skillsDirectory, skillName).None?;
      return Failure(SkillNotFound(skillName));
    }
  }
}
