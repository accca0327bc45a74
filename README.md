# skill-to-mcp: the skill registry

This project models the skill registry of skill-to-mcp (`src/skill_to_mcp/skill_parser.py`).
A skill is a directory that holds a `SKILL.md` manifest. The manifest starts with a YAML
header between `---` lines, and that header names the skill and describes it. The registry:

- discovers every manifest below a skills directory with `rglob("SKILL.md")`. A manifest
  that cannot be read or parsed is skipped, and the scan goes on;
- looks a skill up by its exact name. Each lookup runs discovery again, and the first
  match in walk order wins;
- returns a skill's manifest as content, as a resolved path, or as both;
- lists a skill's regular files in sorted order, relative to the skill's directory or
  absolute;
- returns one file of a skill. The path is resolved first, and a path that leaves the
  skill's directory is refused before anything is read.

Modules, one per file:

- `Wrappers` (wrappers.dfy): `Option` and `Result`.
- `Errors` (errors.dfy): each failure the registry raises, its exception class and its
  message.
- `Paths` (paths.dfy): pathlib on POSIX.
  - A path is its sequence of names.
  - `/` parses the string argument. An absolute argument replaces the base.
  - `resolve()` is canonicalisation: `.` and empty names are dropped, and `..` goes up,
    never above the root.
  - `is_relative_to` is the prefix relation.
  - `str()` joins the names with `/`.
- `Frontmatter` (frontmatter.dfy): the header pattern `^---\s*\n(.*?)\n---\s*\n` with
  DOTALL, matched as Python's backtracking engine does.
  - The greedy opening `\s*` tries the last newline of the leading whitespace first.
  - The lazy group stops at the first closing line.
  - The YAML loader is a parameter.
- `FileSystem` (file_system.dfy): the filesystem as a map from resolved paths to files
  (with their text) and directories. The walk sequence fixes the order in which `rglob`
  visits entries.
- `StringOrder` (string_order.dfy): Python's `<=` on `str` and `sorted`.
- `SkillParser` (skill_parser.dfy):
  - one specification function per operation;
  - `class SkillParser`, whose methods keep the source's loops (the scan of
    `find_all_skills`, the linear searches with early return, the collection loop of
    `list_skill_files`);
  - each method proved equal to its specification function.
- `SkillParserProperties` (skill_parser_properties.dfy): what holds across operations.
  - Discovery keeps exactly the manifests that parse, in walk order.
  - A found skill's manifest names it.
  - A listing is sorted and is a permutation of what the walk collected.
  - Every listed file can be fetched.
  - A path that leaves the skill is refused whatever exists.
- `SkillParserAsWritten` (as_written.dfy): `parse_skill_metadata` and the discovery loop
  exactly as written, for a YAML header that is not a mapping (see "## Findings").

Every operation takes an `Environment`. It holds the filesystem, the walk order, and
`yaml.safe_load` as a function from text to a value, or to nothing for a YAML error.
The state of the parser object is only its `skillsDirectory`, set once by the constructor.

Two points where the model follows the code closely:

- The constructor only checks that the skills directory exists, not that it is a
  directory.
- The closing `---` must be followed by optional whitespace and a newline.

## Model

| member | source | states |
|---|---|---|
| SkillParser.SkillMetadata.ToDict | src/skill_to_mcp/skill_parser.py:37-41 | the dictionary has exactly the keys name, description and path; name and description are the record's values, path is str() of the skill path |
| SkillParser.SkillParser.constructor | src/skill_to_mcp/skill_parser.py:55 | the parser keeps the directory it was given |
| SkillParser.SkillParser.Open | src/skill_to_mcp/skill_parser.py:47-57 | construction succeeds exactly when the path exists, and otherwise fails with "Skills directory does not exist: <dir>"; existence is tested on the lexically resolved path (see Left out) |
| SkillParser.MetadataFrom | src/skill_to_mcp/skill_parser.py:96-109 | a record results exactly when the header is a mapping holding both name and description; `name` is checked before `description`; values are kept verbatim, and the skill path is the manifest's parent; a read or extraction error passes through; a header that is not a mapping is a ValueError (corrected, see Findings) |
| SkillParser.SkillParser.FindAllSkills | src/skill_to_mcp/skill_parser.py:59-76 | returns the records of the manifests rglob("SKILL.md") finds that parse, in walk order |
| SkillParser.SkillParser.ParseEach | src/skill_to_mcp/skill_parser.py:67-76 | the try/continue loop appends exactly the successful outcomes, in order (loop invariant over the prefix) |
| SkillParser.ParseSkillMetadata | src/skill_to_mcp/skill_parser.py:78-109 | an unreadable manifest is the read error for its path; a parsed record's skill path is the manifest's parent; the header checks are those of MetadataFrom |
| SkillParser.FirstNamed | src/skill_to_mcp/skill_parser.py:170-171 | the index of the first record whose name equals the requested one; None exactly when no record has that name |
| SkillParser.Find | src/skill_to_mcp/skill_parser.py:169-184 | a found skill is a discovered one with exactly that name, and no discovered skill before it has that name; nothing is found exactly when no discovered skill has the name |
| SkillParser.ParseReturnType | src/skill_to_mcp/skill_parser.py:166-167 | a return type is accepted exactly when it is content, file_path or both, each mapped to its own mode |
| SkillParser.Deliver | src/skill_to_mcp/skill_parser.py:174-182 | file_path mode returns str() of the resolved path and never fails; content mode returns the file's text and both returns the text with the resolved path; content and both fail exactly when the path is not a readable file, with the read error for that path |
| SkillParser.SkillParser.GetSkillContent | src/skill_to_mcp/skill_parser.py:142-184 | the linear search with early return gives the specified result: invalid return type first, then not found, then the first match's manifest in the requested mode, whose values SkillContentValues states |
| SkillParser.EntriesUnder | src/skill_to_mcp/skill_parser.py:210 | every entry rglob("*") reports is below the skill directory |
| SkillParser.SkillParser.ListSkillFiles | src/skill_to_mcp/skill_parser.py:186-219 | gives the sorted listing of the first skill with the name, or "not found" |
| SkillParser.SkillParser.CollectFiles | src/skill_to_mcp/skill_parser.py:209-216 | the nested loop collects, in walk order, each regular file entry, relative to the skill directory or absolute (loop invariant over the prefix) |
| SkillParser.ResolveInSkill | src/skill_to_mcp/skill_parser.py:254-262 | the resolved `skill_path / relative_path` outside the resolved skill path is "Invalid path" whatever exists; inside it, a missing path is "File not found", an existing non-file is "Path is not a file", and a file is accepted as that resolved path |
| SkillParser.SkillParser.ServeInSkill | src/skill_to_mcp/skill_parser.py:253-272 | the containment, existence and file-ness checks, done step by step, refuse exactly as ResolveInSkill does, and otherwise serve the resolved file in the requested mode |
| SkillParser.SkillParser.GetSkillFile | src/skill_to_mcp/skill_parser.py:221-274 | the search and the checks give the specified result, in the source's order: return type, skill, containment, existence, file-ness, then the file in the requested mode, whose values SkillFileValues states |
| Paths.Parent | src/skill_to_mcp/skill_parser.py:108 | the parent followed by the last name is the path; the root is its own parent |
| Paths.Resolve | src/skill_to_mcp/skill_parser.py:254 | a resolved path holds no ".", ".." or empty name, and is never longer than the path |
| Paths.ResolveIdempotent | src/skill_to_mcp/skill_parser.py:254-255 | resolving a resolved path changes nothing |
| Paths.ResolveAppendPlain | src/skill_to_mcp/skill_parser.py:254 | appending plain names commutes with resolution |
| Paths.ToString | src/skill_to_mcp/skill_parser.py:40 | str() of an absolute path starts with the separator |
| Paths.Split | src/skill_to_mcp/skill_parser.py:254 | the pieces of a string argument hold no separator and join back into the string |
| Paths.DropEmpty | src/skill_to_mcp/skill_parser.py:254 | the names left are neither empty nor "." and come from the argument; an argument without such names is kept unchanged |
| Paths.JoinPath | src/skill_to_mcp/skill_parser.py:254 | `skill_path / relative_path`: an absolute argument replaces the base; a relative one extends the base by its parsed names |
| Paths.IsUnderExtends | src/skill_to_mcp/skill_parser.py:255 | `is_relative_to` holds exactly when the path is the directory followed by more names |
| Paths.ParsePath | src/skill_to_mcp/skill_parser.py:254 | an argument is absolute exactly when it starts with the separator; its names are neither empty nor "." |
| Paths.SplitJoinNames | src/skill_to_mcp/skill_parser.py:213-214 | splitting names joined by the separator gives the names back |
| Paths.ParseJoinedNames | src/skill_to_mcp/skill_parser.py:213-214 | a relative path printed from entry names parses back to the same relative names |
| Paths.JoinRelativeNames | src/skill_to_mcp/skill_parser.py:254 | a directory joined with a printed relative path is the directory extended by its names |
| Paths.UpwardStepsLeave | src/skill_to_mcp/skill_parser.py:254-256 | one or more ".." below a non-root directory end strictly above it |
| Frontmatter.SpaceRunEnd | src/skill_to_mcp/skill_parser.py:130 | the end of the whitespace run the opening `\s*` can consume |
| Frontmatter.FirstClose | src/skill_to_mcp/skill_parser.py:130 | the lazy group ends at the first closing `\n---\s*\n`, and none comes before it |
| Frontmatter.LastOpening | src/skill_to_mcp/skill_parser.py:130-131 | backtracking the greedy opening finds the match with the latest opening newline, and the earliest closing for it |
| Frontmatter.FindFrontmatter | src/skill_to_mcp/skill_parser.py:130-134 | the span found is the match Python reports; none is found exactly when the pattern cannot match |
| Frontmatter.FrontmatterText | src/skill_to_mcp/skill_parser.py:136 | group 1 of the reported match, or nothing exactly when the pattern cannot match |
| Frontmatter.ExtractFrontmatter | src/skill_to_mcp/skill_parser.py:129-140 | "No valid YAML frontmatter found" exactly when the pattern cannot match; otherwise the loaded value of the reported group, or "Invalid YAML" when loading fails |
| Frontmatter.ComposedHeaderRoundTrip | src/skill_to_mcp/skill_parser.py:130-136 | a header written between delimiter lines is extracted back unchanged |
| FileSystem.ReadText | src/skill_to_mcp/skill_parser.py:96 | read_text succeeds exactly on a regular file (every regular file is readable here) |
| FileSystem.Exists | src/skill_to_mcp/skill_parser.py:258 | a canonical path exists exactly when the filesystem holds it |
| FileSystem.IsFile | src/skill_to_mcp/skill_parser.py:261 | a path that is a file exists |
| FileSystem.Rglob | src/skill_to_mcp/skill_parser.py:68 | every path reported lies strictly below the directory, has a name the pattern accepts, and comes from a walked entry |
| FileSystem.RglobFinds | src/skill_to_mcp/skill_parser.py:210 | every walked entry below the directory with an accepted name is reported |
| FileSystem.RglobReported | src/skill_to_mcp/skill_parser.py:210-213 | a reported path is the directory extended by entry names, and resolves to the walked entry |
| StringOrder.LessEq | src/skill_to_mcp/skill_parser.py:217 | str `<=` as sorted() compares: a prefix sorts first |
| StringOrder.LessEqTotal | src/skill_to_mcp/skill_parser.py:217 | any two strings are ordered one way or the other |
| StringOrder.LessEqTransitive | src/skill_to_mcp/skill_parser.py:217 | the order is transitive |
| StringOrder.LessEqAntisymmetric | src/skill_to_mcp/skill_parser.py:217 | strings ordered both ways are equal |
| StringOrder.Insert | src/skill_to_mcp/skill_parser.py:217 | inserting into a sorted list keeps it sorted and adds exactly that string |
| StringOrder.SortStrings | src/skill_to_mcp/skill_parser.py:217 | sorted() is sorted and a permutation of its input |
| StringOrder.SortedUnique | src/skill_to_mcp/skill_parser.py:217 | two sorted lists with the same strings are equal |
| SkillParserProperties.KeptAppend | src/skill_to_mcp/skill_parser.py:67-76 | the scan of two runs of manifests keeps those of each in turn |
| SkillParserProperties.KeptMembership | src/skill_to_mcp/skill_parser.py:70-75 | a record is kept exactly when it is one of the successful outcomes |
| SkillParserProperties.DiscoverMembership | src/skill_to_mcp/skill_parser.py:67-76 | a record is discovered exactly when some manifest parses to it |
| SkillParserProperties.DiscoverySkipsFailure | src/skill_to_mcp/skill_parser.py:72-75 | a manifest that fails changes nothing: the result is the one without it |
| SkillParserProperties.DiscoveredSkillReparses | src/skill_to_mcp/skill_parser.py:68-71 | every discovered skill's SKILL.md was among the manifests found, and parses again to the same record |
| SkillParserProperties.ManifestsAreNamed | src/skill_to_mcp/skill_parser.py:68 | rglob("SKILL.md") reports only paths named SKILL.md |
| SkillParserProperties.ParsedSkillPath | src/skill_to_mcp/skill_parser.py:108 | a parsed manifest's skill path joined with SKILL.md is the manifest |
| SkillParserProperties.ComposedManifestParses | src/skill_to_mcp/skill_parser.py:96-109 | a manifest whose header is a mapping with both keys yields exactly that header's record |
| SkillParserProperties.ReturnTypeCheckedFirst | src/skill_to_mcp/skill_parser.py:166-167 | an invalid return type is refused by both operations whatever the filesystem holds |
| SkillParserProperties.SkillNotFoundExactly | src/skill_to_mcp/skill_parser.py:169-184 | with a valid return type, "Skill '<name>' not found" comes exactly when no discovered skill has that exact name |
| SkillParserProperties.ManifestOfFoundReadable | src/skill_to_mcp/skill_parser.py:172-175 | the manifest of a found skill can be read |
| SkillParserProperties.ContentNamesTheSkill | src/skill_to_mcp/skill_parser.py:171-175 | the content returned is a manifest whose header names the requested skill |
| SkillParserProperties.SkillContentValues | src/skill_to_mcp/skill_parser.py:172-182 | for a found skill: content mode returns its SKILL.md text, file_path mode str() of the resolved SKILL.md path, both the pair |
| SkillParserProperties.DeliverBothCombines | src/skill_to_mcp/skill_parser.py:174-182 | for a readable file, both returns the pair of what content and file_path return |
| SkillParserProperties.ContentBothCombines | src/skill_to_mcp/skill_parser.py:174-182 | get_skill_content in both mode succeeds with a pair exactly when content and file_path modes give its two halves |
| SkillParserProperties.FlattenMembership | src/skill_to_mcp/skill_parser.py:209-216 | a name is collected exactly when one entry contributes it |
| SkillParserProperties.ListingMembership | src/skill_to_mcp/skill_parser.py:210-216 | a name is listed exactly when a regular file entry below the directory is shown as it |
| SkillParserProperties.ListingSortedPermutation | src/skill_to_mcp/skill_parser.py:206-217 | a listing belongs to a found skill, is sorted, and holds each collected name as often as it was collected |
| SkillParserProperties.ListingIgnoresWalkOrder | src/skill_to_mcp/skill_parser.py:217 | the order in which the walk meets the files does not change the sorted listing |
| SkillParserProperties.WalkEntries | src/skill_to_mcp/skill_parser.py:210 | in a well-formed world every walked entry is made of entry names |
| SkillParserProperties.ManifestWalked | src/skill_to_mcp/skill_parser.py:68 | a manifest found by rglob is SKILL.md below its resolved directory in the walk |
| SkillParserProperties.ChildFound | src/skill_to_mcp/skill_parser.py:210 | rglob("*") reports the entry one name below the directory |
| SkillParserProperties.ChildListed | src/skill_to_mcp/skill_parser.py:211-214 | a file one name below the directory is listed under that name |
| SkillParserProperties.ParsedManifestIsFile | src/skill_to_mcp/skill_parser.py:96 | a manifest that parses is a regular file |
| SkillParserProperties.ManifestListed | src/skill_to_mcp/skill_parser.py:206-217 | the relative listing of a skill includes SKILL.md itself |
| SkillParserProperties.ManifestListedBelow | src/skill_to_mcp/skill_parser.py:209-216 | the relative listing of any discovered skill's directory shows its manifest |
| SkillParserProperties.EntryResolvesInside | src/skill_to_mcp/skill_parser.py:213-214 | the relative name of a listed file resolves, inside the skill, to that file |
| SkillParserProperties.FileInsideAccepted | src/skill_to_mcp/skill_parser.py:254-262 | a relative path naming a file inside the skill passes all three checks |
| SkillParserProperties.ListedNameResolves | src/skill_to_mcp/skill_parser.py:213-214 | every relatively listed name passes the checks of get_skill_file |
| SkillParserProperties.ResolvedFileServed | src/skill_to_mcp/skill_parser.py:258-265 | a path that passes the checks is served in content mode |
| SkillParserProperties.SkillFileValues | src/skill_to_mcp/skill_parser.py:264-272 | for a path that passes the checks: content mode returns that file's text, file_path mode str() of the resolved path, both the pair |
| SkillParserProperties.SkillFileRefusal | src/skill_to_mcp/skill_parser.py:254-262 | a refusal of the path checks is what get_skill_file raises in every valid mode |
| SkillParserProperties.ChildPath | src/skill_to_mcp/skill_parser.py:254-255 | one entry name asked for inside a skill resolves to that name below the resolved directory, which lies under it |
| SkillParserProperties.MissingChildNotFound | src/skill_to_mcp/skill_parser.py:258-259 | a name inside the skill that does not exist is "File not found: <name>" |
| SkillParserProperties.SubdirectoryNotAFile | src/skill_to_mcp/skill_parser.py:261-262 | a subdirectory of the skill is "Path is not a file: <name>" |
| SkillParserProperties.ListedFileFetches | src/skill_to_mcp/skill_parser.py:206-265 | every name of a relative listing can be fetched back by get_skill_file |
| SkillParserProperties.EscapeRefusedWhateverExists | src/skill_to_mcp/skill_parser.py:254-256 | a path resolving outside the skill is "Invalid path" on every filesystem |
| SkillParserProperties.SiblingTraversalRefused | src/skill_to_mcp/skill_parser.py:254-256 | "../<other directory>" is refused |
| SkillParserProperties.SiblingResolvesBeside | src/skill_to_mcp/skill_parser.py:254 | "..", then a name, resolves beside the directory |
| SkillParserProperties.UpwardOnlyRefused | src/skill_to_mcp/skill_parser.py:254-256 | a relative path of ".." names only is refused |
| SkillParserProperties.ParseClimbingNames | src/skill_to_mcp/skill_parser.py:254 | a relative path starting with ".." keeps all its names when parsed |
| SkillParserProperties.FileBothCombines | src/skill_to_mcp/skill_parser.py:264-272 | get_skill_file in both mode succeeds with a pair exactly when content and file_path modes give its two halves |
| SkillParserAsWritten.MetadataAsWritten | src/skill_to_mcp/skill_parser.py:100-107 | as written, a mapping header is checked as the corrected parse does, and a null, number or boolean header raises TypeError |
| SkillParserAsWritten.ScanAsWritten | src/skill_to_mcp/skill_parser.py:67-76 | the loop as written fails only with a TypeError, and that TypeError is the outcome of one of the manifests |
| SkillParserAsWritten.ScanAgreesWithoutTypeError | src/skill_to_mcp/skill_parser.py:67-76 | without a TypeError, the loop as written keeps exactly the successful outcomes |
| SkillParserAsWritten.TypeErrorStopsScan | src/skill_to_mcp/skill_parser.py:68-75 | a TypeError from any manifest ends the loop as written with no result |
| SkillParserAsWritten.ParsesAgreeOnSuccess | src/skill_to_mcp/skill_parser.py:96-109 | the as-written and corrected parses accept the same manifests with the same records |
| SkillParserAsWritten.CorrectedScanNeverStops | src/skill_to_mcp/skill_parser.py:67-76 | with the corrected parse, the loop as written never stops early |
| SkillParserAsWritten.NumericHeaderRaisesTypeError | src/skill_to_mcp/skill_parser.py:97-100 | a manifest whose header is `42` raises TypeError as written, and "Frontmatter is not a mapping" when corrected |
| SkillParserAsWritten.OneBadManifestHidesAll | src/skill_to_mcp/skill_parser.py:67-76 | one manifest with header `42` next to a good one: as written discovery fails, corrected it returns the good skill |

## Left out

- Symbolic links: `resolve()` is lexical canonicalisation, so a link that points out of a
  skill directory is not modelled.
- A relative skills directory and the current working directory: every path in the model
  is absolute.
- FileSystem.ReadText: every regular file is readable, so permission and I/O errors on a regular file (an OSError from read_text at src/skill_to_mcp/skill_parser.py:96, :175 and :265) are not modelled; SkillParserProperties.ListedFileFetches and the content mode of SkillParserProperties.SkillFileValues rely on this.
- UTF-8 decoding: files hold text. A `UnicodeDecodeError` (a ValueError) is not modelled.
- The concrete order of `rglob`: it is the walk sequence, an input.
- The internals of `yaml.safe_load`: it is a function parameter. Floats, dates and other
  YAML types outside `Value` are not represented.
- The texts of YAML errors and OS errors, which the source folds into its messages:
  `Errors.Error.Message` gives fixed texts for them.
- The `print` logging in `find_all_skills`.
- POSIX's leading `//` (pathlib keeps it as a distinct root): treated as `/`.
- `src/skill_to_mcp/main.py`, `src/skill_to_mcp/mcp.py`, `src/skill_to_mcp/__init__.py`
  and `src/skill_to_mcp/tools/_skills.py` are not part of this model. They are process
  start-up, server construction and tool adapters that forward to `SkillParser`.
- Concurrent changes to the filesystem during a call: the `Environment` is read-only for
  the whole of an operation.
- SkillParser.SkillParser.Open: `exists()` is asked of the lexically resolved path, so a path whose `..` passes
  through a missing or non-directory name (`/missing/../skills`) counts as existing when `/skills` exists,
  where the operating system says it does not.
- SkillParser.SkillParser.Open: takes the skills directory as an absolute path already in pathlib's normal
  form; the parsing of the constructor's string argument by `Path()` (empty and "." names dropped) is not
  modelled for it.
- SkillParser.MetadataFrom: a str or list header that lacks `name` or `description` is
  refused with "Frontmatter is not a mapping". The source raises "Missing ... field" there.
  Both are ValueErrors and both are skipped by discovery.

## Findings

| source | as written | input that shows it | evidently intended | confidence | as-written member | corrected member |
|---|---|---|---|---|---|---|
| src/skill_to_mcp/skill_parser.py:100-107 | `"name" not in frontmatter` and `frontmatter["name"]` take for granted that the header is a mapping. For a null, number or boolean header, or a str or list that contains both keys, they raise TypeError. `find_all_skills` (lines 68-75) catches only ValueError and OSError, so one such manifest aborts discovery and every operation that runs it. | one SKILL.md whose text is `---\n42\n---\n` (or `---\n\n---\n`) next to a valid skill: no skill can be found (SkillParserAsWritten.OneBadManifestHidesAll) | a header that is not a mapping is invalid frontmatter. It raises a ValueError, as the docstring at lines 91-94 says, and discovery skips it, as the comment at line 73 says | not executed | SkillParserAsWritten.MetadataAsWritten | SkillParser.MetadataFrom |
