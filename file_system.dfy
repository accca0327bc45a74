/**
 * The part of the filesystem the skill parser sees: each resolved path maps to
 * a regular file with its text or to a directory, and one walk order fixes the
 * order in which rglob visits entries.
 */
module FileSystem {
  import opened Wrappers
  import opened Paths

  datatype Node = File(content: string) | Directory

  /** The entries, keyed by resolved path. */
  type Tree = map<Path, Node>

  /** A pattern of rglob: "*" or one literal, case-sensitive name. */
  datatype Pattern = AnyName | Named(name: string) {
    predicate Accepts(n: string) {
      AnyName? || n == name
    }
  }

  /**
   * A well-formed world: every key is made of entry names, and the walk visits
   * every entry exactly once.
   */
  ghost predicate Valid(fs: Tree, walk: seq<Path>) {
    && (forall p :: p in fs ==> IsEntryPath(p))
    && (forall p :: p in fs <==> p in walk)
    && (forall i, j :: 0 <= i < j < |walk| ==> walk[i] != walk[j])
  }

  /** `Path.exists()` */
  predicate Exists(fs: Tree, p: Path)
    ensures IsPlain(p) ==> (Exists(fs, p) <==> p in fs)
  {
    if IsPlain(p) then ResolvePlain(p); Resolve(p) in fs else Resolve(p) in fs
  }

  /** `Path.is_file()` */
  predicate IsFile(fs: Tree, p: Path)
    ensures IsFile(fs, p) ==> Exists(fs, p)
  {
    Resolve(p) in fs && fs[Resolve(p)].File?
  }

  /** `Path.read_text()`: None is the OSError of a missing path or a directory. */
  function ReadText(fs: Tree, p: Path): (r: Option<string>)
    ensures r.Some? <==> IsFile(fs, p)
  {
    var q := Resolve(p);
    if q in fs && fs[q].File? then Some(fs[q].content) else None
  }

  /** The walked entry `e` lies strictly below the resolved directory `base`. */
  predicate Below(e: Path, base: Path) {
    |base| < |e| && base <= e
  }

  /**
   * `dir.rglob(pattern)`: every walked entry strictly below `dir` whose name the
   * pattern accepts, in walk order, written as `dir` joined with the rest of it.
   */
  function Rglob(walk: seq<Path>, dir: Path, pattern: Pattern): (r: seq<Path>)
    ensures |r| <= |walk|
    ensures forall i :: 0 <= i < |r| ==> |dir| < |r[i]| && r[i][..|dir|] == dir
    ensures forall i :: 0 <= i < |r| ==> pattern.Accepts(r[i][|r[i]| - 1])
    ensures forall i :: 0 <= i < |r| ==> Resolve(dir) + r[i][|dir|..] in walk
    decreases |walk|
  {
    if walk == [] then []
    else
      var e := walk[0];
      var base := Resolve(dir);
      var rest := Rglob(walk[1..], dir, pattern);
      if Below(e, base) && pattern.Accepts(e[|e| - 1]) then
        var found := dir + e[|base|..];
        assert found[|dir|..] == e[|base|..];
        assert base + e[|base|..] == e;
        [found] + rest
      else
        rest
  }

  /** rglob misses no entry below the directory that the pattern accepts. */
  lemma {:induction false} RglobFinds(walk: seq<Path>, dir: Path, pattern: Pattern, e: Path)
    requires e in walk && Below(e, Resolve(dir)) && pattern.Accepts(e[|e| - 1])
    ensures dir + e[|Resolve(dir)|..] in Rglob(walk, dir, pattern)
    decreases |walk|
  {
    if walk[0] != e {
      RglobFinds(walk[1..], dir, pattern, e);
    }
  }

  /** The names after a prefix of an entry path are entry names too. */
  lemma EntryPathSuffix(base: Path, rest: Path)
    requires IsEntryPath(base + rest)
    ensures IsEntryPath(rest)
  {
    forall k | 0 <= k < |rest| ensures IsEntryName(rest[k]) {
      assert rest[k] == (base + rest)[|base| + k];
    }
  }

  /** A path rglob reports is `dir` extended by entry names, and resolves to the walked entry it came from. */
  lemma RglobReported(walk: seq<Path>, dir: Path, pattern: Pattern, q: Path)
    requires forall p :: p in walk ==> IsEntryPath(p)
    requires q in Rglob(walk, dir, pattern)
    ensures |dir| < |q| && q == dir + q[|dir|..] && IsEntryPath(q[|dir|..])
    ensures Resolve(q) == Resolve(dir) + q[|dir|..] && Resolve(q) in walk
  {
    var rest := ReportedRest(walk, dir, pattern, q);
    EntryPathSuffix(Resolve(dir), rest);
    EntryPathIsPlain(rest);
    ResolveAppendPlain(dir, rest);
  }

  /** What rglob reports is `dir` followed by the rest of a walked entry below `Resolve(dir)`. */
  lemma ReportedRest(walk: seq<Path>, dir: Path, pattern: Pattern, q: Path) returns (rest: Path)
    requires q in Rglob(walk, dir, pattern)
    ensures rest == q[|dir|..] && |dir| < |q| && q == dir + rest && Resolve(dir) + rest in walk
  {
    var r := Rglob(walk, dir, pattern);
    var i :| 0 <= i < |r| && r[i] == q;
    rest := q[|dir|..];
    assert q == dir + rest;
  }

  lemma EntryPathIsPlain(p: Path)
    requires IsEntryPath(p)
    ensures IsPlain(p)
  {
  }
}
