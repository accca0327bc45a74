/**
 * Paths as pathlib keeps them on POSIX: the sequence of names between the
 * separators. Every path of this model is absolute, and [] is the root "/".
 * resolve() is modelled lexically (no symbolic links): "." and "" are no-ops
 * and ".." goes one level up, never above the root.
 */
module Paths {

  type Path = seq<string>

  const Separator: char := '/'

  /** A name that resolution keeps as it is. */
  predicate IsPlainName(s: string) {
    s != "" && s != "." && s != ".."
  }

  /** A name as a directory entry carries it: plain and without a separator. */
  predicate IsEntryName(s: string) {
    IsPlainName(s) && Separator !in s
  }

  predicate IsPlain(p: Path) {
    forall i :: 0 <= i < |p| ==> IsPlainName(p[i])
  }

  /** A path the filesystem can hold as a key: every name is an entry name. */
  predicate IsEntryPath(p: Path) {
    forall i :: 0 <= i < |p| ==> IsEntryName(p[i])
  }

  /** `Path.parent`: the root is its own parent. */
  function Parent(p: Path): (r: Path)
    ensures p != [] ==> r + [p[|p| - 1]] == p
    ensures p == [] ==> r == []
  {
    if p == [] then [] else p[..|p| - 1]
  }

  /** One name of resolve(), applied to the already resolved prefix. */
  function Step(dir: Path, name: string): Path {
    if name == "" || name == "." then dir
    else if name == ".." then Parent(dir)
    else dir + [name]
  }

  /** `Path.resolve()` without symbolic links: the canonical form of `p`. */
  function Resolve(p: Path): (r: Path)
    ensures IsPlain(r)
    ensures |r| <= |p|
    decreases |p|
  {
    if p == [] then [] else Step(Resolve(p[..|p| - 1]), p[|p| - 1])
  }

  /** `is_relative_to`: `dir` is `p` itself or one of its ancestors. */
  predicate IsUnder(p: Path, dir: Path) {
    dir <= p
  }

  /** `p.is_relative_to(dir)` holds exactly when `p` is `dir` followed by more names. */
  lemma IsUnderExtends(p: Path, dir: Path)
    ensures IsUnder(p, dir) <==> exists rest: Path :: p == dir + rest
  {
    if IsUnder(p, dir) {
      assert p == dir + p[|dir|..];
    }
  }

  /** The names joined by the separator, as str() shows a relative path. */
  function JoinNames(names: seq<string>): string
    decreases |names|
  {
    if names == [] then ""
    else if |names| == 1 then names[0]
    else names[0] + [Separator] + JoinNames(names[1..])
  }

  /** str() of an absolute path. */
  function ToString(p: Path): (s: string)
    ensures |s| > 0 && s[0] == Separator
  {
    [Separator] + JoinNames(p)
  }

  /** `str.split("/")`: the pieces between separators, which the separators join back into `s`. */
  function Split(s: string): (r: seq<string>)
    ensures |r| >= 1
    ensures forall i :: 0 <= i < |r| ==> Separator !in r[i]
    ensures JoinNames(r) == s
    decreases |s|
  {
    if s == [] then [""]
    else
      var rest := Split(s[1..]);
      if s[0] == Separator then
        assert [s[0]] + s[1..] == s;
        [""] + rest
      else
        var r := [[s[0]] + rest[0]] + rest[1..];
        assert r[1..] == rest[1..];
        assert [s[0]] + s[1..] == s;
        assert |rest| > 1 ==> JoinNames(rest) == rest[0] + [Separator] + JoinNames(rest[1..]);
        r
  }

  /** A string argument as pathlib reads it. */
  datatype PathArg = PathArg(absolute: bool, names: seq<string>)

  /** pathlib drops empty names (from "//" or a trailing "/") and "." names. */
  function DropEmpty(names: seq<string>): (r: seq<string>)
    ensures forall i :: 0 <= i < |r| ==> r[i] != "" && r[i] != "." && r[i] in names
    ensures (forall i :: 0 <= i < |names| ==> names[i] != "" && names[i] != ".") ==> r == names
    decreases |names|
  {
    if names == [] then []
    else if names[0] == "" || names[0] == "." then DropEmpty(names[1..])
    else [names[0]] + DropEmpty(names[1..])
  }

  function ParsePath(s: string): (a: PathArg)
    ensures a.absolute <==> |s| > 0 && s[0] == Separator
    ensures forall i :: 0 <= i < |a.names| ==> a.names[i] != "" && a.names[i] != "." && Separator !in a.names[i]
  {
    PathArg(|s| > 0 && s[0] == Separator, DropEmpty(Split(s)))
  }

  /** `base / s`: an absolute argument replaces the base. */
  function JoinPath(base: Path, s: string): (r: Path)
    ensures ParsePath(s).absolute ==> r == ParsePath(s).names
    ensures !ParsePath(s).absolute ==> |base| <= |r| && r[..|base|] == base && r[|base|..] == ParsePath(s).names
  {
    var a := ParsePath(s);
    if a.absolute then a.names else base + a.names
  }

  lemma {:induction false} ResolveAppendPlain(a: Path, b: Path)
    requires IsPlain(b)
    ensures Resolve(a + b) == Resolve(a) + b
    decreases |b|
  {
    if b == [] {
      assert a + b == a;
    } else {
      var b' := b[..|b| - 1];
      ResolveAppendPlain(a, b');
      assert (a + b)[..|a + b| - 1] == a + b';
      assert Resolve(a) + b' + [b[|b| - 1]] == Resolve(a) + b;
    }
  }

  lemma ResolvePlain(p: Path)
    requires IsPlain(p)
    ensures Resolve(p) == p
  {
    ResolveAppendPlain([], p);
    assert [] + p == p;
  }

  /** Resolving twice is resolving once. */
  lemma ResolveIdempotent(p: Path)
    ensures Resolve(Resolve(p)) == Resolve(p)
  {
    ResolvePlain(Resolve(p));
  }

  lemma {:induction false} SplitWithoutSeparator(a: string)
    requires Separator !in a
    ensures Split(a) == [a]
    decreases |a|
  {
    if a != [] {
      SplitWithoutSeparator(a[1..]);
      assert [a[0]] + a[1..] == a;
    }
  }

  lemma {:induction false} SplitAtSeparator(a: string, b: string)
    requires Separator !in a
    ensures Split(a + [Separator] + b) == [a] + Split(b)
    decreases |a|
  {
    var s := a + [Separator] + b;
    if a == [] {
      assert s[0] == Separator && s[1..] == b;
    } else {
      assert s[1..] == a[1..] + [Separator] + b;
      SplitAtSeparator(a[1..], b);
      var rest := Split(s[1..]);
      assert rest[0] == a[1..] && rest[1..] == Split(b);
      assert s[0] == a[0] != Separator;
      assert [a[0]] + a[1..] == a;
      assert Split(s) == [[s[0]] + rest[0]] + rest[1..];
    }
  }

  /** Splitting undoes joining, for names without separators. */
  lemma {:induction false} SplitJoinNames(names: seq<string>)
    requires names != []
    requires forall i :: 0 <= i < |names| ==> Separator !in names[i]
    ensures Split(JoinNames(names)) == names
    decreases |names|
  {
    if |names| == 1 {
      SplitWithoutSeparator(names[0]);
    } else {
      SplitJoinNames(names[1..]);
      SplitAtSeparator(names[0], JoinNames(names[1..]));
      assert [names[0]] + names[1..] == names;
    }
  }

  lemma {:induction false} JoinNamesStartsWithFirst(names: seq<string>)
    requires names != []
    ensures names[0] <= JoinNames(names)
  {
  }

  /** A relative path printed from entry names parses back to the same names. */
  lemma ParseJoinedNames(names: seq<string>)
    requires names != [] && IsEntryPath(names)
    ensures ParsePath(JoinNames(names)) == PathArg(false, names)
  {
    SplitJoinNames(names);
    JoinNamesStartsWithFirst(names);
    assert IsEntryName(names[0]);
    assert JoinNames(names)[0] == names[0][0];
    assert names[0][0] in names[0];
  }

  /** A directory joined with entry names printed as a relative path is the directory extended by them. */
  lemma JoinRelativeNames(dir: Path, names: seq<string>)
    requires names != [] && IsEntryPath(names)
    ensures JoinPath(dir, JoinNames(names)) == dir + names
  {
    ParseJoinedNames(names);
  }

  /** One or more ".." names, resolved below a directory other than the root, end strictly above it. */
  lemma {:induction false} UpwardStepsLeave(base: Path, ups: seq<string>)
    requires Resolve(base) != []
    requires ups != [] && forall i :: 0 <= i < |ups| ==> ups[i] == ".."
    ensures |Resolve(base + ups)| < |Resolve(base)|
    decreases |ups|
  {
    var u := ups[..|ups| - 1];
    assert (base + ups)[..|base + ups| - 1] == base + u;
    if u == [] {
      assert base + u == base;
    } else {
      UpwardStepsLeave(base, u);
    }
  }
}
