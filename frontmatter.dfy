/**
 * The YAML header of a SKILL.md file: the match of `^---\s*\n(.*?)\n---\s*\n`
 * (dot matching newlines) at the start of the text, with the first group handed
 * to a YAML loader. The loader is abstract: the model only needs to know
 * whether it fails and which value the document it reads is.
 */
module Frontmatter {
  import opened Wrappers
  import opened Errors

  /** A YAML value as the loader returns it. */
  datatype Value =
    | Str(text: string)
    | Int(i: int)
    | Bool(b: bool)
    | Null
    | List(items: seq<Value>)
    | Mapping(entries: map<string, Value>)

  /** A header that is a YAML mapping. */
  type Header = map<string, Value>

  /** `yaml.safe_load`: the document's value (Null for an empty text), or None when it raises a YAML error. */
  type YamlLoader = string -> Option<Value>

  /** `\s` of a str pattern: the characters for which str.isspace() holds. */
  predicate IsSpace(ch: char) {
    || ('\t' <= ch <= '\r')
    || ('\U{1c}' <= ch <= '\U{20}')
    || ch == '\U{85}' || ch == '\U{a0}' || ch == '\U{1680}'
    || ('\U{2000}' <= ch <= '\U{200a}')
    || ch == '\U{2028}' || ch == '\U{2029}' || ch == '\U{202f}' || ch == '\U{205f}' || ch == '\U{3000}'
  }

  const Delimiter: string := "---"

  predicate StartsWithDelimiter(c: string) {
    |c| >= 3 && c[..3] == Delimiter
  }

  predicate SpacesBetween(c: string, lo: int, hi: int) {
    0 <= lo <= hi <= |c| && forall i :: lo <= i < hi ==> IsSpace(c[i])
  }

  /** The opening `^---\s*\n`, with its final newline at index k. */
  predicate OpensAt(c: string, k: int) {
    StartsWithDelimiter(c) && 3 <= k < |c| && SpacesBetween(c, 3, k) && c[k] == '\n'
  }

  /** `\s*\n` matches at index p. */
  predicate NewlineAfterSpaces(c: string, p: nat)
    decreases |c| - p
  {
    p < |c| && (c[p] == '\n' || (IsSpace(c[p]) && NewlineAfterSpaces(c, p + 1)))
  }

  /** The closing `\n---\s*\n`, starting with the newline at index j. */
  predicate ClosesAt(c: string, j: int) {
    0 <= j && j + 4 <= |c| && c[j] == '\n' && c[j + 1..j + 4] == Delimiter && NewlineAfterSpaces(c, j + 4)
  }

  /** One way for the whole pattern to match; the group is c[k + 1..j]. */
  predicate Matches(c: string, k: int, j: int) {
    OpensAt(c, k) && k < j && ClosesAt(c, j)
  }

  /**
   * The match Python's backtracking reports: the greedy opening `\s*` tries the
   * last newline first, and the lazy group then stops at the first closing.
   */
  ghost predicate IsReportedMatch(c: string, k: int, j: int) {
    && Matches(c, k, j)
    && (forall k', j' :: Matches(c, k', j') ==> k' <= k)
    && (forall j' :: Matches(c, k, j') ==> j <= j')
  }

  datatype Span = Span(open: nat, close: nat)

  function SpaceRunEnd(c: string, p: nat): (e: nat)
    requires p <= |c|
    ensures p <= e <= |c| && SpacesBetween(c, p, e)
    ensures e < |c| ==> !IsSpace(c[e])
    decreases |c| - p
  {
    if p < |c| && IsSpace(c[p]) then SpaceRunEnd(c, p + 1) else p
  }

  /** The lazy group: the first closing at or after `from`. */
  function FirstClose(c: string, from: nat): (r: Option<nat>)
    ensures r.Some? ==> from <= r.value && ClosesAt(c, r.value)
    ensures r.Some? ==> forall i :: from <= i < r.value ==> !ClosesAt(c, i)
    ensures r.None? ==> forall i :: from <= i ==> !ClosesAt(c, i)
    decreases |c| - from
  {
    if |c| < from + 4 then None
    else if ClosesAt(c, from) then Some(from)
    else FirstClose(c, from + 1)
  }

  /** Backtracking over the opening `\s*`: the newlines below `hi`, last one first. */
  function LastOpening(c: string, hi: nat): (r: Option<Span>)
    requires StartsWithDelimiter(c) && 3 <= hi && SpacesBetween(c, 3, hi)
    ensures r.Some? ==> r.value.open < hi && Matches(c, r.value.open, r.value.close)
    ensures r.Some? ==> forall k, j :: k < hi && Matches(c, k, j) ==> k <= r.value.open
    ensures r.Some? ==> forall j :: Matches(c, r.value.open, j) ==> r.value.close <= j
    ensures r.None? ==> forall k, j :: k < hi ==> !Matches(c, k, j)
    decreases hi
  {
    if hi == 3 then None
    else
      var k := hi - 1;
      if c[k] == '\n' then
        match FirstClose(c, k + 1)
        case Some(j) => Some(Span(k, j))
        case None => LastOpening(c, k)
      else
        LastOpening(c, k)
  }

  lemma OpeningInsideSpaceRun(c: string, k: int)
    requires OpensAt(c, k)
    ensures k < SpaceRunEnd(c, 3)
  {
    var e := SpaceRunEnd(c, 3);
    if e <= k {
      assert false;
    }
  }

  /** The span `re.match` reports, or None when the text has no header. */
  function FindFrontmatter(c: string): (r: Option<Span>)
    ensures r.Some? ==> IsReportedMatch(c, r.value.open, r.value.close)
    ensures r.None? <==> forall k, j :: !Matches(c, k, j)
  {
    if !StartsWithDelimiter(c) then None
    else
      var e := SpaceRunEnd(c, 3);
      var r := LastOpening(c, e);
      assert forall k, j :: Matches(c, k, j) ==> k < e by {
        forall k, j | Matches(c, k, j) ensures k < e {
          OpeningInsideSpaceRun(c, k);
        }
      }
      r
  }

  /** `match.group(1)`: the header text, or None when the pattern does not match. */
  function FrontmatterText(c: string): (r: Option<string>)
    ensures r.None? <==> forall k, j :: !Matches(c, k, j)
    ensures r.Some? ==> exists k, j :: IsReportedMatch(c, k, j) && r.value == c[k + 1..j]
  {
    match FindFrontmatter(c)
    case None => None
    case Some(s) =>
      assert IsReportedMatch(c, s.open, s.close);
      Some(c[s.open + 1..s.close])
  }

  /** `_extract_frontmatter`: the header's YAML value, whatever its type, or the error the source raises. */
  function ExtractFrontmatter(c: string, load: YamlLoader): (r: Result<Value, Error>)
    ensures r == Failure(NoFrontmatter) <==> forall k, j :: !Matches(c, k, j)
    ensures r.Failure? ==> r.error == NoFrontmatter || r.error == InvalidYaml
    ensures r.Success? ==> exists k, j :: IsReportedMatch(c, k, j) && load(c[k + 1..j]) == Some(r.value)
    ensures r == Failure(InvalidYaml) ==> exists k, j :: IsReportedMatch(c, k, j) && load(c[k + 1..j]) == None
  {
    match FrontmatterText(c)
    case None => Failure(NoFrontmatter)
    case Some(text) =>
      match load(text)
      case None => Failure(InvalidYaml)
      case Some(h) => Success(h)
  }

  /** No line of `y` starts with the delimiter. */
  ghost predicate NoDelimiterLine(y: string) {
    forall i :: 0 <= i && i + 4 <= |y| && y[i] == '\n' ==> y[i + 1..i + 4] != Delimiter
  }

  /** The text of a manifest written as a header between two delimiter lines, then a body. */
  function Compose(yaml: string, body: string): string {
    Delimiter + "\n" + yaml + "\n" + Delimiter + "\n" + body
  }

  /**
   * Writing a header between delimiter lines and extracting it gives it back,
   * when it does not start with whitespace and no line of it starts with "---".
   */
  lemma ComposedHeaderRoundTrip(yaml: string, body: string)
    requires yaml != [] && !IsSpace(yaml[0]) && NoDelimiterLine(yaml)
    ensures FrontmatterText(Compose(yaml, body)) == Some(yaml)
  {
    var c := Compose(yaml, body);
    var n := |yaml|;
    assert c[..3] == Delimiter;
    assert c[3] == '\n';
    assert c[4..4 + n] == yaml;
    assert c[4 + n] == '\n';
    assert c[4 + n + 1..4 + n + 4] == Delimiter;
    assert c[8 + n] == '\n';
    assert ClosesAt(c, 4 + n);
    assert Matches(c, 3, 4 + n);
    forall k, j | Matches(c, k, j)
      ensures k == 3 && 4 + n <= j
    {
      if k > 3 {
        assert false;
      }
      if j < 4 + n {
        assert false;
      }
    }
    var s := FindFrontmatter(c);
    assert s.Some?;
  }
}
