/**
 * The version-search query language of the launcher and the matcher that
 * applies a query to the installed builds.
 *
 * A query is written `<major>.<minor>.<patch>[-<branch>][+<build_hash>][@<commit time>]`,
 * where each of major, minor and patch is a number or one of the marks
 * `^` (newest), `*` (any) and `-` (oldest). The matcher narrows the builds
 * field by field, in the order build hash, major, minor, patch, branch,
 * commit time.
 */
module VersionMatcher {

  import opened Wrappers
  import opened Text
  import opened DateTimes
  import Semver

  // ---------------------------------------------------------------------
  // Builds

  /** `BasicBuildInfo`: what the matcher sees of an installed build. */
  datatype Build = Build(version: Semver.Version, branch: string, buildHash: string, commitTime: Time)

  /** `BasicBuildInfo.__lt__`: version precedence first; equal versions are ordered by commit time. */
  predicate BuildLess(a: Build, b: Build) {
    if a.version == b.version then a.commitTime < b.commitTime else Semver.Less(a.version, b.version)
  }

  /** `__lt__` is a strict order, total up to builds that agree on version and commit time. */
  lemma BuildLessIsStrictOrder(a: Build, b: Build, c: Build)
    ensures !BuildLess(a, a)
    ensures BuildLess(a, b) ==> !BuildLess(b, a)
    ensures BuildLess(a, b) && BuildLess(b, c) ==> BuildLess(a, c)
    ensures BuildLess(a, b) || BuildLess(b, a) || (a.version == b.version && a.commitTime == b.commitTime)
  {
    Semver.LessIsStrictTotalOrder(a.version, b.version, c.version);
  }

  // ---------------------------------------------------------------------
  // Queries

  /** A major, minor or patch field: an `int`, or a string (only the marks are accepted). */
  datatype Position = Num(n: int) | Str(s: string)

  /** A commit-time field: a datetime, or a string (only the marks are accepted). */
  datatype Moment = Instant(t: Time) | TimeStr(s: string)

  /** `VersionSearchQuery`, field for field. */
  datatype Query = Query(
    major: Position,
    minor: Position,
    patch: Position,
    branch: Option<string>,
    buildHash: Option<string>,
    commitTime: Moment)

  /** `^`, `*` and `-`. */
  predicate IsMark(s: string) {
    s == "^" || s == "*" || s == "-"
  }

  predicate IsMarkChar(c: char) {
    c == '^' || c == '*' || c == '-'
  }

  /** What `__post_init__` accepts. */
  predicate ValidQuery(q: Query) {
    && (q.major.Str? ==> IsMark(q.major.s))
    && (q.minor.Str? ==> IsMark(q.minor.s))
    && (q.patch.Str? ==> IsMark(q.patch.s))
    && (q.commitTime.TimeStr? ==> IsMark(q.commitTime.s))
    && (q.buildHash.Some? ==> q.buildHash.value != "^" && q.buildHash.value != "-")
    && (q.branch.Some? ==> q.branch.value != "^" && q.branch.value != "-")
  }

  function PositionText(p: Position): Option<string> {
    if p.Str? then Some(p.s) else None
  }

  /** The first string among major, minor, patch and commit time that is not a mark, in that order. */
  function FirstBadField(fields: seq<Option<string>>): (r: Option<string>)
    ensures r.Some? ==> exists i ::
      && 0 <= i < |fields| && fields[i] == Some(r.value) && !IsMark(r.value)
      && (forall j :: 0 <= j < i ==> fields[j].None? || IsMark(fields[j].value))
    ensures r.None? ==> forall i :: 0 <= i < |fields| && fields[i].Some? ==> IsMark(fields[i].value)
  {
    if |fields| == 0 then None
    else if fields[0].Some? && !IsMark(fields[0].value) then fields[0]
    else
      var r := FirstBadField(fields[1..]);
      if r.Some? then
        var i :| 0 <= i < |fields[1..]| && fields[1..][i] == Some(r.value) && !IsMark(r.value)
          && forall j :: 0 <= j < i ==> fields[1..][j].None? || IsMark(fields[1..][j].value);
        assert fields[i + 1] == Some(r.value);
        assert forall j :: 0 <= j < i + 1 ==> fields[j].None? || IsMark(fields[j].value) by {
          forall j | 0 <= j < i + 1
            ensures fields[j].None? || IsMark(fields[j].value)
          {
            if j > 0 {
              assert fields[j] == fields[1..][j - 1];
            }
          }
        }
        r
      else r
  }

  /** The four fields `__post_init__` checks first are each a number, an instant or a mark. */
  predicate FieldsMarked(q: Query) {
    && (q.major.Str? ==> IsMark(q.major.s))
    && (q.minor.Str? ==> IsMark(q.minor.s))
    && (q.patch.Str? ==> IsMark(q.patch.s))
    && (q.commitTime.TimeStr? ==> IsMark(q.commitTime.s))
  }

  /** The message for a field that is not a mark. */
  function MarkError(pos: string): string {
    pos + " must be in [\"^\", \"*\", \"-\"]"
  }

  /** The ValueError `__post_init__` raises, if any: the field loop first, then the build hash, then the branch. */
  function PostInitError(q: Query): (r: Option<string>)
    ensures r.None? <==> ValidQuery(q)
    ensures q.major.Str? && !IsMark(q.major.s) ==> r == Some(MarkError(q.major.s))
    ensures (q.major.Str? ==> IsMark(q.major.s)) && q.minor.Str? && !IsMark(q.minor.s) ==> r == Some(MarkError(q.minor.s))
    ensures (q.major.Str? ==> IsMark(q.major.s)) && (q.minor.Str? ==> IsMark(q.minor.s)) && q.patch.Str? && !IsMark(q.patch.s)
      ==> r == Some(MarkError(q.patch.s))
    ensures (
        && (q.major.Str? ==> IsMark(q.major.s)) && (q.minor.Str? ==> IsMark(q.minor.s)) && (q.patch.Str? ==> IsMark(q.patch.s))
        && q.commitTime.TimeStr? && !IsMark(q.commitTime.s))
      ==> r == Some(MarkError(q.commitTime.s))
    ensures FieldsMarked(q) && q.buildHash.Some? && (q.buildHash.value == "^" || q.buildHash.value == "-")
      ==> r == Some("build_hash cannot be temporally matched")
    ensures (
        && FieldsMarked(q) && !(q.buildHash.Some? && (q.buildHash.value == "^" || q.buildHash.value == "-"))
        && q.branch.Some? && (q.branch.value == "^" || q.branch.value == "-"))
      ==> r == Some("branch cannot be temporally matched")
  {
    var time := if q.commitTime.TimeStr? then Some(q.commitTime.s) else None;
    var fields := [PositionText(q.major), PositionText(q.minor), PositionText(q.patch), time];
    assert fields[0] == PositionText(q.major) && fields[1] == PositionText(q.minor);
    assert fields[2] == PositionText(q.patch) && fields[3] == time;
    match FirstBadField(fields)
    case Some(pos) => Some(MarkError(pos))
    case None =>
      if q.buildHash.Some? && q.buildHash.value != "" && (q.buildHash.value == "^" || q.buildHash.value == "-") then
        Some("build_hash cannot be temporally matched")
      else if q.branch.Some? && q.branch.value != "" && (q.branch.value == "^" || q.branch.value == "-") then
        Some("branch cannot be temporally matched")
      else None
  }

  /** Constructing a `VersionSearchQuery`: the dataclass fields, then `__post_init__`. */
  function NewQuery(q: Query): (r: Result<Query, string>)
    ensures r.Success? <==> ValidQuery(q)
    ensures r.Success? ==> r.value == q
  {
    match PostInitError(q)
    case None => Success(q)
    case Some(e) => Failure(e)
  }

  /** `VersionSearchQuery.default()`: newest major, minor, patch and commit time, any branch and hash. */
  function Default(): (q: Query)
    ensures ValidQuery(q)
    ensures q.branch.None? && q.buildHash.None?
  {
    Query(Str("^"), Str("^"), Str("^"), None, None, TimeStr("^"))
  }

  lemma DefaultConstructs()
    ensures NewQuery(Default()) == Success(Default())
  {
  }

  /** `with_branch`: the same query with another branch, validated again. */
  function WithBranch(q: Query, branch: Option<string>): (r: Result<Query, string>)
    ensures r.Success? ==> r.value == q.(branch := branch)
    ensures ValidQuery(q) ==> (r.Success? <==> branch.None? || (branch.value != "^" && branch.value != "-"))
  {
    NewQuery(Query(q.major, q.minor, q.patch, branch, q.buildHash, q.commitTime))
  }

  /** `with_build_hash`: the same query with another build hash, validated again. */
  function WithBuildHash(q: Query, buildHash: Option<string>): (r: Result<Query, string>)
    ensures r.Success? ==> r.value == q.(buildHash := buildHash)
    ensures ValidQuery(q) ==> (r.Success? <==> buildHash.None? || (buildHash.value != "^" && buildHash.value != "-"))
  {
    NewQuery(Query(q.major, q.minor, q.patch, q.branch, buildHash, q.commitTime))
  }

  /** `with_commit_time`: the same query with another commit time, validated again. */
  function WithCommitTime(q: Query, commitTime: Moment): (r: Result<Query, string>)
    ensures r.Success? ==> r.value == q.(commitTime := commitTime)
    ensures ValidQuery(q) ==> (r.Success? <==> commitTime.Instant? || IsMark(commitTime.s))
  {
    NewQuery(Query(q.major, q.minor, q.patch, q.branch, q.buildHash, commitTime))
  }

  // ---------------------------------------------------------------------
  // The query regex `VERSION_SEARCH_REGEX`, as a scanner over its groups

  /** Python's `str.isspace` (and the regex class `\s`): the Unicode whitespace characters. */
  predicate IsSpace(c: char) {
    var n := c as int;
    || 9 <= n <= 13 || 28 <= n <= 32 || n == 0x85 || n == 0xA0 || n == 0x1680
    || 0x2000 <= n <= 0x200A || n == 0x2028 || n == 0x2029 || n == 0x202F || n == 0x205F || n == 0x3000
  }

  /** The character classes of the pattern; `\d` and `\w` are restricted to ASCII. */
  datatype CharClass =
    | Digit       // `\d`
    | BranchChar  // `[^\@\s\+]`
    | WordChar    // `[\d\w]`
    | TimeChar    // `[\dT\+\:Z\ \^\-]`

  predicate In(c: char, k: CharClass) {
    match k
    case Digit => IsDigit(c)
    case BranchChar => c != '@' && c != '+' && !IsSpace(c)
    case WordChar => IsDigit(c) || 'a' <= c <= 'z' || 'A' <= c <= 'Z' || c == '_'
    case TimeChar => IsDigit(c) || c == 'T' || c == '+' || c == ':' || c == 'Z' || c == ' ' || c == '^' || c == '-'
  }

  /** Every character of `s` is in class `k`. */
  predicate All(s: string, k: CharClass) {
    forall i :: 0 <= i < |s| ==> In(s[i], k)
  }

  /** `[\^\-\*]|\d+` */
  predicate PositionToken(s: string) {
    (|s| == 1 && IsMarkChar(s[0])) || (|s| > 0 && AllDigits(s))
  }

  /** `[^\@\s\+]+` */
  predicate BranchToken(s: string) {
    |s| > 0 && All(s, BranchChar)
  }

  /** `[\d\w]+` */
  predicate HashToken(s: string) {
    |s| > 0 && All(s, WordChar)
  }

  /** `[\^\-\*]|[\dT\+\:Z\ \^\-]+` */
  predicate TimeToken(s: string) {
    (|s| == 1 && IsMarkChar(s[0])) || (|s| > 0 && All(s, TimeChar))
  }

  /** The six groups of a match; an optional group that did not take part is `None`. */
  datatype Groups = Groups(
    major: string,
    minor: string,
    patch: string,
    branch: Option<string>,
    buildHash: Option<string>,
    commitTime: Option<string>)

  predicate WellFormed(g: Groups) {
    && PositionToken(g.major) && PositionToken(g.minor) && PositionToken(g.patch)
    && (g.branch.Some? ==> BranchToken(g.branch.value))
    && (g.buildHash.Some? ==> HashToken(g.buildHash.value))
    && (g.commitTime.Some? ==> TimeToken(g.commitTime.value))
  }

  /** An optional part `tag` followed by its text. */
  function Part(tag: char, text: Option<string>): string {
    if text.Some? then [tag] + text.value else ""
  }

  /** The string whose match has groups `g`. */
  function Render(g: Groups): string {
    g.major + "." + g.minor + "." + g.patch + Part('-', g.branch) + Part('+', g.buildHash) + Part('@', g.commitTime)
  }

  /** The length of the longest prefix of `s` whose characters are in class `k`. */
  function Span(s: string, k: CharClass): (n: nat)
    ensures n <= |s|
    decreases |s|
  {
    if |s| == 0 || !In(s[0], k) then 0 else 1 + Span(s[1..], k)
  }

  /** `Span` reads the longest prefix in the class: all of it is in, the next character is not. */
  lemma {:induction false} SpanSound(s: string, k: CharClass)
    ensures All(s[..Span(s, k)], k)
    ensures Span(s, k) < |s| ==> !In(s[Span(s, k)], k)
    decreases |s|
  {
    if |s| > 0 && In(s[0], k) {
      SpanSound(s[1..], k);
      assert s[..Span(s, k)] == [s[0]] + s[1..][..Span(s[1..], k)];
    }
  }

  lemma {:induction false} SpanOf(u: string, rest: string, k: CharClass)
    requires All(u, k)
    requires |rest| == 0 || !In(rest[0], k)
    ensures Span(u + rest, k) == |u|
    decreases |u|
  {
    if |u| > 0 {
      assert (u + rest)[1..] == u[1..] + rest;
      SpanOf(u[1..], rest, k);
    } else {
      assert u + rest == rest;
    }
  }

  /** The length of the position token at the front of `t`: a mark, else the run of digits. */
  function PositionSpan(t: string): (n: nat)
    ensures n <= |t|
  {
    if |t| > 0 && IsMarkChar(t[0]) then 1 else Span(t, Digit)
  }

  lemma PositionSpanSound(t: string)
    ensures 0 < PositionSpan(t) ==> PositionToken(t[..PositionSpan(t)])
  {
    SpanSound(t, Digit);
  }

  lemma PositionSpanOf(tok: string, rest: string)
    requires PositionToken(tok)
    requires |rest| == 0 || !In(rest[0], Digit)
    ensures PositionSpan(tok + rest) == |tok|
  {
    if !(|tok| == 1 && IsMarkChar(tok[0])) {
      assert (tok + rest)[0] == tok[0];
      SpanOf(tok, rest, Digit);
    }
  }

  /** `(<position>)\.` at the front of `t`: the token and what follows the dot. */
  function DottedPosition(t: string): Option<(string, string)> {
    var n := PositionSpan(t);
    if n == 0 || n == |t| || t[n] != '.' then None else Some((t[..n], t[n + 1..]))
  }

  lemma DottedPositionSound(t: string)
    ensures var r := DottedPosition(t);
      r.Some? ==> PositionToken(r.value.0) && t == r.value.0 + "." + r.value.1
  {
    PositionSpanSound(t);
    var n := PositionSpan(t);
    if 0 < n < |t| {
      assert t == t[..n] + [t[n]] + t[n + 1..];
    }
  }

  lemma DottedPositionOf(tok: string, rest: string)
    requires PositionToken(tok)
    ensures DottedPosition(tok + "." + rest) == Some((tok, rest))
  {
    var t := tok + "." + rest;
    assert t == tok + ("." + rest);
    PositionSpanOf(tok, "." + rest);
    assert t[..|tok|] == tok && t[|tok| + 1..] == rest;
  }

  /**
   * An optional group `(?:<tag>(<class>+))?` at the front of `t`: the group's text and what
   * follows. A tag with no character of the class after it fails, as no later part of the
   * pattern can start with that tag.
   */
  function OptionalGroup(t: string, tag: char, k: CharClass): Option<(Option<string>, string)> {
    if |t| == 0 || t[0] != tag then Some((None, t))
    else
      var n := Span(t[1..], k);
      if n == 0 then None else Some((Some(t[1..1 + n]), t[1 + n..]))
  }

  lemma OptionalGroupSound(t: string, tag: char, k: CharClass)
    ensures var r := OptionalGroup(t, tag, k);
      r.Some? ==>
        && (r.value.0.Some? ==> |r.value.0.value| > 0 && All(r.value.0.value, k))
        && t == Part(tag, r.value.0) + r.value.1
        && (r.value.0.None? ==> |t| == 0 || t[0] != tag)
  {
    if |t| > 0 && t[0] == tag {
      SpanSound(t[1..], k);
      var n := Span(t[1..], k);
      assert t[1..][..n] == t[1..1 + n];
      assert t == [tag] + t[1..1 + n] + t[1 + n..];
    }
  }

  lemma OptionalGroupOf(tag: char, text: Option<string>, rest: string, k: CharClass)
    requires text.Some? ==> |text.value| > 0 && All(text.value, k)
    requires |rest| == 0 || (rest[0] != tag && !In(rest[0], k))
    ensures OptionalGroup(Part(tag, text) + rest, tag, k) == Some((text, rest))
  {
    if text.Some? {
      var t := Part(tag, text) + rest;
      assert t[1..] == text.value + rest;
      SpanOf(text.value, rest, k);
      assert t[1..1 + |text.value|] == text.value;
      assert t[1 + |text.value|..] == rest;
    } else {
      assert Part(tag, text) + rest == rest;
    }
  }

  /** `(?:\@(...))?$` at the front of `t`: the commit-time group, which must run to the end. */
  function TimeGroup(t: string): Option<Option<string>> {
    if |t| == 0 then Some(None)
    else if t[0] == '@' && TimeToken(t[1..]) then Some(Some(t[1..]))
    else None
  }

  lemma TimeGroupSound(t: string)
    ensures var r := TimeGroup(t);
      r.Some? ==> t == Part('@', r.value) && (r.value.Some? ==> TimeToken(r.value.value))
  {
    if |t| > 0 {
      assert t == ['@'] + t[1..] || t[0] != '@';
    }
  }

  /** The optional branch, hash and commit-time groups, which must use up `t`. */
  function Suffix(t: string): Option<(Option<string>, Option<string>, Option<string>)> {
    match OptionalGroup(t, '-', BranchChar)
    case None => None
    case Some((branch, t1)) =>
      match OptionalGroup(t1, '+', WordChar)
      case None => None
      case Some((hash, t2)) =>
        match TimeGroup(t2)
        case None => None
        case Some(time) => Some((branch, hash, time))
  }

  lemma SuffixSound(t: string)
    ensures var r := Suffix(t);
      r.Some? ==>
        var (branch, hash, time) := r.value;
        && (branch.Some? ==> BranchToken(branch.value))
        && (hash.Some? ==> HashToken(hash.value))
        && (time.Some? ==> TimeToken(time.value))
        && t == Part('-', branch) + (Part('+', hash) + Part('@', time))
  {
    OptionalGroupSound(t, '-', BranchChar);
    var r1 := OptionalGroup(t, '-', BranchChar);
    if r1.Some? {
      var (branch, t1) := r1.value;
      OptionalGroupSound(t1, '+', WordChar);
      var r2 := OptionalGroup(t1, '+', WordChar);
      if r2.Some? {
        var (hash, t2) := r2.value;
        TimeGroupSound(t2);
        var r3 := TimeGroup(t2);
        if r3.Some? {
          assert t1 == Part('+', hash) + Part('@', r3.value);
          assert Suffix(t) == Some((branch, hash, r3.value));
        }
      }
    }
  }

  lemma SuffixOf(branch: Option<string>, hash: Option<string>, time: Option<string>)
    requires branch.Some? ==> BranchToken(branch.value)
    requires hash.Some? ==> HashToken(hash.value)
    requires time.Some? ==> TimeToken(time.value)
    ensures Suffix(Part('-', branch) + (Part('+', hash) + Part('@', time))) == Some((branch, hash, time))
  {
    var rest := Part('+', hash) + Part('@', time);
    OptionalGroupOf('-', branch, rest, BranchChar);
    OptionalGroupOf('+', hash, Part('@', time), WordChar);
    if time.Some? {
      assert Part('@', time)[1..] == time.value;
    }
  }

  /** The patch token and the optional groups after it, which must use up `t`. */
  function PatchAndSuffix(t: string): Option<(string, (Option<string>, Option<string>, Option<string>))> {
    var n := PositionSpan(t);
    if n == 0 then None
    else
      match Suffix(t[n..])
      case None => None
      case Some(groups) => Some((t[..n], groups))
  }

  lemma PatchAndSuffixSound(t: string)
    ensures var r := PatchAndSuffix(t);
      r.Some? ==>
        var (branch, hash, time) := r.value.1;
        && PositionToken(r.value.0)
        && (branch.Some? ==> BranchToken(branch.value))
        && (hash.Some? ==> HashToken(hash.value))
        && (time.Some? ==> TimeToken(time.value))
        && t == r.value.0 + (Part('-', branch) + (Part('+', hash) + Part('@', time)))
  {
    PositionSpanSound(t);
    var n := PositionSpan(t);
    SuffixSound(t[n..]);
    assert t == t[..n] + t[n..];
  }

  lemma PatchAndSuffixOf(g: Groups)
    requires WellFormed(g)
    ensures PatchAndSuffix(g.patch + (Part('-', g.branch) + (Part('+', g.buildHash) + Part('@', g.commitTime))))
      == Some((g.patch, (g.branch, g.buildHash, g.commitTime)))
  {
    var tail := Part('-', g.branch) + (Part('+', g.buildHash) + Part('@', g.commitTime));
    var t := g.patch + tail;
    SuffixOf(g.branch, g.buildHash, g.commitTime);
    assert |tail| == 0 || tail[0] in "-+@";
    PositionSpanOf(g.patch, tail);
    assert t[..|g.patch|] == g.patch && t[|g.patch|..] == tail;
  }

  /** A full match of the pattern against `t`; each group is read longest-first, as the regex does. */
  function FullMatch(t: string): Option<Groups> {
    match DottedPosition(t)
    case None => None
    case Some((major, t1)) =>
      match DottedPosition(t1)
      case None => None
      case Some((minor, t2)) =>
        match PatchAndSuffix(t2)
        case None => None
        case Some((patch, (branch, hash, time))) => Some(Groups(major, minor, patch, branch, hash, time))
  }

  lemma RenderSplit(g: Groups)
    ensures Render(g) == g.major + "." + (g.minor + "." + (g.patch
      + (Part('-', g.branch) + (Part('+', g.buildHash) + Part('@', g.commitTime)))))
  {
  }

  /** Whatever the pattern matches is the rendering of well-formed groups. */
  lemma FullMatchSound(t: string)
    ensures FullMatch(t).Some? ==> WellFormed(FullMatch(t).value) && Render(FullMatch(t).value) == t
  {
    DottedPositionSound(t);
    if DottedPosition(t).Some? {
      var t1 := DottedPosition(t).value.1;
      DottedPositionSound(t1);
      if DottedPosition(t1).Some? {
        PatchAndSuffixSound(DottedPosition(t1).value.1);
        if FullMatch(t).Some? {
          RenderSplit(FullMatch(t).value);
        }
      }
    }
  }

  /** The pattern matches the rendering of any well-formed groups, and reads those groups back. */
  lemma FullMatchRender(g: Groups)
    requires WellFormed(g)
    ensures FullMatch(Render(g)) == Some(g)
  {
    var t2 := g.patch + (Part('-', g.branch) + (Part('+', g.buildHash) + Part('@', g.commitTime)));
    var t1 := g.minor + "." + t2;
    RenderSplit(g);
    DottedPositionOf(g.major, t1);
    DottedPositionOf(g.minor, t2);
    PatchAndSuffixOf(g);
  }

  /** `VERSION_SEARCH_REGEX.match(s)`; `$` also matches just before a final newline. */
  function RegexMatch(s: string): Option<Groups> {
    if |s| > 0 && s[|s| - 1] == '\n' then FullMatch(s[..|s| - 1]) else FullMatch(s)
  }

  lemma RenderLast(g: Groups)
    requires WellFormed(g)
    ensures |Render(g)| > 0 && Render(g)[|Render(g)| - 1] != '\n'
  {
    var r := Render(g);
    var last := r[|r| - 1];
    if g.commitTime.Some? {
      assert last == g.commitTime.value[|g.commitTime.value| - 1];
    } else if g.buildHash.Some? {
      assert last == g.buildHash.value[|g.buildHash.value| - 1];
    } else if g.branch.Some? {
      assert last == g.branch.value[|g.branch.value| - 1];
    } else {
      assert last == g.patch[|g.patch| - 1];
    }
  }

  lemma RegexMatchRender(g: Groups)
    requires WellFormed(g)
    ensures RegexMatch(Render(g)) == Some(g)
    ensures RegexMatch(Render(g) + "\n") == Some(g)
  {
    FullMatchRender(g);
    RenderLast(g);
    var s := Render(g) + "\n";
    assert s[..|s| - 1] == Render(g);
  }

  /** The regex matches exactly the renderings of well-formed groups, with or without one final newline. */
  lemma RegexMatchIff(s: string, g: Groups)
    ensures RegexMatch(s) == Some(g) <==> WellFormed(g) && (s == Render(g) || s == Render(g) + "\n")
  {
    if WellFormed(g) {
      RegexMatchRender(g);
    }
    if |s| > 0 && s[|s| - 1] == '\n' {
      FullMatchSound(s[..|s| - 1]);
      assert s == s[..|s| - 1] + "\n";
    } else {
      FullMatchSound(s);
    }
  }

  // ---------------------------------------------------------------------
  // `_parse`, `VersionSearchQuery.parse` and `__str__`

  /** `int(x)` when `x.isnumeric()`, else the text itself. */
  function ToPosition(text: string): (p: Position)
    ensures p.Num? <==> |text| > 0 && AllDigits(text)
  {
    if |text| > 0 && AllDigits(text) then Num(DigitsToNat(text)) else Str(text)
  }

  /** The commit-time group, `^` when absent; a non-mark goes through `fromisoformat` and stays text if that fails. */
  function ToMoment(text: Option<string>, fromIsoFormat: string -> Option<Time>): (m: Moment)
    ensures text.None? ==> m == TimeStr("^")
    ensures m.Instant? <==> text.Some? && !IsMark(text.value) && fromIsoFormat(text.value).Some?
  {
    var t := if text.None? then "^" else text.value;
    if IsMark(t) then TimeStr(t)
    else match fromIsoFormat(t)
      case Some(instant) => Instant(instant)
      case None => TimeStr(t)
  }

  /** `_parse(s)` after a successful match: the tuple the query is built from. */
  function FromGroups(g: Groups, fromIsoFormat: string -> Option<Time>): Query {
    Query(ToPosition(g.major), ToPosition(g.minor), ToPosition(g.patch), g.branch, g.buildHash,
          ToMoment(g.commitTime, fromIsoFormat))
  }

  /** `VersionSearchQuery.parse(s)`; a `Failure` is the ValueError it raises. */
  function Parse(s: string, fromIsoFormat: string -> Option<Time>): (r: Result<Query, string>)
    ensures r.Success? ==> ValidQuery(r.value)
  {
    match RegexMatch(s)
    case None => Failure("Invalid version search query: " + s)
    case Some(g) => NewQuery(FromGroups(g, fromIsoFormat))
  }

  /** Only renderings of well-formed groups parse; any other string raises ValueError. */
  lemma ParseAcceptsOnlyQuerySyntax(s: string, fromIsoFormat: string -> Option<Time>)
    requires Parse(s, fromIsoFormat).Success?
    ensures exists g :: WellFormed(g) && (s == Render(g) || s == Render(g) + "\n")
  {
    var g := RegexMatch(s).value;
    RegexMatchIff(s, g);
  }

  /** `f"{i}"` for an `int`. */
  function IntToString(i: int): string {
    if i < 0 then "-" + NatToString(-i) else NatToString(i)
  }

  function PositionString(p: Position): string {
    match p
    case Num(n) => IntToString(n)
    case Str(s) => s
  }

  function MomentString(m: Moment, str: Time -> string): string {
    match m
    case Instant(t) => str(t)
    case TimeStr(s) => s
  }

  /** `str(q)`: the three positions, then each of branch, hash and commit time that is truthy. */
  function ToString(q: Query, str: Time -> string): string {
    var s := PositionString(q.major) + "." + PositionString(q.minor) + "." + PositionString(q.patch);
    var s := if q.branch.Some? && q.branch.value != "" then s + "-" + q.branch.value else s;
    var s := if q.buildHash.Some? && q.buildHash.value != "" then s + "+" + q.buildHash.value else s;
    var time := MomentString(q.commitTime, str);
    if q.commitTime.Instant? || time != "" then s + "@" + time else s
  }

  /** The queries whose printed form reads back: non-negative numbers, and texts the regex accepts. */
  predicate Printable(q: Query, codec: Codec) {
    && ValidQuery(q)
    && (q.major.Num? ==> q.major.n >= 0)
    && (q.minor.Num? ==> q.minor.n >= 0)
    && (q.patch.Num? ==> q.patch.n >= 0)
    && (q.branch.Some? ==> BranchToken(q.branch.value))
    && (q.buildHash.Some? ==> HashToken(q.buildHash.value))
    && (q.commitTime.Instant? ==>
          var text := codec.str(q.commitTime.t);
          |text| > 1 && All(text, TimeChar))
  }

  lemma PositionRoundTrip(p: Position)
    requires p.Str? ==> IsMark(p.s)
    requires p.Num? ==> p.n >= 0
    ensures PositionToken(PositionString(p)) && ToPosition(PositionString(p)) == p
  {
    if p.Num? {
      DigitsToNatOfNatToString(p.n);
    }
  }

  /** The groups that the printed form of a printable query renders. */
  function GroupsOf(q: Query, str: Time -> string): Groups {
    Groups(PositionString(q.major), PositionString(q.minor), PositionString(q.patch),
           q.branch, q.buildHash, Some(MomentString(q.commitTime, str)))
  }

  /** A printable query prints as the rendering of well-formed groups. */
  lemma ToStringRender(q: Query, codec: Codec)
    requires Printable(q, codec)
    ensures WellFormed(GroupsOf(q, codec.str))
    ensures ToString(q, codec.str) == Render(GroupsOf(q, codec.str))
  {
    PositionRoundTrip(q.major);
    PositionRoundTrip(q.minor);
    PositionRoundTrip(q.patch);
    ToStringParts(q, codec.str);
  }

  lemma ToStringParts(q: Query, str: Time -> string)
    requires q.branch.Some? ==> q.branch.value != ""
    requires q.buildHash.Some? ==> q.buildHash.value != ""
    requires q.commitTime.TimeStr? ==> q.commitTime.s != ""
    ensures ToString(q, str) == Render(GroupsOf(q, str))
  {
  }

  /** Reading those groups back gives the query again. */
  lemma FromGroupsOf(q: Query, codec: Codec)
    requires codec.Valid()
    requires Printable(q, codec)
    ensures FromGroups(GroupsOf(q, codec.str), codec.fromIsoFormat) == q
  {
    PositionRoundTrip(q.major);
    PositionRoundTrip(q.minor);
    PositionRoundTrip(q.patch);
    if q.commitTime.Instant? {
      assert codec.fromIsoFormat(codec.str(q.commitTime.t)) == Some(q.commitTime.t);
    }
  }

  /** `VersionSearchQuery.parse(str(q)) == q`, which the file's serialisation test relies on. */
  lemma ParseToString(q: Query, codec: Codec)
    requires codec.Valid()
    requires Printable(q, codec)
    ensures Parse(ToString(q, codec.str), codec.fromIsoFormat) == Success(q)
  {
    ToStringRender(q, codec);
    FromGroupsOf(q, codec);
    ParseRender(GroupsOf(q, codec.str), codec.fromIsoFormat);
  }

  /** The serialisation test: the query read back from `str(q)` selects the same builds as `q`. */
  lemma SerializationKeepsMatches(q: Query, codec: Codec, builds: seq<Build>)
    requires codec.Valid()
    requires Printable(q, codec)
    ensures var r := Parse(ToString(q, codec.str), codec.fromIsoFormat);
      r.Success? && Matching(builds, r.value, Places) == Matching(builds, q, Places)
  {
    ParseToString(q, codec);
  }

  /** An empty branch is valid but printed as no branch, so it reads back as `None`. */
  lemma EmptyBranchDoesNotRoundTrip(codec: Codec)
    ensures var q := Query(Str("*"), Str("*"), Str("*"), Some(""), None, TimeStr("^"));
      ValidQuery(q) && Parse(ToString(q, codec.str), codec.fromIsoFormat) == Success(q.(branch := None))
  {
    var q := Query(Str("*"), Str("*"), Str("*"), Some(""), None, TimeStr("^"));
    var g := Groups("*", "*", "*", None, None, Some("^"));
    assert ToString(q, codec.str) == Render(g);
    ParseRender(g, codec.fromIsoFormat);
  }

  /** Parsing a rendering reads its groups back; only `_parse` and `__post_init__` remain. */
  lemma ParseRender(g: Groups, fromIsoFormat: string -> Option<Time>)
    requires WellFormed(g)
    ensures Parse(Render(g), fromIsoFormat) == NewQuery(FromGroups(g, fromIsoFormat))
  {
    RegexMatchRender(g);
  }

  // The file's own parser tests.

  /** `parse("1.2.3") == VersionSearchQuery(1, 2, 3)`, for every three numbers. */
  lemma ParseNumbers(major: nat, minor: nat, patch: nat, fromIsoFormat: string -> Option<Time>)
    ensures Parse(Render(Groups(NatToString(major), NatToString(minor), NatToString(patch), None, None, None)), fromIsoFormat)
      == Success(Query(Num(major), Num(minor), Num(patch), None, None, TimeStr("^")))
  {
    PositionRoundTrip(Num(major));
    PositionRoundTrip(Num(minor));
    PositionRoundTrip(Num(patch));
    ParseRender(Groups(NatToString(major), NatToString(minor), NatToString(patch), None, None, None), fromIsoFormat);
  }

  /** `parse("^.*.-") == VersionSearchQuery("^", "*", "-")` */
  lemma ParseMarks(fromIsoFormat: string -> Option<Time>)
    ensures Parse(Render(Groups("^", "*", "-", None, None, None)), fromIsoFormat)
      == Success(Query(Str("^"), Str("*"), Str("-"), None, None, TimeStr("^")))
  {
    ParseRender(Groups("^", "*", "-", None, None, None), fromIsoFormat);
  }

  /** `parse("*.*.*-daily")` has branch `daily`. */
  lemma ParseBranch(fromIsoFormat: string -> Option<Time>)
    ensures Parse(Render(Groups("*", "*", "*", Some("daily"), None, None)), fromIsoFormat)
      == Success(Query(Str("*"), Str("*"), Str("*"), Some("daily"), None, TimeStr("^")))
  {
    assert BranchToken("daily");
    ParseRender(Groups("*", "*", "*", Some("daily"), None, None), fromIsoFormat);
  }

  /** `parse("*.*.*+cb886aba06d5")` has that build hash. */
  lemma ParseBuildHash(fromIsoFormat: string -> Option<Time>)
    ensures Parse(Render(Groups("*", "*", "*", None, Some("cb886aba06d5"), None)), fromIsoFormat)
      == Success(Query(Str("*"), Str("*"), Str("*"), None, Some("cb886aba06d5"), TimeStr("^")))
  {
    assert HashToken("cb886aba06d5");
    ParseRender(Groups("*", "*", "*", None, Some("cb886aba06d5"), None), fromIsoFormat);
  }

  /** `parse("*.*.*@<iso time>")` has the instant `fromisoformat` gives. */
  lemma ParseCommitTime(fromIsoFormat: string -> Option<Time>, t: Time)
    requires fromIsoFormat("2024-07-31T23:53:51+00:00") == Some(t)
    ensures Parse(Render(Groups("*", "*", "*", None, None, Some("2024-07-31T23:53:51+00:00"))), fromIsoFormat)
      == Success(Query(Str("*"), Str("*"), Str("*"), None, None, Instant(t)))
  {
    assert TimeToken("2024-07-31T23:53:51+00:00");
    ParseTimeOnly("2024-07-31T23:53:51+00:00", fromIsoFormat, t);
  }

  /** `parse("*.*.*@<iso time with a space>")`: the space separator is in the time class too. */
  lemma ParseCommitTimeWithSpace(fromIsoFormat: string -> Option<Time>, t: Time)
    requires fromIsoFormat("2024-07-31 23:53:51+00:00") == Some(t)
    ensures Parse(Render(Groups("*", "*", "*", None, None, Some("2024-07-31 23:53:51+00:00"))), fromIsoFormat)
      == Success(Query(Str("*"), Str("*"), Str("*"), None, None, Instant(t)))
  {
    assert TimeToken("2024-07-31 23:53:51+00:00");
    ParseTimeOnly("2024-07-31 23:53:51+00:00", fromIsoFormat, t);
  }

  /** `*.*.*@<time>` with a time `fromisoformat` reads is a query for that instant. */
  lemma ParseTimeOnly(time: string, fromIsoFormat: string -> Option<Time>, t: Time)
    requires TimeToken(time) && !IsMark(time) && fromIsoFormat(time) == Some(t)
    ensures Parse(Render(Groups("*", "*", "*", None, None, Some(time))), fromIsoFormat)
      == Success(Query(Str("*"), Str("*"), Str("*"), None, None, Instant(t)))
  {
    var g := Groups("*", "*", "*", None, None, Some(time));
    assert WellFormed(g);
    assert FromGroups(g, fromIsoFormat) == Query(Str("*"), Str("*"), Str("*"), None, None, Instant(t));
    ParseRender(g, fromIsoFormat);
  }

  /** A commit time that `fromisoformat` rejects stays a string, which construction then rejects. */
  lemma ParseBadCommitTime(fromIsoFormat: string -> Option<Time>)
    requires fromIsoFormat("2024") == None
    ensures Parse(Render(Groups("*", "*", "*", None, None, Some("2024"))), fromIsoFormat).Failure?
  {
    assert TimeToken("2024");
    ParseRender(Groups("*", "*", "*", None, None, Some("2024")), fromIsoFormat);
  }

  /** `parse("abc")` raises ValueError. */
  lemma ParseInvalid(fromIsoFormat: string -> Option<Time>)
    ensures Parse("abc", fromIsoFormat).Failure?
  {
    assert PositionSpan("abc") == 0;
  }

  // ---------------------------------------------------------------------
  // `BInfoMatcher.match`

  /** The fields `match` narrows by, in its order. */
  datatype Place = BuildHash | Major | Minor | Patch | Branch | CommitTime

  const Places: seq<Place> := [BuildHash, Major, Minor, Patch, Branch, CommitTime]

  /** A field value: the numbers and instants are `IntKey`, the texts `StrKey`. */
  datatype Key = IntKey(i: int) | StrKey(s: string)

  /**
   * The order `max` and `min` use. Within one field all builds give the same kind of key;
   * between kinds (which Python would refuse to compare) numbers come first.
   */
  predicate KeyLess(a: Key, b: Key) {
    match (a, b)
    case (IntKey(x), IntKey(y)) => x < y
    case (StrKey(x), StrKey(y)) => StrLess(x, y)
    case (IntKey(_), StrKey(_)) => true
    case (StrKey(_), IntKey(_)) => false
  }

  lemma KeyLessIsStrictTotalOrder(a: Key, b: Key, c: Key)
    ensures !KeyLess(a, a)
    ensures KeyLess(a, b) || a == b || KeyLess(b, a)
    ensures KeyLess(a, b) ==> !KeyLess(b, a)
    ensures KeyLess(a, b) && KeyLess(b, c) ==> KeyLess(a, c)
  {
    if a.StrKey? {
      StrLessIrreflexive(a.s);
      if b.StrKey? {
        StrLessTrichotomy(a.s, b.s);
        if StrLess(a.s, b.s) {
          StrLessAsymmetric(a.s, b.s);
          if c.StrKey? && StrLess(b.s, c.s) {
            StrLessTransitive(a.s, b.s, c.s);
          }
        }
      }
    }
  }

  /** `attrgetter(place)(v)` on a build. */
  function BuildKey(b: Build, place: Place): Key {
    match place
    case BuildHash => StrKey(b.buildHash)
    case Major => IntKey(b.version.major)
    case Minor => IntKey(b.version.minor)
    case Patch => IntKey(b.version.patch)
    case Branch => StrKey(b.branch)
    case CommitTime => IntKey(b.commitTime)
  }

  /** Which arm of the `if` chain a query field takes. */
  datatype Criterion =
    | Newest        // `p == "^"`
    | Any           // `p == "*" or p is None`
    | Oldest        // `p == "-"`
    | Equal(k: Key) // any other value

  function TextCriterion(s: string): Criterion {
    if s == "^" then Newest else if s == "*" then Any else if s == "-" then Oldest else Equal(StrKey(s))
  }

  function OptionCriterion(o: Option<string>): Criterion {
    if o.None? then Any else TextCriterion(o.value)
  }

  function PositionCriterion(p: Position): Criterion {
    match p
    case Num(n) => Equal(IntKey(n))
    case Str(s) => TextCriterion(s)
  }

  /** `attrgetter(place)(s)` on the query, classified. */
  function CriterionOf(q: Query, place: Place): Criterion {
    match place
    case BuildHash => OptionCriterion(q.buildHash)
    case Major => PositionCriterion(q.major)
    case Minor => PositionCriterion(q.minor)
    case Patch => PositionCriterion(q.patch)
    case Branch => OptionCriterion(q.branch)
    case CommitTime =>
      match q.commitTime
      case Instant(t) => Equal(IntKey(t))
      case TimeStr(s) => TextCriterion(s)
  }

  function Keys(c: seq<Build>, place: Place): (ks: seq<Key>)
    ensures |ks| == |c|
    ensures forall i :: 0 <= i < |c| ==> ks[i] == BuildKey(c[i], place)
  {
    seq(|c|, i requires 0 <= i < |c| => BuildKey(c[i], place))
  }

  lemma UpperBoundRaised(ks: seq<Key>, m: Key, k: Key)
    requires forall x :: x in ks ==> !KeyLess(m, x)
    requires KeyLess(m, k)
    ensures forall x :: x in ks ==> !KeyLess(k, x)
  {
    forall x | x in ks
      ensures !KeyLess(k, x)
    {
      KeyLessIsStrictTotalOrder(x, m, k);
      KeyLessIsStrictTotalOrder(m, k, x);
      KeyLessIsStrictTotalOrder(x, k, m);
    }
  }

  lemma LowerBoundLowered(ks: seq<Key>, m: Key, k: Key)
    requires forall x :: x in ks ==> !KeyLess(x, m)
    requires KeyLess(k, m)
    ensures forall x :: x in ks ==> !KeyLess(x, k)
  {
    forall x | x in ks
      ensures !KeyLess(x, k)
    {
      KeyLessIsStrictTotalOrder(k, m, x);
      KeyLessIsStrictTotalOrder(m, x, k);
      KeyLessIsStrictTotalOrder(x, k, m);
    }
  }

  /** `max(...)`: a key of the list that no key of the list exceeds. */
  function MaxKey(ks: seq<Key>): (m: Key)
    requires |ks| > 0
    ensures m in ks
    ensures forall k :: k in ks ==> !KeyLess(m, k)
    decreases |ks|
  {
    if |ks| == 1 then KeyLessIsStrictTotalOrder(ks[0], ks[0], ks[0]); ks[0]
    else
      var init := ks[..|ks| - 1];
      var m := MaxKey(init);
      var k := ks[|ks| - 1];
      assert ks == init + [k];
      if KeyLess(m, k) then
        UpperBoundRaised(init, m, k);
        KeyLessIsStrictTotalOrder(k, k, k);
        k
      else m
  }

  /** `min(...)`: a key of the list that no key of the list undercuts. */
  function MinKey(ks: seq<Key>): (m: Key)
    requires |ks| > 0
    ensures m in ks
    ensures forall k :: k in ks ==> !KeyLess(k, m)
    decreases |ks|
  {
    if |ks| == 1 then KeyLessIsStrictTotalOrder(ks[0], ks[0], ks[0]); ks[0]
    else
      var init := ks[..|ks| - 1];
      var m := MinKey(init);
      var k := ks[|ks| - 1];
      assert ks == init + [k];
      if KeyLess(k, m) then
        LowerBoundLowered(init, m, k);
        KeyLessIsStrictTotalOrder(k, k, k);
        k
      else m
  }

  /** `r` is `c` with some elements left out, the rest in their order. */
  predicate IsSubsequence(r: seq<Build>, c: seq<Build>)
    decreases |c|
  {
    || |r| == 0
    || (|c| > 0 && ((r[0] == c[0] && IsSubsequence(r[1..], c[1..])) || IsSubsequence(r, c[1..])))
  }

  lemma {:induction false} SubsequenceReflexive(c: seq<Build>)
    ensures IsSubsequence(c, c)
    decreases |c|
  {
    if |c| > 0 {
      SubsequenceReflexive(c[1..]);
    }
  }

  lemma {:induction false} SubsequenceTransitive(a: seq<Build>, b: seq<Build>, c: seq<Build>)
    requires IsSubsequence(a, b) && IsSubsequence(b, c)
    ensures IsSubsequence(a, c)
    decreases |c|, |b|
  {
    if |a| > 0 {
      if IsSubsequence(b, c[1..]) {
        SubsequenceTransitive(a, b, c[1..]);
      } else if IsSubsequence(a, b[1..]) {
        SubsequenceTransitive(a, b[1..], c[1..]);
      } else {
        SubsequenceTransitive(a[1..], b[1..], c[1..]);
      }
    }
  }

  /** `[v for v in c if getter(v) == k]`. */
  function Keep(c: seq<Build>, place: Place, k: Key): (r: seq<Build>)
    ensures |r| <= |c|
    decreases |c|
  {
    if |c| == 0 then []
    else
      var rest := Keep(c[1..], place, k);
      if BuildKey(c[0], place) == k then [c[0]] + rest else rest
  }

  /** The comprehension keeps, in order, exactly the builds whose field equals `k`. */
  lemma {:induction false} KeepSpec(c: seq<Build>, place: Place, k: Key)
    ensures IsSubsequence(Keep(c, place, k), c)
    ensures forall b :: b in Keep(c, place, k) <==> b in c && BuildKey(b, place) == k
    decreases |c|
  {
    if |c| > 0 {
      KeepSpec(c[1..], place, k);
      var rest := Keep(c[1..], place, k);
      if BuildKey(c[0], place) == k {
        assert ([c[0]] + rest)[1..] == rest;
      }
      assert c == [c[0]] + c[1..];
    }
  }

  lemma KeepKeyed(c: seq<Build>, place: Place, k: Key)
    requires exists b :: b in c && BuildKey(b, place) == k
    ensures |Keep(c, place, k)| > 0
  {
    var b :| b in c && BuildKey(b, place) == k;
    KeepSpec(c, place, k);
    assert b in Keep(c, place, k);
  }

  /** One stage of the corrected matcher: a field's criterion applied to the current candidates. */
  function Stage(c: seq<Build>, place: Place, crit: Criterion): (r: seq<Build>)
    ensures IsSubsequence(r, c)
  {
    match crit
    case Any => SubsequenceReflexive(c); c
    case Equal(k) => KeepSpec(c, place, k); Keep(c, place, k)
    case Newest =>
      if |c| == 0 then [] else var m := MaxKey(Keys(c, place)); KeepSpec(c, place, m); Keep(c, place, m)
    case Oldest =>
      if |c| == 0 then [] else var m := MinKey(Keys(c, place)); KeepSpec(c, place, m); Keep(c, place, m)
  }

  /** `match`, with the fix: no candidates left (or none at all) gives `()`. */
  function Matching(c: seq<Build>, q: Query, places: seq<Place>): (r: seq<Build>)
    ensures IsSubsequence(r, c)
    decreases |places|
  {
    if |places| == 0 then SubsequenceReflexive(c); c
    else
      var next := Stage(c, places[0], CriterionOf(q, places[0]));
      if |next| == 0 then []
      else
        var r := Matching(next, q, places[1..]);
        SubsequenceTransitive(r, next, c);
        r
  }

  /** `match` as written: `max` or `min` over no builds raises ValueError. */
  function MatchingAsWritten(c: seq<Build>, q: Query, places: seq<Place>): (r: Result<seq<Build>, string>)
    ensures r.Failure? ==> |c| == 0
    decreases |places|
  {
    if |places| == 0 then Success(c)
    else
      var crit := CriterionOf(q, places[0]);
      if crit.Any? then MatchingAsWritten(c, q, places[1..])
      else if (crit.Newest? || crit.Oldest?) && |c| == 0 then Failure("max() or min() of an empty sequence")
      else
        var next := Stage(c, places[0], crit);
        if |next| == 0 then Success([]) else MatchingAsWritten(next, q, places[1..])
  }

  lemma {:induction false} AsWrittenAgrees(c: seq<Build>, q: Query, places: seq<Place>)
    requires |c| > 0
    ensures MatchingAsWritten(c, q, places) == Success(Matching(c, q, places))
    decreases |places|
  {
    if |places| > 0 {
      var next := Stage(c, places[0], CriterionOf(q, places[0]));
      if CriterionOf(q, places[0]).Any? {
        AsWrittenAgrees(c, q, places[1..]);
      } else if |next| > 0 {
        AsWrittenAgrees(next, q, places[1..]);
      }
    }
  }

  /** With no builds installed, `match("^.^.^")` raises instead of returning `()`. */
  lemma AsWrittenRaisesWithoutBuilds()
    ensures MatchingAsWritten([], Default(), Places).Failure?
  {
  }

  lemma {:induction false} NoBuildsNoMatch(q: Query, places: seq<Place>)
    ensures Matching([], q, places) == []
    decreases |places|
  {
    if |places| > 0 {
      NoBuildsNoMatch(q, places[1..]);
    }
  }

  /** `BInfoMatcher(builds).match(q)`, with the fix for an empty `builds`. */
  method Match(builds: seq<Build>, q: Query) returns (r: seq<Build>)
    ensures r == Matching(builds, q, Places)
  {
    if |builds| == 0 {
      NoBuildsNoMatch(q, Places);
      return [];
    }
    var versions := builds;
    for i := 0 to |Places|
      invariant |versions| > 0
      invariant Matching(versions, q, Places[i..]) == Matching(builds, q, Places)
    {
      assert Places[i..][1..] == Places[i + 1..];
      var place := Places[i];
      var crit := CriterionOf(q, place);
      if crit.Newest? {
        var maxP := MaxKey(Keys(versions, place));
        versions := Keep(versions, place, maxP);
      } else if crit.Any? {
        continue;
      } else if crit.Oldest? {
        var minP := MinKey(Keys(versions, place));
        versions := Keep(versions, place, minP);
      } else {
        versions := Keep(versions, place, crit.k);
      }
      if |versions| == 0 {
        return [];
      }
    }
    return versions;
  }

  /** Every key of the list comes from one of the builds. */
  lemma InKeys(c: seq<Build>, place: Place, b: Build)
    requires b in c
    ensures BuildKey(b, place) in Keys(c, place)
  {
    var i :| 0 <= i < |c| && c[i] == b;
    assert Keys(c, place)[i] == BuildKey(b, place);
  }

  /** `^` keeps exactly the builds whose field no other build exceeds. */
  lemma NewestKeepsTheLargest(c: seq<Build>, place: Place, b: Build)
    ensures b in Stage(c, place, Newest)
      <==> b in c && forall x :: x in c ==> !KeyLess(BuildKey(b, place), BuildKey(x, place))
  {
    if |c| > 0 {
      KeepSpec(c, place, MaxKey(Keys(c, place)));
    }
    if b in c {
      var m := MaxKey(Keys(c, place));
      var k := BuildKey(b, place);
      InKeys(c, place, b);
      KeyLessIsStrictTotalOrder(k, m, k);
      forall x | x in c
        ensures k == m ==> !KeyLess(k, BuildKey(x, place))
      {
        InKeys(c, place, x);
      }
      if forall x :: x in c ==> !KeyLess(k, BuildKey(x, place)) {
        var i :| 0 <= i < |c| && BuildKey(c[i], place) == m;
        assert !KeyLess(k, m);
      }
    }
  }

  /** `-` keeps exactly the builds whose field undercuts no other build's. */
  lemma OldestKeepsTheSmallest(c: seq<Build>, place: Place, b: Build)
    ensures b in Stage(c, place, Oldest)
      <==> b in c && forall x :: x in c ==> !KeyLess(BuildKey(x, place), BuildKey(b, place))
  {
    if |c| > 0 {
      KeepSpec(c, place, MinKey(Keys(c, place)));
    }
    if b in c {
      var m := MinKey(Keys(c, place));
      var k := BuildKey(b, place);
      InKeys(c, place, b);
      KeyLessIsStrictTotalOrder(k, m, k);
      forall x | x in c
        ensures k == m ==> !KeyLess(BuildKey(x, place), k)
      {
        InKeys(c, place, x);
      }
      if forall x :: x in c ==> !KeyLess(BuildKey(x, place), k) {
        var i :| 0 <= i < |c| && BuildKey(c[i], place) == m;
        assert !KeyLess(m, k);
      }
    }
  }

  /** `^` and `-` never empty a non-empty list: the extreme key belongs to some build. */
  lemma ExtremeStageNonEmpty(c: seq<Build>, place: Place, crit: Criterion)
    requires |c| > 0 && (crit.Newest? || crit.Oldest?)
    ensures |Stage(c, place, crit)| > 0
  {
    var ks := Keys(c, place);
    var m := if crit.Newest? then MaxKey(ks) else MinKey(ks);
    var i :| 0 <= i < |ks| && ks[i] == m;
    KeepKeyed(c, place, m);
  }

  /** One stage of `match`, then the rest. */
  lemma MatchingStep(c: seq<Build>, q: Query, places: seq<Place>)
    requires |places| > 0
    ensures Matching(c, q, places)
      == var next := Stage(c, places[0], CriterionOf(q, places[0]));
         if |next| == 0 then [] else Matching(next, q, places[1..])
  {
  }

  /** The newest builds by one numeric field (major, minor, patch or commit time). */
  function NewestBy(c: seq<Build>, place: Place): seq<Build> {
    Stage(c, place, Newest)
  }

  /** On a numeric field, `^` keeps the builds whose value is at least every other build's. */
  lemma NewestByValue(c: seq<Build>, place: Place, y: Build)
    requires place.Major? || place.Minor? || place.Patch? || place.CommitTime?
    ensures y in NewestBy(c, place) <==> y in c && forall x :: x in c ==> BuildKey(x, place).i <= BuildKey(y, place).i
  {
    NewestKeepsTheLargest(c, place, y);
  }

  /** A `*` (or absent) field leaves the candidates as they are. */
  lemma MatchingSkips(c: seq<Build>, q: Query, places: seq<Place>)
    requires |places| > 0 && CriterionOf(q, places[0]).Any?
    ensures Matching(c, q, places) == Matching(c, q, places[1..])
  {
    SubsequenceReflexive(c);
  }

  /** A `^` field narrows a non-empty list to its newest builds by that field. */
  lemma MatchingNarrows(c: seq<Build>, q: Query, places: seq<Place>)
    requires |c| > 0 && |places| > 0 && CriterionOf(q, places[0]).Newest?
    ensures Matching(c, q, places) == Matching(NewestBy(c, places[0]), q, places[1..])
  {
    ExtremeStageNonEmpty(c, places[0], Newest);
  }

  /** The default query `^.^.^` narrows by newest major, minor, patch and commit time in turn. */
  lemma DefaultStages(c: seq<Build>, q: Query)
    requires |c| > 0
    requires CriterionOf(q, BuildHash).Any? && CriterionOf(q, Branch).Any?
    requires CriterionOf(q, Major).Newest? && CriterionOf(q, Minor).Newest?
    requires CriterionOf(q, Patch).Newest? && CriterionOf(q, CommitTime).Newest?
    ensures Matching(c, q, Places)
      == NewestBy(NewestBy(NewestBy(NewestBy(c, Major), Minor), Patch), CommitTime)
  {
    var c1 := NewestBy(c, Major);
    var c2 := NewestBy(c1, Minor);
    var c3 := NewestBy(c2, Patch);
    ExtremeStageNonEmpty(c, Major, Newest);
    ExtremeStageNonEmpty(c1, Minor, Newest);
    ExtremeStageNonEmpty(c2, Patch, Newest);
    calc {
      Matching(c, q, Places);
      { MatchingSkips(c, q, Places); }
      Matching(c, q, [Major, Minor, Patch, Branch, CommitTime]);
      { MatchingNarrows(c, q, [Major, Minor, Patch, Branch, CommitTime]); }
      Matching(c1, q, [Minor, Patch, Branch, CommitTime]);
      { MatchingNarrows(c1, q, [Minor, Patch, Branch, CommitTime]); }
      Matching(c2, q, [Patch, Branch, CommitTime]);
      { MatchingNarrows(c2, q, [Patch, Branch, CommitTime]); }
      Matching(c3, q, [Branch, CommitTime]);
      { MatchingSkips(c3, q, [Branch, CommitTime]); }
      Matching(c3, q, [CommitTime]);
      { MatchingNarrows(c3, q, [CommitTime]); }
      Matching(NewestBy(c3, CommitTime), q, []);
    }
  }

  /**
   * The default query `^.^.^` (newest version, then newest commit) picks exactly the builds
   * that no build is newer than under `__lt__`.
   */
  lemma DefaultMatchesNewest(c: seq<Build>, b: Build)
    ensures b in Matching(c, Default(), Places) <==> b in c && forall x :: x in c ==> !BuildLess(b, x)
  {
    if |c| == 0 {
      NoBuildsNoMatch(Default(), Places);
      return;
    }
    DefaultStages(c, Default());
    NewestChain(c, b);
  }

  lemma NewestChain(c: seq<Build>, b: Build)
    ensures b in NewestBy(NewestBy(NewestBy(NewestBy(c, Major), Minor), Patch), CommitTime)
      <==> b in c && forall x :: x in c ==> !BuildLess(b, x)
  {
    if b in NewestBy(NewestBy(NewestBy(NewestBy(c, Major), Minor), Patch), CommitTime) {
      ChainSound(c, b);
    }
    if b in c && forall x :: x in c ==> !BuildLess(b, x) {
      ChainComplete(c, b);
    }
  }

  /** `d` holds exactly the builds of `c` whose numeric field `place` is largest. */
  ghost predicate Tops(c: seq<Build>, d: seq<Build>, place: Place)
    requires place.Major? || place.Minor? || place.Patch? || place.CommitTime?
  {
    forall y :: y in d <==> y in c && forall x :: x in c ==> BuildKey(x, place).i <= BuildKey(y, place).i
  }

  lemma NewestByTops(c: seq<Build>, place: Place)
    requires place.Major? || place.Minor? || place.Patch? || place.CommitTime?
    ensures Tops(c, NewestBy(c, place), place)
  {
    forall y {
      NewestByValue(c, place, y);
    }
  }

  /** A build the chain keeps is newer than or as new as any other. */
  lemma ChainSound(c: seq<Build>, b: Build)
    requires b in NewestBy(NewestBy(NewestBy(NewestBy(c, Major), Minor), Patch), CommitTime)
    ensures b in c && forall x :: x in c ==> !BuildLess(b, x)
  {
    var c1 := NewestBy(c, Major);
    var c2 := NewestBy(c1, Minor);
    var c3 := NewestBy(c2, Patch);
    var c4 := NewestBy(c3, CommitTime);
    NewestByTops(c, Major);
    NewestByTops(c1, Minor);
    NewestByTops(c2, Patch);
    NewestByTops(c3, CommitTime);
    TopsSound(c, c1, c2, c3, c4, b);
  }

  lemma TopsSound(c: seq<Build>, c1: seq<Build>, c2: seq<Build>, c3: seq<Build>, c4: seq<Build>, b: Build)
    requires Tops(c, c1, Major) && Tops(c1, c2, Minor) && Tops(c2, c3, Patch) && Tops(c3, c4, CommitTime)
    requires b in c4
    ensures b in c && forall x :: x in c ==> !BuildLess(b, x)
  {
    assert b in c3 && b in c2 && b in c1;
    forall x | x in c
      ensures !BuildLess(b, x)
    {
      if x.version.major == b.version.major {
        assert x in c1;
        if x.version.minor == b.version.minor {
          assert x in c2;
          if x.version.patch == b.version.patch {
            assert x in c3;
          }
        }
      }
    }
  }

  /** A build that no build is newer than survives every stage of the chain. */
  lemma ChainComplete(c: seq<Build>, b: Build)
    requires b in c && forall x :: x in c ==> !BuildLess(b, x)
    ensures b in NewestBy(NewestBy(NewestBy(NewestBy(c, Major), Minor), Patch), CommitTime)
  {
    var c1 := NewestBy(c, Major);
    var c2 := NewestBy(c1, Minor);
    var c3 := NewestBy(c2, Patch);
    var c4 := NewestBy(c3, CommitTime);
    NewestByTops(c, Major);
    NewestByTops(c1, Minor);
    NewestByTops(c2, Patch);
    NewestByTops(c3, CommitTime);
    TopsComplete(c, c1, c2, c3, c4, b);
  }

  lemma TopsComplete(c: seq<Build>, c1: seq<Build>, c2: seq<Build>, c3: seq<Build>, c4: seq<Build>, b: Build)
    requires Tops(c, c1, Major) && Tops(c1, c2, Minor) && Tops(c2, c3, Patch) && Tops(c3, c4, CommitTime)
    requires b in c && forall x :: x in c ==> !BuildLess(b, x)
    ensures b in c4
  {
    forall x | x in c
      ensures x.version.major <= b.version.major
    {
      assert !BuildLess(b, x);
    }
    assert b in c1;
    forall x | x in c1
      ensures x.version.minor <= b.version.minor
    {
      assert !BuildLess(b, x);
    }
    assert b in c2;
    forall x | x in c2
      ensures x.version.patch <= b.version.patch
    {
      assert !BuildLess(b, x);
    }
    assert b in c3;
    forall x | x in c3
      ensures x.commitTime <= b.commitTime
    {
      assert !BuildLess(b, x);
    }
  }

  /** A concrete value narrows to the builds that have it, when there are some. */
  lemma MatchingKeeps(c: seq<Build>, q: Query, places: seq<Place>, k: Key)
    requires |places| > 0 && CriterionOf(q, places[0]) == Equal(k)
    requires |Keep(c, places[0], k)| > 0
    ensures Matching(c, q, places) == Matching(Keep(c, places[0], k), q, places[1..])
  {
  }

  /** `^` picks the key `k` that some build has and no build exceeds. */
  lemma NewestIs(c: seq<Build>, place: Place, k: Key)
    requires exists b :: b in c && BuildKey(b, place) == k
    requires forall b :: b in c ==> !KeyLess(k, BuildKey(b, place))
    ensures NewestBy(c, place) == Keep(c, place, k)
  {
    var b :| b in c && BuildKey(b, place) == k;
    var m := MaxKey(Keys(c, place));
    var i :| 0 <= i < |c| && Keys(c, place)[i] == m;
    InKeys(c, place, b);
    KeyLessIsStrictTotalOrder(k, m, k);
  }

  /** `-` picks the key `k` that some build has and no build undercuts. */
  lemma OldestIs(c: seq<Build>, place: Place, k: Key)
    requires exists b :: b in c && BuildKey(b, place) == k
    requires forall b :: b in c ==> !KeyLess(BuildKey(b, place), k)
    ensures Stage(c, place, Oldest) == Keep(c, place, k)
  {
    var b :| b in c && BuildKey(b, place) == k;
    var m := MinKey(Keys(c, place));
    var i :| 0 <= i < |c| && Keys(c, place)[i] == m;
    InKeys(c, place, b);
    KeyLessIsStrictTotalOrder(k, m, k);
  }

  lemma {:induction false} KeepAppend(a: seq<Build>, b: seq<Build>, place: Place, k: Key)
    ensures Keep(a + b, place, k) == Keep(a, place, k) + Keep(b, place, k)
    decreases |a|
  {
    if |a| == 0 {
      assert a + b == b;
    } else {
      assert (a + b)[1..] == a[1..] + b;
      KeepAppend(a[1..], b, place, k);
    }
  }

  lemma {:induction false} KeepAll(c: seq<Build>, place: Place, k: Key)
    requires forall i :: 0 <= i < |c| ==> BuildKey(c[i], place) == k
    ensures Keep(c, place, k) == c
    decreases |c|
  {
    if |c| > 0 {
      KeepAll(c[1..], place, k);
    }
  }

  lemma {:induction false} KeepNone(c: seq<Build>, place: Place, k: Key)
    requires forall i :: 0 <= i < |c| ==> BuildKey(c[i], place) != k
    ensures Keep(c, place, k) == []
    decreases |c|
  {
    if |c| > 0 {
      KeepNone(c[1..], place, k);
    }
  }

  // ---------------------------------------------------------------------
  // The file's own matcher tests. Only the order of the commit dates matters, so they are
  // parameters constrained to the order of the dates the tests use.

  function Sample(t: seq<Time>): (c: seq<Build>)
    requires |t| == 9
    ensures |c| == 9
  {
    [
      Build(Semver.Version(1, 2, 3), "stable", "", t[0]),
      Build(Semver.Version(1, 2, 2), "stable", "", t[1]),
      Build(Semver.Version(1, 2, 1), "daily", "", t[2]),
      Build(Semver.Version(1, 2, 4), "stable", "", t[3]),
      Build(Semver.Version(3, 6, 14), "lts", "", t[4]),
      Build(Semver.Version(4, 2, 0), "stable", "", t[5]),
      Build(Semver.Version(4, 3, 0), "daily", "", t[6]),
      Build(Semver.Version(4, 3, 0), "daily", "", t[7]),
      Build(Semver.Version(4, 3, 1), "daily", "", t[8])
    ]
  }

  /**
   * 2020-05-04, 2020-04-02, 2020-03-01, 2020-06-03, 2024-07-16, 2024-07-16, 2024-07-30,
   * 2024-07-28 and 2024-07-20, in that order.
   */
  predicate SampleDates(t: seq<Time>) {
    && |t| == 9
    && t[2] < t[1] < t[0] < t[3] < t[4] == t[5] < t[8] < t[7] < t[6]
  }

  /** The 4.x builds are the last four. */
  lemma SampleMajorFour(t: seq<Time>)
    requires |t| == 9
    ensures var c := Sample(t);
      Keep(c, Major, IntKey(4)) == c[5..]
  {
    var c := Sample(t);
    assert c == c[..5] + c[5..];
    KeepAppend(c[..5], c[5..], Major, IntKey(4));
    KeepNone(c[..5], Major, IntKey(4));
    KeepAll(c[5..], Major, IntKey(4));
  }

  lemma SampleNewestMajor(t: seq<Time>)
    requires |t| == 9
    ensures var c := Sample(t);
      NewestBy(c, Major) == c[5..]
  {
    var c := Sample(t);
    assert c[5] in c;
    forall b | b in c
      ensures !KeyLess(IntKey(4), BuildKey(b, Major))
    {
      var i :| 0 <= i < 9 && c[i] == b;
    }
    NewestIs(c, Major, IntKey(4));
    SampleMajorFour(t);
  }

  /** Of the 4.x builds, the 4.3 ones are the last three. */
  lemma SampleMinorThree(t: seq<Time>)
    requires |t| == 9
    ensures var c := Sample(t);
      Keep(c[5..], Minor, IntKey(3)) == [c[6], c[7], c[8]]
  {
    var c := Sample(t);
    var c1 := c[5..];
    assert c1 == [c[5]] + [c[6], c[7], c[8]];
    KeepAppend([c[5]], [c[6], c[7], c[8]], Minor, IntKey(3));
    KeepNone([c[5]], Minor, IntKey(3));
    KeepAll([c[6], c[7], c[8]], Minor, IntKey(3));
  }

  /** The 4.x builds, then the 4.3 builds. */
  lemma SampleNewestMinor(t: seq<Time>)
    requires |t| == 9
    ensures var c := Sample(t);
      NewestBy(NewestBy(c, Major), Minor) == [c[6], c[7], c[8]]
  {
    var c := Sample(t);
    SampleNewestMajor(t);
    var c1 := c[5..];
    assert c1 == [c[5], c[6], c[7], c[8]];
    assert c[6] in c1;
    NewestIs(c1, Minor, IntKey(3));
    SampleMinorThree(t);
  }

  /**
   * `match(VersionSearchQuery("^", "^", "*"))`. The commit time defaults to `^`, so only the
   * newest of the three 4.3 builds is left; the three builds the test lists are what `*` gives.
   */
  lemma MatchLatestMinor(t: seq<Time>)
    requires SampleDates(t)
    ensures var c := Sample(t);
      Matching(c, Query(Str("^"), Str("^"), Str("*"), None, None, TimeStr("^")), Places) == [c[6]]
  {
    var q := Query(Str("^"), Str("^"), Str("*"), None, None, TimeStr("^"));
    assert CriterionOf(q, BuildHash).Any? && CriterionOf(q, Branch).Any? && CriterionOf(q, Patch).Any?;
    assert CriterionOf(q, Major).Newest? && CriterionOf(q, Minor).Newest?;
    assert CriterionOf(q, CommitTime).Newest?;
    LatestMinor(t, q);
  }

  /** With the commit time `*` as well, `match` keeps all three 4.3 builds, in their order. */
  lemma MatchLatestMinorAnyTime(t: seq<Time>)
    requires SampleDates(t)
    ensures var c := Sample(t);
      Matching(c, Query(Str("^"), Str("^"), Str("*"), None, None, TimeStr("*")), Places) == [c[6], c[7], c[8]]
  {
    var q := Query(Str("^"), Str("^"), Str("*"), None, None, TimeStr("*"));
    assert CriterionOf(q, BuildHash).Any? && CriterionOf(q, Branch).Any? && CriterionOf(q, Patch).Any?;
    assert CriterionOf(q, Major).Newest? && CriterionOf(q, Minor).Newest?;
    assert CriterionOf(q, CommitTime).Any?;
    LatestMinor(t, q);
  }

  lemma LatestMinor(t: seq<Time>, q: Query)
    requires SampleDates(t)
    requires CriterionOf(q, BuildHash).Any? && CriterionOf(q, Branch).Any? && CriterionOf(q, Patch).Any?
    requires CriterionOf(q, Major).Newest? && CriterionOf(q, Minor).Newest?
    requires CriterionOf(q, CommitTime).Newest? || CriterionOf(q, CommitTime).Any?
    ensures var c := Sample(t);
      Matching(c, q, Places) == if CriterionOf(q, CommitTime).Newest? then [c[6]] else [c[6], c[7], c[8]]
  {
    var c := Sample(t);
    var c1 := NewestBy(c, Major);
    SampleNewestMinor(t);
    var c2 := [c[6], c[7], c[8]];
    ExtremeStageNonEmpty(c, Major, Newest);
    calc {
      Matching(c, q, Places);
      { MatchingSkips(c, q, Places); }
      Matching(c, q, [Major, Minor, Patch, Branch, CommitTime]);
      { MatchingNarrows(c, q, [Major, Minor, Patch, Branch, CommitTime]); }
      Matching(c1, q, [Minor, Patch, Branch, CommitTime]);
      { MatchingNarrows(c1, q, [Minor, Patch, Branch, CommitTime]); }
      Matching(c2, q, [Patch, Branch, CommitTime]);
      { MatchingSkips(c2, q, [Patch, Branch, CommitTime]); }
      Matching(c2, q, [Branch, CommitTime]);
      { MatchingSkips(c2, q, [Branch, CommitTime]); }
      Matching(c2, q, [CommitTime]);
    }
    if CriterionOf(q, CommitTime).Newest? {
      SampleNewestCommit(t);
      MatchingNarrows(c2, q, [CommitTime]);
    } else {
      MatchingSkips(c2, q, [CommitTime]);
    }
  }

  /** Of the three 4.3 builds, the one of 2024-07-30 is the newest. */
  lemma SampleNewestCommit(t: seq<Time>)
    requires SampleDates(t)
    ensures var c := Sample(t);
      NewestBy([c[6], c[7], c[8]], CommitTime) == [c[6]]
  {
    var c := Sample(t);
    var c2 := [c[6], c[7], c[8]];
    assert c2[0] in c2;
    NewestIs(c2, CommitTime, IntKey(t[6]));
    KeepAppend([c2[0]], c2[1..], CommitTime, IntKey(t[6]));
    assert c2 == [c2[0]] + c2[1..];
    KeepNone(c2[1..], CommitTime, IntKey(t[6]));
    KeepAll([c2[0]], CommitTime, IntKey(t[6]));
  }

  /** A single candidate is its own newest. */
  lemma NewestOfOne(b: Build, place: Place)
    ensures NewestBy([b], place) == [b]
  {
    KeyLessIsStrictTotalOrder(BuildKey(b, place), BuildKey(b, place), BuildKey(b, place));
    NewestIs([b], place, BuildKey(b, place));
    KeepAll([b], place, BuildKey(b, place));
  }

  /** The 3.6.14 build is the only one with patch 14, and the only one on `lts`. */
  lemma SampleOnlyLts(t: seq<Time>)
    requires |t| == 9
    ensures var c := Sample(t);
      Keep(c, Patch, IntKey(14)) == [c[4]] && Keep(c, Branch, StrKey("lts")) == [c[4]]
  {
    var c := Sample(t);
    assert c == c[..4] + ([c[4]] + c[5..]);
    KeepAppend(c[..4], [c[4]] + c[5..], Patch, IntKey(14));
    KeepAppend([c[4]], c[5..], Patch, IntKey(14));
    KeepNone(c[..4], Patch, IntKey(14));
    KeepAll([c[4]], Patch, IntKey(14));
    KeepNone(c[5..], Patch, IntKey(14));
    KeepAppend(c[..4], [c[4]] + c[5..], Branch, StrKey("lts"));
    KeepAppend([c[4]], c[5..], Branch, StrKey("lts"));
    KeepNone(c[..4], Branch, StrKey("lts"));
    KeepAll([c[4]], Branch, StrKey("lts"));
    KeepNone(c[5..], Branch, StrKey("lts"));
  }

  /** `match(VersionSearchQuery("*", "*", 14))` finds the 3.6.14 build. */
  lemma MatchPatchFourteen(t: seq<Time>)
    requires SampleDates(t)
    ensures var c := Sample(t);
      Matching(c, Query(Str("*"), Str("*"), Num(14), None, None, TimeStr("^")), Places) == [c[4]]
  {
    SampleOnlyLts(t);
    OnlyLts(t, Query(Str("*"), Str("*"), Num(14), None, None, TimeStr("^")), Patch, IntKey(14));
  }

  /** `match(VersionSearchQuery("*", "*", "*", branch="lts"))` finds the 3.6.14 build. */
  lemma MatchLts(t: seq<Time>)
    requires SampleDates(t)
    ensures var c := Sample(t);
      Matching(c, Query(Str("*"), Str("*"), Str("*"), Some("lts"), None, TimeStr("^")), Places) == [c[4]]
  {
    SampleOnlyLts(t);
    OnlyLts(t, Query(Str("*"), Str("*"), Str("*"), Some("lts"), None, TimeStr("^")), Branch, StrKey("lts"));
  }

  lemma OnlyLts(t: seq<Time>, q: Query, place: Place, k: Key)
    requires |t| == 9
    requires place.Patch? || place.Branch?
    requires CriterionOf(q, BuildHash).Any? && CriterionOf(q, Major).Any? && CriterionOf(q, Minor).Any?
    requires CriterionOf(q, place) == Equal(k)
    requires CriterionOf(q, if place.Patch? then Branch else Patch).Any?
    requires CriterionOf(q, CommitTime).Newest?
    requires Keep(Sample(t), place, k) == [Sample(t)[4]]
    ensures Matching(Sample(t), q, Places) == [Sample(t)[4]]
  {
    var c := Sample(t);
    var c4 := [c[4]];
    NewestOfOne(c[4], CommitTime);
    MatchingSkips(c, q, Places);
    assert Places[1..] == [Major, Minor, Patch, Branch, CommitTime];
    MatchingSkips(c, q, [Major, Minor, Patch, Branch, CommitTime]);
    MatchingSkips(c, q, [Minor, Patch, Branch, CommitTime]);
    if place.Patch? {
      calc {
        Matching(c, q, [Patch, Branch, CommitTime]);
        { MatchingKeeps(c, q, [Patch, Branch, CommitTime], k); }
        Matching(c4, q, [Branch, CommitTime]);
        { MatchingSkips(c4, q, [Branch, CommitTime]); }
        Matching(c4, q, [CommitTime]);
      }
    } else {
      calc {
        Matching(c, q, [Patch, Branch, CommitTime]);
        { MatchingSkips(c, q, [Patch, Branch, CommitTime]); }
        Matching(c, q, [Branch, CommitTime]);
        { MatchingKeeps(c, q, [Branch, CommitTime], k); }
        Matching(c4, q, [CommitTime]);
      }
    }
    MatchingNarrows(c4, q, [CommitTime]);
  }

  /** Of the 4.x builds, the `daily` ones are the 4.3 builds. */
  lemma SampleDaily(t: seq<Time>)
    requires |t| == 9
    ensures var c := Sample(t);
      Keep(c[5..], Branch, StrKey("daily")) == [c[6], c[7], c[8]]
  {
    var c := Sample(t);
    assert c[5..] == [c[5]] + [c[6], c[7], c[8]];
    KeepAppend([c[5]], [c[6], c[7], c[8]], Branch, StrKey("daily"));
    KeepNone([c[5]], Branch, StrKey("daily"));
    KeepAll([c[6], c[7], c[8]], Branch, StrKey("daily"));
  }

  /** `match(VersionSearchQuery("^", "*", "*", branch="daily", commit_time="^"))` finds the 4.3.0 of 2024-07-30. */
  lemma MatchLatestDaily(t: seq<Time>)
    requires SampleDates(t)
    ensures var c := Sample(t);
      Matching(c, Query(Str("^"), Str("*"), Str("*"), Some("daily"), None, TimeStr("^")), Places) == [c[6]]
  {
    LatestDaily(t, Query(Str("^"), Str("*"), Str("*"), Some("daily"), None, TimeStr("^")));
  }

  lemma LatestDaily(t: seq<Time>, q: Query)
    requires SampleDates(t)
    requires CriterionOf(q, BuildHash).Any? && CriterionOf(q, Minor).Any? && CriterionOf(q, Patch).Any?
    requires CriterionOf(q, Major).Newest? && CriterionOf(q, Branch) == Equal(StrKey("daily"))
    requires CriterionOf(q, CommitTime).Newest?
    ensures Matching(Sample(t), q, Places) == [Sample(t)[6]]
  {
    var c := Sample(t);
    var c1 := c[5..];
    var c2 := [c[6], c[7], c[8]];
    SampleNewestMajor(t);
    SampleDaily(t);
    SampleNewestCommit(t);
    ExtremeStageNonEmpty(c, Major, Newest);
    calc {
      Matching(c, q, Places);
      { MatchingSkips(c, q, Places); }
      Matching(c, q, [Major, Minor, Patch, Branch, CommitTime]);
      { MatchingNarrows(c, q, [Major, Minor, Patch, Branch, CommitTime]); }
      Matching(c1, q, [Minor, Patch, Branch, CommitTime]);
      { MatchingSkips(c1, q, [Minor, Patch, Branch, CommitTime]); }
      Matching(c1, q, [Patch, Branch, CommitTime]);
      { MatchingSkips(c1, q, [Patch, Branch, CommitTime]); }
      Matching(c1, q, [Branch, CommitTime]);
      { MatchingKeeps(c1, q, [Branch, CommitTime], StrKey("daily")); }
      Matching(c2, q, [CommitTime]);
      { MatchingNarrows(c2, q, [CommitTime]); }
      Matching([c[6]], q, []);
    }
  }

  /** The 1.x builds are the first four. */
  lemma SampleOldestMajor(t: seq<Time>)
    requires |t| == 9
    ensures var c := Sample(t);
      Stage(c, Major, Oldest) == c[..4]
  {
    var c := Sample(t);
    assert c[0] in c;
    forall b | b in c
      ensures !KeyLess(BuildKey(b, Major), IntKey(1))
    {
      var i :| 0 <= i < 9 && c[i] == b;
    }
    OldestIs(c, Major, IntKey(1));
    SampleMajorOne(t);
  }

  lemma SampleMajorOne(t: seq<Time>)
    requires |t| == 9
    ensures var c := Sample(t);
      Keep(c, Major, IntKey(1)) == c[..4]
  {
    var c := Sample(t);
    assert c == c[..4] + c[4..];
    KeepAppend(c[..4], c[4..], Major, IntKey(1));
    KeepAll(c[..4], Major, IntKey(1));
    KeepNone(c[4..], Major, IntKey(1));
  }

  /** Among the 1.x builds, 1.2.4 has the largest patch. */
  lemma SampleNewestPatch(t: seq<Time>)
    requires |t| == 9
    ensures var c := Sample(t);
      NewestBy(c[..4], Patch) == [c[3]]
  {
    var c := Sample(t);
    var c1 := c[..4];
    assert c1 == [c[0], c[1], c[2]] + [c[3]];
    assert c[3] in c1;
    NewestIs(c1, Patch, IntKey(4));
    KeepAppend([c[0], c[1], c[2]], [c[3]], Patch, IntKey(4));
    KeepNone([c[0], c[1], c[2]], Patch, IntKey(4));
    KeepAll([c[3]], Patch, IntKey(4));
  }

  /** `match(VersionSearchQuery("-", "*", "^"))` finds 1.2.4. */
  lemma MatchOldestMajor(t: seq<Time>)
    requires SampleDates(t)
    ensures var c := Sample(t);
      Matching(c, Query(Str("-"), Str("*"), Str("^"), None, None, TimeStr("^")), Places) == [c[3]]
  {
    OldestMajor(t, Query(Str("-"), Str("*"), Str("^"), None, None, TimeStr("^")));
  }

  lemma OldestMajor(t: seq<Time>, q: Query)
    requires |t| == 9
    requires CriterionOf(q, BuildHash).Any? && CriterionOf(q, Minor).Any? && CriterionOf(q, Branch).Any?
    requires CriterionOf(q, Major).Oldest? && CriterionOf(q, Patch).Newest?
    requires CriterionOf(q, CommitTime).Newest?
    ensures Matching(Sample(t), q, Places) == [Sample(t)[3]]
  {
    var c := Sample(t);
    var c1 := c[..4];
    SampleOldestMajor(t);
    SampleNewestPatch(t);
    NewestOfOne(c[3], CommitTime);
    calc {
      Matching(c, q, Places);
      { MatchingSkips(c, q, Places); }
      Matching(c, q, [Major, Minor, Patch, Branch, CommitTime]);
      { MatchingStep(c, q, [Major, Minor, Patch, Branch, CommitTime]); }
      Matching(c1, q, [Minor, Patch, Branch, CommitTime]);
      { MatchingSkips(c1, q, [Minor, Patch, Branch, CommitTime]); }
      Matching(c1, q, [Patch, Branch, CommitTime]);
      { MatchingNarrows(c1, q, [Patch, Branch, CommitTime]); }
      Matching([c[3]], q, [Branch, CommitTime]);
      { MatchingSkips([c[3]], q, [Branch, CommitTime]); }
      Matching([c[3]], q, [CommitTime]);
      { MatchingNarrows([c[3]], q, [CommitTime]); }
      Matching([c[3]], q, []);
    }
  }
}
