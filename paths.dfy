/**
 * `pathlib` paths as sequences of components from the root (absolute
 * paths only), with the pure path operations the launcher uses: `/`,
 * `.parent`, `.name`, `.suffixes` and `.stem`.
 */
module Paths {

  type Path = seq<string>

  /** `p / c` for a single component `c` (no '/'); joining "" leaves the path as it is. */
  function Join(p: Path, c: string): (r: Path)
    ensures c == "" ==> r == p
    ensures c != "" ==> |r| == |p| + 1 && r[..|p|] == p && r[|p|] == c
  {
    if c == "" then p else p + [c]
  }

  /** `p.parent`; the root is its own parent. */
  function Parent(p: Path): (r: Path)
    ensures |p| > 0 ==> r == p[..|p| - 1]
  {
    if |p| == 0 then p else p[..|p| - 1]
  }

  /** `p.name`: the last component, "" for the root. */
  function Name(p: Path): string {
    if |p| == 0 then "" else p[|p| - 1]
  }

  lemma ParentOfJoin(p: Path, c: string)
    requires c != ""
    ensures Parent(Join(p, c)) == p && Name(Join(p, c)) == c
  {
  }

  /** `s.split(sep)`: the pieces between occurrences of `sep`, at least one. */
  function Split(s: string, sep: char): (r: seq<string>)
    ensures |r| > 0
    ensures forall i :: 0 <= i < |r| ==> sep !in r[i]
    decreases |s|
  {
    if |s| == 0 then [""]
    else
      var rest := Split(s[1..], sep);
      if s[0] == sep then [""] + rest else [[s[0]] + rest[0]] + rest[1..]
  }

  /** A string without the separator splits into itself alone. */
  lemma {:induction false} SplitNoSeparator(s: string, sep: char)
    requires sep !in s
    ensures Split(s, sep) == [s]
    decreases |s|
  {
    if |s| > 0 {
      SplitNoSeparator(s[1..], sep);
      assert [s[0]] + s[1..] == s;
    }
  }

  /** Splitting at the first separator: the piece before it, then the pieces of the rest. */
  lemma {:induction false} SplitAtFirst(a: string, b: string, sep: char)
    requires sep !in a
    ensures Split(a + [sep] + b, sep) == [a] + Split(b, sep)
    decreases |a|
  {
    var s := a + [sep] + b;
    if |a| == 0 {
      assert s[1..] == b;
    } else {
      assert s[1..] == a[1..] + [sep] + b;
      SplitAtFirst(a[1..], b, sep);
      assert [a[0]] + a[1..] == a;
    }
  }

  /** `s.lstrip(c)`. */
  function LStrip(s: string, c: char): (r: string)
    ensures |r| == 0 || r[0] != c
    decreases |s|
  {
    if |s| > 0 && s[0] == c then LStrip(s[1..], c) else s
  }

  /** `PurePath.suffixes` of a file name. */
  function Suffixes(name: string): (r: seq<string>)
  {
    if |name| > 0 && name[|name| - 1] == '.' then []
    else
      var parts := Split(LStrip(name, '.'), '.');
      seq(|parts| - 1, i requires 0 <= i < |parts| - 1 => "." + parts[i + 1])
  }

  /** The index of the last `c` in `s`, or -1 (`str.rfind`). */
  function RFind(s: string, c: char): (i: int)
    ensures -1 <= i < |s|
    ensures 0 <= i ==> s[i] == c && c !in s[i + 1..]
    ensures i == -1 ==> c !in s
    decreases |s|
  {
    if |s| == 0 then -1
    else if s[|s| - 1] == c then |s| - 1
    else RFind(s[..|s| - 1], c)
  }

  /** The last `c` of `a + [c] + b`, when `b` has none, is the one after `a`. */
  lemma {:induction false} RFindAfter(a: string, b: string, c: char)
    requires c !in b
    ensures RFind(a + [c] + b, c) == |a|
    decreases |b|
  {
    var s := a + [c] + b;
    if |b| > 0 {
      assert s[..|s| - 1] == a + [c] + b[..|b| - 1];
      RFindAfter(a, b[..|b| - 1], c);
    }
  }

  /** `PurePath.stem` of a file name: the name without its last suffix. */
  function Stem(name: string): string {
    var i := RFind(name, '.');
    if 0 < i < |name| - 1 then name[..i] else name
  }

  /**
   * The parts of a file system the launcher looks at: `is_dir`, `is_file`
   * and the names `iterdir` lists in a directory, in listing order.
   */
  datatype FileSystem = FileSystem(
    isDir: Path -> bool,
    isFile: Path -> bool,
    listDir: Path -> seq<string>)
}
