/**
 * Renaming a build folder: the new name is the one typed, lower-cased and
 * with spaces turned into hyphens, placed beside the old folder; the task
 * reports `finished` with the new path, or `failure` when the rename
 * fails. Paths are POSIX paths; the rename itself is the file system's.
 */
module Renamer {

  import opened Paths
  import Text

  /** `name.lower().replace(" ", "-")`. */
  function Slug(name: string): (r: string)
    ensures |r| == |name|
    ensures forall i :: 0 <= i < |name| ==>
      r[i] == if Text.LowerChar(name[i]) == ' ' then '-' else Text.LowerChar(name[i])
  {
    var lower := Text.Lower(name);
    seq(|lower|, i requires 0 <= i < |lower| => if lower[i] == ' ' then '-' else lower[i])
  }

  /** A slug has no spaces, and turning it into a slug again leaves it as it is. */
  lemma SlugIsFixed(name: string)
    ensures ' ' !in Slug(name)
    ensures Slug(Slug(name)) == Slug(name)
  {
    var s := Slug(name);
    forall i | 0 <= i < |s|
      ensures s[i] != ' ' && Slug(s)[i] == s[i]
    {
      var c := Text.LowerChar(name[i]);
      assert Text.LowerChar(c) == c;
    }
  }

  /** The components a relative POSIX path text names: empty and `.` pieces vanish. */
  function Components(s: string): (r: seq<string>)
    ensures forall i :: 0 <= i < |r| ==> r[i] != "" && r[i] != "." && '/' !in r[i]
  {
    var pieces := Split(s, '/');
    Significant(pieces)
  }

  /** The pieces that name a component, in order. */
  function Significant(pieces: seq<string>): (r: seq<string>)
    requires forall i :: 0 <= i < |pieces| ==> '/' !in pieces[i]
    ensures forall i :: 0 <= i < |r| ==> r[i] != "" && r[i] != "." && '/' !in r[i]
  {
    if |pieces| == 0 then []
    else if pieces[0] == "" || pieces[0] == "." then Significant(pieces[1..])
    else [pieces[0]] + Significant(pieces[1..])
  }

  /** `p / s` for a text `s`: an absolute `s` replaces `p`; a relative one adds its components. */
  function JoinText(p: Path, s: string): Path {
    if |s| > 0 && s[0] == '/' then Components(s) else p + Components(s)
  }

  /** The target of `RenameTask`: the source's parent joined with the slug of the name typed. */
  function Target(src: Path, dstName: string): Path {
    JoinText(Parent(src), Slug(dstName))
  }

  /**
   * When the slug is a single component (no `/`, neither empty nor `.`), the target sits in the
   * source's own parent directory under the slug.
   */
  lemma TargetIsSibling(src: Path, dstName: string)
    requires var s := Slug(dstName); '/' !in s && s != "" && s != "."
    ensures Parent(Target(src, dstName)) == Parent(src)
    ensures Name(Target(src, dstName)) == Slug(dstName)
  {
    var s := Slug(dstName);
    SplitNoSeparator(s, '/');
    assert Significant([s]) == [s] + Significant([s][1..]);
    assert Components(s) == [s];
    assert s[0] != '/';
  }

  /** An empty name gives the source's parent itself, not a folder beside the source. */
  lemma EmptyNameTargetsParent(src: Path)
    ensures Target(src, "") == Parent(src)
  {
    assert Split("", '/') == [""];
  }

  datatype RenameEvent = RenameFinished(target: Path) | RenameFailure

  /** What `RenameTask.run` sends and whether it raises, given whether the rename raises OSError. */
  datatype RenameOutcome = RenameOutcome(events: seq<RenameEvent>, raised: bool)

  /**
   * `RenameTask.run`: on success one `finished` with the target and nothing raised; on OSError
   * one `failure`, no `finished`, and the error raised again.
   */
  function Run(src: Path, dstName: string, osError: bool): (r: RenameOutcome)
    ensures |r.events| == 1
    ensures r.raised <==> osError
    ensures r.events[0].RenameFinished? <==> !osError
    ensures r.events[0].RenameFinished? ==> r.events[0].target == Target(src, dstName)
  {
    if osError then RenameOutcome([RenameFailure], true)
    else RenameOutcome([RenameFinished(Target(src, dstName))], false)
  }
}
