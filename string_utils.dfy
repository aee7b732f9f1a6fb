/**
 * Post-processing of release notes for display: list items get a bullet
 * after their marker, the Markdown is turned into plain text (an abstract
 * function here), a blank line after a colon is dropped, and a leading
 * "What's Changed" heading is removed. Lines are split as Python's
 * `str.splitlines` splits them and joined with `"\n"`.
 */
module StringUtils {

  import opened Wrappers
  import Text

  // ---------------------------------------------------------------------
  // Lines.

  /** The characters `str.splitlines` breaks at (`"\r\n"` counts as one break). */
  predicate LineBreak(c: char) {
    c == '\n' || c == '\r' || c == '\U{0b}' || c == '\U{0c}' || c == '\U{1c}' || c == '\U{1d}' || c == '\U{1e}'
    || c == '\U{85}' || c == '\U{2028}' || c == '\U{2029}'
  }

  predicate NoBreak(s: string) {
    forall i :: 0 <= i < |s| ==> !LineBreak(s[i])
  }

  /** The position of the first line break in `s`, or `|s|` when there is none. */
  function FirstBreak(s: string): (i: nat)
    ensures i <= |s| && NoBreak(s[..i])
    ensures i < |s| ==> LineBreak(s[i])
  {
    if |s| == 0 || LineBreak(s[0]) then 0
    else
      var j := FirstBreak(s[1..]);
      assert s[..j + 1] == [s[0]] + s[1..][..j];
      j + 1
  }

  /** A break-free text followed by a break (or by nothing) has its first break right after it. */
  lemma {:induction false} FirstBreakAfter(a: string, b: string)
    requires NoBreak(a)
    requires |b| > 0 ==> LineBreak(b[0])
    ensures FirstBreak(a + b) == |a|
  {
    if |a| == 0 {
      assert a + b == b;
    } else {
      assert (a + b)[0] == a[0];
      assert (a + b)[1..] == a[1..] + b;
      assert NoBreak(a[1..]) by {
        forall k | 0 <= k < |a[1..]|
          ensures !LineBreak(a[1..][k])
        {
          assert a[1..][k] == a[k + 1];
        }
      }
      FirstBreakAfter(a[1..], b);
    }
  }

  /** `s.splitlines()`: the text between breaks; a final break does not start another line. */
  function SplitLines(s: string): (r: seq<string>)
    ensures forall k :: 0 <= k < |r| ==> NoBreak(r[k])
    ensures |s| > 0 <==> |r| > 0
    decreases |s|
  {
    if |s| == 0 then []
    else
      var i := FirstBreak(s);
      if i == |s| then [s]
      else
        var next := if s[i] == '\r' && i + 1 < |s| && s[i + 1] == '\n' then i + 2 else i + 1;
        [s[..i]] + SplitLines(s[next..])
  }

  /** `"\n".join(lines)`. */
  function JoinLines(lines: seq<string>): (r: string)
    ensures |lines| == 0 ==> r == ""
    ensures |lines| > 0 ==> Text.StartsWith(r, lines[0])
  {
    if |lines| == 0 then ""
    else if |lines| == 1 then lines[0]
    else lines[0] + "\n" + JoinLines(lines[1..])
  }

  /** Lines without breaks, the last one not empty, survive joining and splitting again. */
  lemma {:induction false} SplitJoinedLines(lines: seq<string>)
    requires forall k :: 0 <= k < |lines| ==> NoBreak(lines[k])
    requires |lines| > 0 ==> lines[|lines| - 1] != ""
    ensures SplitLines(JoinLines(lines)) == lines
  {
    if |lines| == 1 {
      FirstBreakAfter(lines[0], "");
      assert lines[0] + "" == lines[0];
    } else if |lines| > 1 {
      var s := JoinLines(lines);
      var rest := JoinLines(lines[1..]);
      assert s == lines[0] + ("\n" + rest);
      FirstBreakAfter(lines[0], "\n" + rest);
      var i := FirstBreak(s);
      assert s[..i] == lines[0];
      assert s[i + 1..] == rest;
      SplitJoinedLines(lines[1..]);
    }
  }

  /** A line followed by more lines joins as the line, a newline and the rest. */
  lemma JoinLinesCons(line: string, tail: seq<string>)
    requires |tail| > 0
    ensures JoinLines([line] + tail) == line + "\n" + JoinLines(tail)
  {
    assert ([line] + tail)[1..] == tail;
  }

  /** Splitting at a first break that is a newline: the line before it, then the lines after it. */
  lemma SplitLinesAtNewline(s: string)
    requires FirstBreak(s) < |s| && s[FirstBreak(s)] == '\n'
    ensures SplitLines(s) == [s[..FirstBreak(s)]] + SplitLines(s[FirstBreak(s) + 1..])
  {
  }

  /** Every break of `s` is a newline. */
  predicate NewlinesOnly(s: string) {
    forall k :: 0 <= k < |s| && LineBreak(s[k]) ==> s[k] == '\n'
  }

  lemma NewlinesOnlySuffix(s: string, j: nat)
    requires NewlinesOnly(s) && j <= |s|
    ensures NewlinesOnly(s[j..])
  {
    forall k | 0 <= k < |s[j..]| && LineBreak(s[j..][k])
      ensures s[j..][k] == '\n'
    {
      assert s[j..][k] == s[j + k];
    }
  }

  /** A text whose only breaks are `"\n"` and which does not end with one is the join of its lines. */
  lemma {:induction false} JoinSplitLines(s: string)
    requires NewlinesOnly(s)
    requires |s| > 0 ==> s[|s| - 1] != '\n'
    ensures JoinLines(SplitLines(s)) == s
    decreases |s|
  {
    if |s| > 0 {
      var i := FirstBreak(s);
      if i < |s| {
        var rest := s[i + 1..];
        assert |rest| > 0 && rest[|rest| - 1] == s[|s| - 1];
        NewlinesOnlySuffix(s, i + 1);
        JoinSplitLines(rest);
        SplitLinesAtNewline(s);
        JoinLinesCons(s[..i], SplitLines(rest));
        assert s == s[..i] + "\n" + rest;
      }
    }
  }

  // ---------------------------------------------------------------------
  // Bullets.

  /** A list item: a line starting with `-` or `*`. */
  predicate Marked(line: string) {
    Text.StartsWith(line, "-") || Text.StartsWith(line, "*")
  }

  /** A list item gets `" •"` right after its marker; any other line is left as it is. */
  function Bullet(line: string): (r: string)
    ensures Marked(line) ==> |r| == |line| + 2 && r[0] == line[0] && r[1..3] == " •" && r[3..] == line[1..]
    ensures !Marked(line) ==> r == line
    ensures NoBreak(line) ==> NoBreak(r)
    ensures |r| > 0 <==> |line| > 0
  {
    if Marked(line) then line[..1] + " •" + line[1..] else line
  }

  /** No two lines get the same bulleted form, so nothing of a line is lost. */
  lemma BulletInjective(a: string, b: string)
    requires Bullet(a) == Bullet(b)
    ensures a == b
  {
    if |a| > 0 {
      assert a[..1] == [a[0]] && Bullet(a)[..1] == [a[0]];
    }
    if |b| > 0 {
      assert b[..1] == [b[0]] && Bullet(b)[..1] == [b[0]];
    }
    if Marked(a) && Marked(b) {
      assert a == [a[0]] + a[1..] && b == [b[0]] + b[1..];
    }
  }

  /** Every line bulleted, in place. */
  function Bulleted(lines: seq<string>): (r: seq<string>)
    ensures |r| == |lines|
    ensures forall k :: 0 <= k < |lines| && !Marked(lines[k]) ==> r[k] == lines[k]
  {
    seq(|lines|, k requires 0 <= k < |lines| => Bullet(lines[k]))
  }

  /** What `add_bullet_point` returns. */
  function BulletText(text: string): string {
    JoinLines(Bulleted(SplitLines(text)))
  }

  /**
   * `add_bullet_point(text)`: the lines of the text, each list item bulleted in place, joined
   * with `"\n"`.
   */
  method AddBulletPoint(text: string) returns (r: string)
    ensures r == BulletText(text)
  {
    var original := SplitLines(text);
    var lines := original;
    for i := 0 to |lines|
      invariant |lines| == |original|
      invariant forall k :: 0 <= k < i ==> lines[k] == Bullet(original[k])
      invariant forall k :: i <= k < |lines| ==> lines[k] == original[k]
    {
      var line := lines[i];
      if Text.StartsWith(line, "-") || Text.StartsWith(line, "*") {
        lines := lines[i := line[..1] + " •" + line[1..]];
      }
    }
    assert lines == Bulleted(original);
    r := JoinLines(lines);
  }

  /**
   * When the text's last line is not empty, the result has exactly the text's lines, in order,
   * each bulleted: the count is kept and only list items change.
   */
  lemma BulletTextLines(text: string)
    requires var lines := SplitLines(text); |lines| > 0 ==> lines[|lines| - 1] != ""
    ensures SplitLines(BulletText(text)) == Bulleted(SplitLines(text))
  {
    var lines := Bulleted(SplitLines(text));
    SplitJoinedLines(lines);
  }

  /** A line and two breaks split into the line and an empty one. */
  lemma SplitLinesTrailingBlank(line: string)
    requires NoBreak(line)
    ensures SplitLines(line + "\n\n") == [line, ""]
  {
    var s := line + "\n\n";
    FirstBreakAfter(line, "\n\n");
    assert s[|line|] == '\n' && s[..|line|] == line && s[|line| + 1..] == "\n";
    SplitLinesAtNewline(s);
    assert SplitLines("\n") == [""] by {
      assert FirstBreak("\n") == 0;
      SplitLinesAtNewline("\n");
      assert "\n"[..0] == "" && "\n"[1..] == "";
    }
  }

  /**
   * A trailing blank line does not survive: a text ending in a line and two breaks has that line
   * and an empty one, but the result ends after the line's own break.
   */
  lemma TrailingBlankLineDropped(line: string)
    requires NoBreak(line)
    ensures SplitLines(line + "\n\n") == [line, ""]
    ensures BulletText(line + "\n\n") == Bullet(line) + "\n"
  {
    SplitLinesTrailingBlank(line);
    assert Bulleted([line, ""]) == [Bullet(line), ""];
    JoinLinesCons(Bullet(line), [""]);
  }

  // ---------------------------------------------------------------------
  // The blank line after a colon.

  /** `re.sub(r":\n\n", ":\n", s)`: one left-to-right pass over non-overlapping matches. */
  function CollapseColonBlank(s: string): (r: string)
    ensures |r| <= |s|
    decreases |s|
  {
    if |s| == 0 then ""
    else if Text.StartsWith(s, ":\n\n") then ":\n" + CollapseColonBlank(s[3..])
    else [s[0]] + CollapseColonBlank(s[1..])
  }

  /** Only newlines are removed: every other character keeps its count. */
  lemma {:induction false} CollapseRemovesOnlyNewlines(s: string)
    ensures forall c :: c != '\n' ==> multiset(CollapseColonBlank(s))[c] == multiset(s)[c]
    ensures multiset(CollapseColonBlank(s))['\n'] <= multiset(s)['\n']
    decreases |s|
  {
    if |s| > 0 {
      if Text.StartsWith(s, ":\n\n") {
        CollapseRemovesOnlyNewlines(s[3..]);
        assert s == ":\n\n" + s[3..];
      } else {
        CollapseRemovesOnlyNewlines(s[1..]);
        assert s == [s[0]] + s[1..];
      }
    }
  }

  /** A text without a colon followed by a blank line is left as it is. */
  lemma {:induction false} CollapseWithoutMatch(s: string)
    requires !Text.Contains(s, ":\n\n")
    ensures CollapseColonBlank(s) == s
    decreases |s|
  {
    if |s| > 0 {
      CollapseWithoutMatch(s[1..]);
      assert s == [s[0]] + s[1..];
    }
  }

  /** A single pass: a colon followed by two blank lines keeps one of them. */
  lemma OnePass()
    ensures CollapseColonBlank(":\n\n\n") == ":\n\n"
  {
    assert Text.StartsWith(":\n\n\n", ":\n\n");
    assert ":\n\n\n"[3..] == "\n";
    assert !Text.StartsWith("\n", ":\n\n");
    assert "\n"[1..] == "";
  }

  // ---------------------------------------------------------------------
  // The whole cleaner.

  /** The heading `patch_note_cleaner` removes. */
  const Heading: string := "What's Changed"

  /**
   * The line edit of `patch_note_cleaner`: `lines[0]` raises IndexError when there are no
   * lines; otherwise the first line goes exactly when it starts with the heading, and the rest
   * is kept.
   */
  function DropHeading(lines: seq<string>): (r: Result<seq<string>, string>)
    ensures r.Failure? <==> |lines| == 0
    ensures r.Success? ==> |r.value| <= |lines|
    ensures r.Success? ==> (|r.value| == |lines| - 1 <==> Text.StartsWith(lines[0], Heading))
    ensures r.Success? ==> r.value == lines[|lines| - |r.value|..]
  {
    if |lines| == 0 then Failure("IndexError")
    else if Text.StartsWith(lines[0], Heading) then Success(lines[1..])
    else Success(lines)
  }

  /**
   * `patch_note_cleaner(text)`, with `markdown_to_text` given as `markdownToText`: bullet the
   * list items first, convert, drop the blank line after each colon, then drop a leading
   * heading. A text that converts to nothing raises IndexError.
   */
  method PatchNoteCleaner(text: string, markdownToText: string -> string) returns (r: Result<string, string>)
    ensures var lines := SplitLines(CollapseColonBlank(markdownToText(BulletText(text))));
      && (r.Failure? <==> lines == [])
      && (r.Success? ==> r.value == JoinLines(DropHeading(lines).value))
  {
    var t := AddBulletPoint(text);
    t := markdownToText(t);
    t := CollapseColonBlank(t);
    var lines := SplitLines(t);
    var kept := DropHeading(lines);
    if kept.Failure? {
      return Failure(kept.error);
    }
    r := Success(JoinLines(kept.value));
  }
}
