/**
 * Archive extraction bookkeeping: which extractor a file's suffixes select,
 * the progress reports sent while the members are written out, the folder
 * returned, and when the extraction task reports `finished`. Writing the
 * members, mounting a disk image and copying from it are file-system work
 * and are not part of this model; an archive is the list of its members.
 */
module Extractor {

  import opened Wrappers
  import opened Paths
  import Text

  /** An archive member: its name inside the archive and its uncompressed size. */
  datatype Member = Member(name: string, size: nat)

  datatype ArchiveKind = ZipArchive | TarArchive | DmgImage

  // ---------------------------------------------------------------------
  // Choosing the extractor.

  /**
   * The dispatch as written: `suffixes[-1]` on a name with no suffix, and
   * `suffixes[-2]` on a name with one suffix that is not `.zip`, raise
   * IndexError before `.dmg` is looked at.
   */
  function DispatchAsWritten(suffixes: seq<string>): (r: Result<Option<ArchiveKind>, string>)
    ensures r.Failure? <==> |suffixes| == 0 || (|suffixes| == 1 && suffixes[0] != ".zip")
  {
    if |suffixes| == 0 then Failure("IndexError")
    else if suffixes[|suffixes| - 1] == ".zip" then Success(Some(ZipArchive))
    else if |suffixes| < 2 then Failure("IndexError")
    else if suffixes[|suffixes| - 2] == ".tar" then Success(Some(TarArchive))
    else if suffixes[|suffixes| - 1] == ".dmg" then Success(Some(DmgImage))
    else Success(None)
  }

  /**
   * A disk image whose name has no dot but the one before `dmg`, such as `Blender.dmg`, has the
   * single suffix `.dmg`, so the code raises IndexError where the intended dispatch mounts it.
   */
  lemma SingleSuffixImageRaises(stem: string)
    requires |stem| > 0 && '.' !in stem
    ensures Suffixes(stem + ".dmg") == [".dmg"]
    ensures DispatchAsWritten(Suffixes(stem + ".dmg")) == Failure("IndexError")
    ensures Dispatch(Suffixes(stem + ".dmg")) == Some(DmgImage)
  {
    var name := stem + ".dmg";
    assert name == stem + ['.'] + "dmg";
    assert name[0] == stem[0] != '.';
    assert LStrip(name, '.') == name;
    SplitAtFirst(stem, "dmg", '.');
    SplitNoSeparator("dmg", '.');
    var parts := Split(LStrip(name, '.'), '.');
    assert parts == [stem, "dmg"];
    assert name[|name| - 1] == 'g';
    assert Suffixes(name) == seq(1, i requires 0 <= i < 1 => "." + parts[i + 1]);
    assert "." + parts[1] == ".dmg";
  }

  /**
   * The dispatch the code intends: the last suffix `.zip` selects zip, else a second-to-last
   * `.tar` selects tar, else a last suffix `.dmg` selects the disk image, else nothing.
   */
  function Dispatch(suffixes: seq<string>): (r: Option<ArchiveKind>)
    ensures r == Some(ZipArchive) <==> |suffixes| >= 1 && suffixes[|suffixes| - 1] == ".zip"
    ensures r == Some(TarArchive) <==>
      |suffixes| >= 2 && suffixes[|suffixes| - 1] != ".zip" && suffixes[|suffixes| - 2] == ".tar"
    ensures r == Some(DmgImage) <==>
      |suffixes| >= 1 && suffixes[|suffixes| - 1] == ".dmg" && !(|suffixes| >= 2 && suffixes[|suffixes| - 2] == ".tar")
  {
    if |suffixes| >= 1 && suffixes[|suffixes| - 1] == ".zip" then Some(ZipArchive)
    else if |suffixes| >= 2 && suffixes[|suffixes| - 2] == ".tar" then Some(TarArchive)
    else if |suffixes| >= 1 && suffixes[|suffixes| - 1] == ".dmg" then Some(DmgImage)
    else None
  }

  /** Wherever the code as written does not raise, it selects what the intended dispatch selects. */
  lemma DispatchAgrees(suffixes: seq<string>)
    ensures DispatchAsWritten(suffixes).Success? ==> DispatchAsWritten(suffixes).value == Dispatch(suffixes)
    ensures |suffixes| >= 2 ==> DispatchAsWritten(suffixes) == Success(Dispatch(suffixes))
  {
  }

  // ---------------------------------------------------------------------
  // Progress.

  /** The total size of some members. */
  function TotalSize(members: seq<Member>): nat {
    if |members| == 0 then 0 else TotalSize(members[..|members| - 1]) + members[|members| - 1].size
  }

  /** The reports sent after each member: the bytes written so far, out of the total. */
  function MemberReports(members: seq<Member>): (r: seq<(nat, nat)>)
    ensures |r| == |members|
  {
    seq(|members|, i requires 0 <= i < |members| => (TotalSize(members[..i + 1]), TotalSize(members)))
  }

  /** The size of a prefix never exceeds the size of a longer prefix. */
  lemma {:induction false} TotalSizeMonotone(members: seq<Member>, i: nat, j: nat)
    requires i <= j <= |members|
    ensures TotalSize(members[..i]) <= TotalSize(members[..j])
    decreases j - i
  {
    if i < j {
      TotalSizeMonotone(members, i, j - 1);
      assert members[..j][..j - 1] == members[..j - 1];
    }
  }

  /**
   * The reports sent after the members: the bytes reported never decrease, never exceed the
   * total, and the last report is the total out of the total.
   */
  lemma ReportsGrowToTotal(members: seq<Member>)
    ensures var r := MemberReports(members);
      && (forall i, j :: 0 <= i <= j < |r| ==> r[i].0 <= r[j].0)
      && (forall i :: 0 <= i < |r| ==> r[i].0 <= r[i].1 == TotalSize(members))
      && (|r| > 0 ==> r[|r| - 1] == (TotalSize(members), TotalSize(members)))
  {
    assert members[..|members|] == members;
    var r := MemberReports(members);
    forall i, j | 0 <= i <= j < |r|
      ensures r[i].0 <= r[j].0
    {
      TotalSizeMonotone(members, i + 1, j + 1);
    }
    forall i | 0 <= i < |r|
      ensures r[i].0 <= TotalSize(members)
    {
      TotalSizeMonotone(members, i + 1, |members|);
    }
  }

  /** Writing the members out one by one, reporting the running size after each. */
  method ExtractMembers(members: seq<Member>) returns (reports: seq<(nat, nat)>)
    ensures reports == MemberReports(members)
  {
    var total := 0;
    for i := 0 to |members|
      invariant total == TotalSize(members[..i])
    {
      total := total + members[i].size;
      assert members[..i + 1][..i] == members[..i];
    }
    assert members[..|members|] == members;
    var extracted := 0;
    reports := [];
    for i := 0 to |members|
      invariant extracted == TotalSize(members[..i])
      invariant |reports| == i
      invariant forall j :: 0 <= j < i ==> reports[j] == (TotalSize(members[..j + 1]), total)
    {
      extracted := extracted + members[i].size;
      assert members[..i + 1][..i] == members[..i];
      reports := reports + [(extracted, total)];
    }
  }

  // ---------------------------------------------------------------------
  // The whole extraction.

  /** The dmg's application name: Bforartists when the file's stem, lower-cased, mentions it. */
  function AppName(stem: string): (r: string)
    ensures r == "Bforartists" <==> Text.Contains(Text.Lower(stem), "bforartists")
    ensures r == "Blender" <==> !Text.Contains(Text.Lower(stem), "bforartists")
  {
    if Text.Contains(Text.Lower(stem), "bforartists") then "Bforartists" else "Blender"
  }

  /** `extract`'s outcome: the reports sent, and the folder returned, `None`, or the exception. */
  datatype Extraction = Extraction(progress: seq<(nat, nat)>, result: Result<Option<Path>, string>)

  /**
   * What `extract` does once it has chosen the archive kind `kind`, for a file named `name`
   * whose members are `members`. It has reported (0, 0). A zip or tar archive with no member
   * raises IndexError when its first name is read; otherwise it reports (0, total), then the
   * running size after each member, and returns the destination joined with the first member
   * name's leading component. A disk image gives the destination joined with the file's stem;
   * no kind gives `None`.
   */
  predicate ExtractsAs(kind: Option<ArchiveKind>, name: string, destination: Path, members: seq<Member>, x: Extraction) {
    match kind
    case None => x == Extraction([(0, 0)], Success(None))
    case Some(DmgImage) => x == Extraction([(0, 0)], Success(Some(Join(destination, Stem(name)))))
    case Some(_) =>
      if |members| == 0 then x == Extraction([(0, 0)], Failure("IndexError"))
      else x == Extraction([(0, 0), (0, TotalSize(members))] + MemberReports(members),
                           Success(Some(Join(destination, Split(members[0].name, '/')[0]))))
  }

  /** The work of `extract` after the dispatch. */
  method ExtractKind(kind: Option<ArchiveKind>, name: string, destination: Path, members: seq<Member>) returns (x: Extraction)
    ensures ExtractsAs(kind, name, destination, members, x)
  {
    var reports := [(0, 0)];
    match kind
    case None =>
      return Extraction(reports, Success(None));
    case Some(DmgImage) =>
      return Extraction(reports, Success(Some(Join(destination, Stem(name)))));
    case Some(_) =>
      if |members| == 0 {
        return Extraction(reports, Failure("IndexError"));
      }
      var folder := Split(members[0].name, '/')[0];
      var written := ExtractMembers(members);
      reports := reports + [(0, TotalSize(members))] + written;
      return Extraction(reports, Success(Some(Join(destination, folder))));
  }

  /**
   * `extract(source, destination, progress_callback)` as written: it reports (0, 0), then raises
   * IndexError where the suffix lookup does, and otherwise extracts the kind it selects.
   */
  method ExtractAsWritten(name: string, destination: Path, members: seq<Member>) returns (x: Extraction)
    ensures |x.progress| >= 1 && x.progress[0] == (0, 0)
    ensures DispatchAsWritten(Suffixes(name)).Failure? ==> x == Extraction([(0, 0)], Failure("IndexError"))
    ensures DispatchAsWritten(Suffixes(name)).Success? ==>
      ExtractsAs(DispatchAsWritten(Suffixes(name)).value, name, destination, members, x)
  {
    match DispatchAsWritten(Suffixes(name))
    case Failure(e) =>
      return Extraction([(0, 0)], Failure(e));
    case Success(kind) =>
      x := ExtractKind(kind, name, destination, members);
  }

  /**
   * `extract` with the intended dispatch, which the rest of the model uses: a name with one
   * suffix other than `.zip`, or none, selects what `Dispatch` selects instead of raising.
   */
  method Extract(name: string, destination: Path, members: seq<Member>) returns (x: Extraction)
    ensures |x.progress| >= 1 && x.progress[0] == (0, 0)
    ensures Dispatch(Suffixes(name)).None? ==> x == Extraction([(0, 0)], Success(None))
    ensures Dispatch(Suffixes(name)) == Some(DmgImage) ==> x == Extraction([(0, 0)], Success(Some(Join(destination, Stem(name)))))
    ensures Dispatch(Suffixes(name)) in {Some(ZipArchive), Some(TarArchive)} ==>
      if |members| == 0 then x == Extraction([(0, 0)], Failure("IndexError"))
      else x == Extraction([(0, 0), (0, TotalSize(members))] + MemberReports(members),
                           Success(Some(Join(destination, Split(members[0].name, '/')[0]))))
  {
    x := ExtractKind(Dispatch(Suffixes(name)), name, destination, members);
  }

  /** The progress of an extraction that returns: it starts at (0, 0), never decreases and ends at the total. */
  lemma ExtractionProgress(members: seq<Member>)
    requires |members| > 0
    ensures var p := [(0, 0), (0, TotalSize(members))] + MemberReports(members);
      && (forall i, j :: 0 <= i <= j < |p| ==> p[i].0 <= p[j].0)
      && (forall i :: 1 <= i < |p| ==> p[i].0 <= p[i].1 == TotalSize(members))
      && p[|p| - 1] == (TotalSize(members), TotalSize(members))
  {
    ReportsGrowToTotal(members);
  }

  /** `ExtractTask.run`: `finished` carries the folder, sent exactly when `extract` returns one. */
  function FinishedSignals(x: Extraction): (r: seq<Path>)
    ensures |r| <= 1
    ensures |r| == 1 <==> x.result.Success? && x.result.value.Some?
    ensures |r| == 1 ==> r[0] == x.result.value.value
  {
    match x.result
    case Success(Some(folder)) => [folder]
    case _ => []
  }
}
