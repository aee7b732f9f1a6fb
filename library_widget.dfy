/**
 * Decisions a library entry makes about its build: where its portable
 * configuration lives and how "make portable" toggles it, what the delete
 * action says and asks, what happens when a removal completes, and which
 * entry is the quick-launch one. Widgets are objects; their labels, their
 * enabled state and the page's favourite are fields. Icons, menus, dialogs
 * and the entry's parent/child twin widgets are not part of this model.
 */
module LibraryWidget {

  import opened Wrappers
  import opened Paths
  import Text
  import Semver

  // ---------------------------------------------------------------------
  // The portable configuration folder.

  /** `subversion.rsplit(".", 1)[0]`: the text before the last dot, or all of it. */
  function VersionPrefix(subversion: string): (r: string)
    ensures |r| <= |subversion|
  {
    var i := RFind(subversion, '.');
    if i < 0 then subversion else subversion[..i]
  }

  /** The prefix of a version's spelling is its `major.minor`. */
  lemma VersionPrefixOfVersion(v: Semver.Version)
    ensures VersionPrefix(Semver.ToString(v)) == Text.NatToString(v.major) + "." + Text.NatToString(v.minor)
  {
    var p := Text.NatToString(v.major) + "." + Text.NatToString(v.minor);
    Semver.NoDotInNumeral(v.patch);
    assert Semver.ToString(v) == p + ['.'] + Text.NatToString(v.patch);
    RFindAfter(p, Text.NatToString(v.patch), '.');
  }

  /** Where the configuration goes: `portable` inside the build, or `<prefix>/config` for the old layout. */
  function ConfigPath(link: Path, prefix: string, portableLayout: bool): (r: Path)
    ensures portableLayout ==> r == link + ["portable"]
    ensures !portableLayout && prefix != "" ==> r == link + [prefix, "config"]
  {
    if portableLayout then Join(link, "portable") else Join(Join(link, prefix), "config")
  }

  /** `make_portable_path` as written: the prefix is compared with `"4.2"` as text. */
  function MakePortablePathAsWritten(link: Path, subversion: string): (r: Path)
    ensures var prefix := VersionPrefix(subversion);
      && (!Text.StrLess(prefix, "4.2") ==> r == link + ["portable"])
      && (Text.StrLess(prefix, "4.2") && prefix != "" ==> r == link + [prefix, "config"])
      && (Text.StrLess(prefix, "4.2") && prefix == "" ==> r == link + ["config"])
  {
    var prefix := VersionPrefix(subversion);
    ConfigPath(link, prefix, !Text.StrLess(prefix, "4.2"))
  }

  /** Blender 10.0 would get the old `10.0/config` layout, since `"10.0"` sorts before `"4.2"`. */
  lemma TenPointZeroNotPortable(link: Path)
    ensures VersionPrefix("10.0.0") == "10.0"
    ensures MakePortablePathAsWritten(link, "10.0.0") == link + ["10.0", "config"]
  {
    RFindAfter("10.0", "0", '.');
    assert "10.0.0" == "10.0" + ['.'] + "0";
    assert "10.0"[0] == '1' && "4.2"[0] == '4';
  }

  /** `major.minor` read from a prefix, when it is two numerals joined by a dot. */
  function MajorMinor(prefix: string): (r: Option<(nat, nat)>) {
    match Semver.SplitDot(prefix)
    case None => None
    case Some((a, b)) =>
      match (Text.ParseCanonicalNat(a), Text.ParseCanonicalNat(b))
      case (Some(x), Some(y)) => Some((x, y))
      case _ => None
  }

  /** Whether a prefix has the portable layout: 4.2 or later by number, or by text when it is not `major.minor`. */
  predicate PortableLayout(prefix: string) {
    match MajorMinor(prefix)
    case Some((major, minor)) => major > 4 || (major == 4 && minor >= 2)
    case None => !Text.StrLess(prefix, "4.2")
  }

  /** `make_portable_path` as intended: versions 4.2 and later keep their configuration in `portable`. */
  function MakePortablePath(link: Path, subversion: string): (r: Path)
    ensures var prefix := VersionPrefix(subversion);
      && (r == link + ["portable"] || r == link + [prefix, "config"] || (prefix == "" && r == link + ["config"]))
      && (MajorMinor(prefix).Some? ==>
            var (major, minor) := MajorMinor(prefix).value;
            r == link + ["portable"] <==> major > 4 || (major == 4 && minor >= 2))
      && (MajorMinor(prefix).None? ==> (r == link + ["portable"] <==> !Text.StrLess(prefix, "4.2")))
  {
    var prefix := VersionPrefix(subversion);
    ConfigPath(link, prefix, PortableLayout(prefix))
  }

  /** For a build with version `v`: `portable` exactly from 4.2 on, else `major.minor/config`. */
  lemma PortableFromFourPointTwo(link: Path, v: Semver.Version)
    ensures var portable := v.major > 4 || (v.major == 4 && v.minor >= 2);
      && (portable ==> MakePortablePath(link, Semver.ToString(v)) == link + ["portable"])
      && (!portable ==>
            MakePortablePath(link, Semver.ToString(v)) == link + [Text.NatToString(v.major) + "." + Text.NatToString(v.minor), "config"])
  {
    VersionPrefixOfVersion(v);
    Semver.NoDotInNumeral(v.major);
    Semver.SplitDotAt(Text.NatToString(v.major), Text.NatToString(v.minor));
    Text.ParseCanonicalNatOfNatToString(v.major);
    Text.ParseCanonicalNatOfNatToString(v.minor);
  }

  /** The text order and the number order agree on every version before 10.0, so the bug stays hidden until then. */
  lemma AsWrittenAgreesBeforeTen(link: Path, v: Semver.Version)
    requires v.major < 10 && v.minor < 10
    ensures MakePortablePathAsWritten(link, Semver.ToString(v)) == MakePortablePath(link, Semver.ToString(v))
  {
    VersionPrefixOfVersion(v);
    Semver.NoDotInNumeral(v.major);
    Semver.SplitDotAt(Text.NatToString(v.major), Text.NatToString(v.minor));
    Text.ParseCanonicalNatOfNatToString(v.major);
    Text.ParseCanonicalNatOfNatToString(v.minor);
    assert Text.NatToString(v.major) == [Text.DigitChar(v.major)];
    assert Text.NatToString(v.minor) == [Text.DigitChar(v.minor)];
    var prefix := Text.NatToString(v.major) + "." + Text.NatToString(v.minor);
    assert prefix == [Text.DigitChar(v.major), '.', Text.DigitChar(v.minor)];
    SingleDigitPrefixOrder(v.major, v.minor);
  }

  /** A one-digit `major.minor` sorts before `"4.2"` as text exactly when it is before 4.2 as numbers. */
  lemma SingleDigitPrefixOrder(major: nat, minor: nat)
    requires major < 10 && minor < 10
    ensures Text.StrLess([Text.DigitChar(major), '.', Text.DigitChar(minor)], "4.2") <==> major < 4 || (major == 4 && minor < 2)
  {
    var p := [Text.DigitChar(major), '.', Text.DigitChar(minor)];
    var q := "4.2";
    assert q == ['4', '.', '2'];
    assert p[1..][1..] == [Text.DigitChar(minor)] && q[1..][1..] == ['2'];
    assert Text.StrLess(p[1..][1..], q[1..][1..]) <==> minor < 2;
    if major == 4 {
      assert Text.StrLess(p, q) == Text.StrLess(p[1..], q[1..]);
      assert Text.StrLess(p[1..], q[1..]) == Text.StrLess(p[1..][1..], q[1..][1..]);
    }
  }

  // ---------------------------------------------------------------------
  // Deleting.

  /** The delete action removes from the drive when exactly one of "default is delete" and shift holds. */
  predicate DeleteFromDrive(defaultDeleteAction: int, shift: bool) {
    if shift then !(defaultDeleteAction == 1) else defaultDeleteAction == 1
  }

  /** `update_delete_action`: the action's label. */
  function DeleteActionText(defaultDeleteAction: int, shift: bool): (r: string)
    ensures r == "Delete from Drive" <==> ((defaultDeleteAction == 1) != shift)
    ensures r == "Send to Trash" <==> ((defaultDeleteAction == 1) == shift)
  {
    if DeleteFromDrive(defaultDeleteAction, shift) then "Delete from Drive" else "Send to Trash"
  }

  datatype RemovalQuestion = AskSendToTrash | AskDelete

  /** `ask_remove_from_drive`: which confirmation it asks for. */
  function AskRemoveFromDrive(defaultDeleteAction: int, shift: bool): (r: RemovalQuestion)
    ensures r == AskDelete <==> ((defaultDeleteAction == 1) != shift)
  {
    var reverted := defaultDeleteAction == 1;
    if (!shift && !reverted) || (shift && reverted) then AskSendToTrash else AskDelete
  }

  /** The label and the question agree: the action says "Delete from Drive" exactly when it asks to delete. */
  lemma LabelMatchesQuestion(defaultDeleteAction: int, shift: bool)
    ensures DeleteActionText(defaultDeleteAction, shift) == "Delete from Drive"
      <==> AskRemoveFromDrive(defaultDeleteAction, shift) == AskDelete
    ensures DeleteActionText(defaultDeleteAction, shift) == "Send to Trash"
      <==> AskRemoveFromDrive(defaultDeleteAction, shift) == AskSendToTrash
  {
  }

  /**
   * `remove_item`: `self.widgets.remove` raises KeyError for an entry the list does not hold;
   * otherwise the entry's row is taken out.
   */
  function RemoveItem<T(==)>(items: seq<T>, e: T): (r: Result<seq<T>, string>)
    ensures r.Failure? <==> e !in items
    ensures r.Failure? ==> r.error == "KeyError"
    ensures r.Success? ==> |r.value| == |items| - 1 && multiset(r.value) == multiset(items) - multiset{e}
  {
    if e in items then Success(RemoveFirst(items, e)) else Failure("KeyError")
  }

  /** `items` without the first occurrence of `e`; unchanged when `e` is not there. */
  function RemoveFirst<T(==)>(items: seq<T>, e: T): (r: seq<T>)
    ensures e !in items ==> r == items
    ensures e in items ==> |r| == |items| - 1
    ensures multiset(r) == multiset(items) - multiset{e}
  {
    var i := IndexOf(items, e);
    if i == |items| then
      assert multiset(items)[e] == 0;
      items
    else
      assert items == items[..i] + [e] + items[i + 1..];
      assert multiset(items[..i])[e] == 0;
      items[..i] + items[i + 1..]
  }

  /** The row of the first occurrence of `e`, or the length when there is none. */
  function IndexOf<T(==)>(items: seq<T>, e: T): (i: nat)
    ensures i <= |items|
    ensures i < |items| <==> e in items
    ensures i < |items| ==> items[i] == e
    ensures e !in items[..i]
  {
    if |items| == 0 then 0
    else if items[0] == e then 0
    else
      assert items[1..][..IndexOf(items[1..], e)] == items[1..1 + IndexOf(items[1..], e)];
      1 + IndexOf(items[1..], e)
  }

  // ---------------------------------------------------------------------
  // The widgets.

  /** A list of library entries (`BaseListWidget`). */
  class BuildList {
    var items: seq<LibraryEntry>

    constructor ()
      ensures items == []
    {
      items := [];
    }
  }

  /** The library page: its quick-launch entry and the favourite path kept in the settings. */
  class Library {
    var favorite: LibraryEntry?
    var favoritePath: Option<Path>

    constructor ()
      ensures favorite == null && favoritePath == None
    {
      favorite := null;
      favoritePath := None;
    }
  }

  /** Everything an entry shows or knows about its build, for stating what a slot leaves alone. */
  datatype EntryState = EntryState(
    enabled: bool, launchText: string, quickLaunch: bool,
    configIsDir: bool, parkedIsDir: bool, makePortableText: string, showConfigText: string)

  /** The `get_mark_as_favorite` setting makes a newly downloaded build of this branch the quick-launch one. */
  predicate MarksNewBuild(markAsFavorite: int, branch: string) {
    (markAsFavorite == 1 && branch == "stable") || (markAsFavorite == 2 && branch == "daily") || markAsFavorite == 3
  }

  /** A library entry (`LibraryWidget`). */
  class LibraryEntry {
    const link: Path
    const list: BuildList
    var enabled: bool
    var launchText: string
    /** The quick-launch icon is shown and "Add to Quick Launch" is disabled. */
    var quickLaunch: bool
    /** Whether the configuration folder, and its parked `_` twin, are directories. */
    var configIsDir: bool
    var parkedIsDir: bool
    var makePortableText: string
    var showConfigText: string

    function State(): EntryState
      reads this
    {
      EntryState(enabled, launchText, quickLaunch, configIsDir, parkedIsDir, makePortableText, showConfigText)
    }

    /** `__init__` of an entry in the library list: disabled, with a blank button, until its build is read. */
    constructor (link: Path, list: BuildList, configIsDir: bool, parkedIsDir: bool)
      ensures this.link == link && this.list == list
      ensures !enabled && launchText == "" && !quickLaunch
      ensures this.configIsDir == configIsDir && this.parkedIsDir == parkedIsDir
    {
      this.link := link;
      this.list := list;
      enabled := false;
      launchText := "";
      quickLaunch := false;
      this.configIsDir := configIsDir;
      this.parkedIsDir := parkedIsDir;
      makePortableText := "";
      showConfigText := "";
    }

    /**
     * `draw`: the entry gets its `Launch` button and its portability labels, and is enabled. A new
     * build becomes the quick-launch entry when the `get_mark_as_favorite` setting marks its branch;
     * any other build does when its link is the saved favourite path.
     */
    method Draw(library: Library, showNew: bool, markAsFavorite: int, branch: string)
      modifies this, library, library.favorite
      ensures enabled && launchText == "Launch"
      ensures configIsDir == old(configIsDir) && parkedIsDir == old(parkedIsDir)
      ensures makePortableText == (if configIsDir then "Unmake Portable" else "Make Portable")
      ensures showConfigText == (if configIsDir then "Show Portable Config Folder" else "Show Config Folder")
      ensures quickLaunch <==> if showNew then MarksNewBuild(markAsFavorite, branch) else old(library.favoritePath) == Some(link)
      ensures quickLaunch ==> library.favorite == this && library.favoritePath == Some(link)
      ensures !quickLaunch ==> library.favorite == old(library.favorite) && library.favoritePath == old(library.favoritePath)
      ensures var previous := old(library.favorite);
        previous != null && previous != this && quickLaunch && previous.link != link ==>
          previous.State() == old(previous.State()).(quickLaunch := false)
      ensures var previous := old(library.favorite);
        previous != null && previous != this && !(quickLaunch && previous.link != link) ==>
          previous.State() == old(previous.State())
    {
      launchText := "Launch";
      quickLaunch := false;
      if configIsDir {
        makePortableText, showConfigText := "Unmake Portable", "Show Portable Config Folder";
      } else {
        makePortableText, showConfigText := "Make Portable", "Show Config Folder";
      }
      if showNew {
        if MarksNewBuild(markAsFavorite, branch) {
          AddToQuickLaunch(library);
        }
      } else if library.favoritePath == Some(link) {
        AddToQuickLaunch(library);
      }
      enabled := true;
    }

    /**
     * `make_portable`: an existing configuration folder is parked as `_` + its name; otherwise a
     * parked one is brought back, or else a new one is made. The build is portable afterwards
     * exactly when it was not before, and the labels say so.
     */
    method MakePortable()
      modifies this
      ensures configIsDir == !old(configIsDir)
      ensures old(configIsDir) ==> parkedIsDir
      ensures !old(configIsDir) ==> parkedIsDir == false
      ensures configIsDir ==> makePortableText == "Unmake Portable" && showConfigText == "Show Portable Config Folder"
      ensures !configIsDir ==> makePortableText == "Make Portable" && showConfigText == "Show Config Folder"
      ensures enabled == old(enabled) && launchText == old(launchText) && quickLaunch == old(quickLaunch)
    {
      if configIsDir {
        configIsDir, parkedIsDir := false, true;
        makePortableText := "Make Portable";
        showConfigText := "Show Config Folder";
      } else {
        if parkedIsDir {
          parkedIsDir := false;
        }
        configIsDir := true;
        makePortableText := "Unmake Portable";
        showConfigText := "Show Portable Config Folder";
      }
    }

    /** `remover_started`: while the build is deleted the entry says so and cannot be used; nothing else changes. */
    method RemoverStarted()
      modifies this
      ensures State() == old(State()).(enabled := false, launchText := "Deleting")
    {
      launchText := "Deleting";
      enabled := false;
    }

    /**
     * `remover_completed(code)`: code 0 takes the entry out of its list, which raises KeyError
     * when the list does not hold it; any other code keeps it and makes it launchable again.
     */
    method RemoverCompleted(code: int) returns (raised: Option<string>)
      modifies this, list
      ensures code == 0 ==> State() == old(State())
      ensures code == 0 && this in old(list.items) ==> raised == None && list.items == RemoveFirst(old(list.items), this)
      ensures code == 0 && this !in old(list.items) ==> raised == Some("KeyError") && list.items == old(list.items)
      ensures code != 0 ==>
        && raised == None && list.items == old(list.items)
        && State() == old(State()).(enabled := true, launchText := "Launch")
    {
      if code == 0 {
        var removed := RemoveItem(list.items, this);
        if removed.Failure? {
          return Some(removed.error);
        }
        list.items := removed.value;
        return None;
      }
      launchText := "Launch";
      enabled := true;
      return None;
    }

    /** `remove_from_quick_launch`: the entry loses its quick-launch mark and nothing else. */
    method RemoveFromQuickLaunch()
      modifies this
      ensures State() == old(State()).(quickLaunch := false)
    {
      quickLaunch := false;
    }

    /**
     * `add_to_quick_launch`: this entry becomes the page's favourite and the saved favourite
     * path; a previous favourite with another link loses its quick-launch mark.
     */
    method AddToQuickLaunch(library: Library)
      modifies this, library, library.favorite
      ensures library.favorite == this && library.favoritePath == Some(link)
      ensures State() == old(State()).(quickLaunch := true)
      ensures var previous := old(library.favorite);
        previous != null && previous != this && previous.link != link ==>
          previous.State() == old(previous.State()).(quickLaunch := false)
      ensures var previous := old(library.favorite);
        previous != null && previous != this && previous.link == link ==> previous.State() == old(previous.State())
    {
      var previous := library.favorite;
      if previous != null && previous.link != link {
        previous.RemoveFromQuickLaunch();
      }
      library.favoritePath := Some(link);
      library.favorite := this;
      quickLaunch := true;
    }
  }

  /** Removing an entry takes it out of the list when it was in it once, and keeps every other entry. */
  lemma RemovedEntryLeaves<T>(items: seq<T>, e: T)
    requires multiset(items)[e] == 1
    ensures e !in RemoveFirst(items, e)
    ensures forall x :: x != e ==> (x in RemoveFirst(items, e) <==> x in items)
  {
    var r := RemoveFirst(items, e);
    assert multiset(r)[e] == 0;
    forall x | x != e
      ensures x in r <==> x in items
    {
      assert multiset(r)[x] == multiset(items)[x];
    }
  }
}
