/**
 * The library scan: the immediate sub-directories of each library
 * sub-folder, each marked recognized or not, and the events the drawing
 * task sends for them. The build paths a directory listing yields are
 * absolute, so `folder / build` is the build's own path.
 */
module LibraryDrawer {

  import opened Paths

  datatype Platform = Windows | Linux | MacOS | OtherPlatform

  /** The executable's path inside a build folder; any platform not named gets `blender`. */
  function BlenderExe(platform: Platform): (r: seq<string>)
    ensures |r| > 0 && forall i :: 0 <= i < |r| ==> r[i] != ""
    ensures platform == Windows ==> r == ["blender.exe"]
    ensures platform == MacOS ==> r == ["Blender", "Blender.app", "Contents", "MacOS", "Blender"]
    ensures platform in {Linux, OtherPlatform} ==> r == ["blender"]
  {
    match platform
    case Windows => ["blender.exe"]
    case Linux => ["blender"]
    case MacOS => ["Blender", "Blender.app", "Contents", "MacOS", "Blender"]
    case OtherPlatform => ["blender"]
  }

  /** The sub-folders `DrawLibraryTask` scans unless told otherwise. */
  const DefaultFolders: seq<string> := ["stable", "daily", "experimental", "bforartists", "custom"]

  /** A build folder is recognized when it holds a `.blinfo` file or the platform's executable. */
  predicate Recognized(fs: FileSystem, platform: Platform, build: Path) {
    fs.isFile(Join(build, ".blinfo")) || fs.isFile(build + BlenderExe(platform))
  }

  /** The directories among `names` inside `path`, in order, each with whether it is recognized. */
  function BuildsIn(fs: FileSystem, platform: Platform, path: Path, names: seq<string>): (r: seq<(Path, bool)>)
    ensures |r| <= |names|
  {
    if |names| == 0 then []
    else
      var build := Join(path, names[0]);
      var rest := BuildsIn(fs, platform, path, names[1..]);
      if fs.isDir(build) then [(build, Recognized(fs, platform, build))] + rest else rest
  }

  /** `get_blender_builds(folders)`: the builds of each folder that is a directory, folder by folder. */
  function GetBlenderBuilds(fs: FileSystem, platform: Platform, library: Path, folders: seq<string>): seq<(Path, bool)>
  {
    if |folders| == 0 then []
    else
      var path := Join(library, folders[0]);
      (if fs.isDir(path) then BuildsIn(fs, platform, path, fs.listDir(path)) else [])
        + GetBlenderBuilds(fs, platform, library, folders[1..])
  }

  /** Each entry of a folder's listing is a directory listed there, marked recognized exactly when it is. */
  lemma {:induction false} BuildsInSound(fs: FileSystem, platform: Platform, path: Path, names: seq<string>, k: nat)
    requires k < |BuildsIn(fs, platform, path, names)|
    ensures var (build, recognized) := BuildsIn(fs, platform, path, names)[k];
      && (exists n :: n in names && build == Join(path, n))
      && fs.isDir(build)
      && recognized == Recognized(fs, platform, build)
  {
    var build := Join(path, names[0]);
    if fs.isDir(build) && k == 0 {
    } else if fs.isDir(build) {
      BuildsInSound(fs, platform, path, names[1..], k - 1);
    } else {
      BuildsInSound(fs, platform, path, names[1..], k);
    }
  }

  /** Every listed name that is a directory is reported, with its recognition. */
  lemma {:induction false} BuildsInComplete(fs: FileSystem, platform: Platform, path: Path, names: seq<string>, n: string)
    requires n in names && fs.isDir(Join(path, n))
    ensures (Join(path, n), Recognized(fs, platform, Join(path, n))) in BuildsIn(fs, platform, path, names)
  {
    if names[0] != n {
      BuildsInComplete(fs, platform, path, names[1..], n);
    }
  }

  /** Scanning two lists of folders one after the other gives the first's builds, then the second's. */
  lemma {:induction false} ScanInOrder(fs: FileSystem, platform: Platform, library: Path, a: seq<string>, b: seq<string>)
    ensures GetBlenderBuilds(fs, platform, library, a + b)
      == GetBlenderBuilds(fs, platform, library, a) + GetBlenderBuilds(fs, platform, library, b)
  {
    if |a| > 0 {
      assert (a + b)[1..] == a[1..] + b;
      ScanInOrder(fs, platform, library, a[1..], b);
    } else {
      assert a + b == b;
    }
  }

  /**
   * Every build reported lies directly inside one of the scanned folders, that folder is a
   * directory, the build is a directory listed there, and it is marked recognized exactly when
   * it is.
   */
  lemma {:induction false} GetBlenderBuildsSound(fs: FileSystem, platform: Platform, library: Path, folders: seq<string>, k: nat)
    requires k < |GetBlenderBuilds(fs, platform, library, folders)|
    ensures var (build, recognized) := GetBlenderBuilds(fs, platform, library, folders)[k];
      exists f, n :: f in folders && fs.isDir(Join(library, f)) && n in fs.listDir(Join(library, f))
        && build == Join(Join(library, f), n) && fs.isDir(build) && recognized == Recognized(fs, platform, build)
  {
    var path := Join(library, folders[0]);
    var first := if fs.isDir(path) then BuildsIn(fs, platform, path, fs.listDir(path)) else [];
    if k < |first| {
      BuildsInSound(fs, platform, path, fs.listDir(path), k);
    } else {
      GetBlenderBuildsSound(fs, platform, library, folders[1..], k - |first|);
    }
  }

  /** Every directory inside a scanned folder that is a directory is reported, with its recognition. */
  lemma {:induction false} GetBlenderBuildsComplete(fs: FileSystem, platform: Platform, library: Path, folders: seq<string>, f: string, n: string)
    requires f in folders && fs.isDir(Join(library, f)) && n in fs.listDir(Join(library, f))
    requires fs.isDir(Join(Join(library, f), n))
    ensures var build := Join(Join(library, f), n);
      (build, Recognized(fs, platform, build)) in GetBlenderBuilds(fs, platform, library, folders)
  {
    if folders[0] == f {
      BuildsInComplete(fs, platform, Join(library, f), fs.listDir(Join(library, f)), n);
    } else {
      GetBlenderBuildsComplete(fs, platform, library, folders[1..], f, n);
    }
  }

  /** A folder that is not a directory contributes nothing. */
  lemma MissingFolderSkipped(fs: FileSystem, platform: Platform, library: Path, f: string, rest: seq<string>)
    requires !fs.isDir(Join(library, f))
    ensures GetBlenderBuilds(fs, platform, library, [f] + rest) == GetBlenderBuilds(fs, platform, library, rest)
  {
    assert ([f] + rest)[1..] == rest;
  }

  datatype LibraryEvent = Found(build: Path) | Unrecognized(build: Path) | Finished

  /** The event for one scanned build. */
  function Announce(entry: (Path, bool)): (e: LibraryEvent)
    ensures e != Finished && (e.Found? <==> entry.1) && e.build == entry.0
  {
    if entry.1 then Found(entry.0) else Unrecognized(entry.0)
  }

  /**
   * `DrawLibraryTask.run`: `found` for each recognized build and `unrecognized` for the others,
   * in scan order, then one `finished`.
   */
  method Run(fs: FileSystem, platform: Platform, library: Path, folders: seq<string>) returns (events: seq<LibraryEvent>)
    ensures var builds := GetBlenderBuilds(fs, platform, library, folders);
      && |events| == |builds| + 1
      && events[|builds|] == Finished
      && forall i :: 0 <= i < |builds| ==> events[i] == Announce(builds[i])
  {
    var builds := GetBlenderBuilds(fs, platform, library, folders);
    events := [];
    for i := 0 to |builds|
      invariant |events| == i
      invariant forall j :: 0 <= j < i ==> events[j] == Announce(builds[j])
    {
      var (build, recognized) := builds[i];
      if recognized {
        events := events + [Found(build)];
      } else {
        events := events + [Unrecognized(build)];
      }
    }
    events := events + [Finished];
  }
}
