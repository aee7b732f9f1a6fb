/**
 * The scraper's cache of stable release folders: a dictionary from a
 * release version to the folder listing scraped for it (its assets and the
 * folder's modification date), with its JSON-ready dictionary form.
 *
 * `BuildInfo` belongs to another module; its objects are the type
 * parameter `B` and its dictionary form the type parameter `R`, with the
 * conversions passed in as a `BuildCodec`.
 */
module ScraperCache {

  import opened Wrappers
  import opened DateTimes
  import Semver

  /** `StableFolder`: the builds listed in a release folder and when the folder changed. */
  datatype StableFolder<B> = StableFolder(assets: seq<B>, modifiedDate: Time)

  /** `StableFolder.to_dict()`: `(link, build dict)` pairs and the ISO date. */
  datatype FolderDict<R> = FolderDict(assets: seq<(string, R)>, modifiedDate: string)

  /** The cache's dictionary: `"folders"` may be absent. */
  datatype CacheDict<R> = CacheDict(folders: Option<map<string, FolderDict<R>>>)

  /** `build.link`, `build.to_dict()` and `BuildInfo.from_dict(link, ...)`. */
  datatype BuildCodec<!B(!new), !R> = BuildCodec(link: B -> string, toDict: B -> R, fromDict: (string, R) -> B)
  {
    /** A build is rebuilt from its link and its dictionary. */
    ghost predicate Valid() {
      forall b :: fromDict(link(b), toDict(b)) == b
    }
  }

  function FolderToDict<B(!new), R>(f: StableFolder<B>, bc: BuildCodec<B, R>, tc: Codec): FolderDict<R> {
    FolderDict(
      seq(|f.assets|, i requires 0 <= i < |f.assets| => (bc.link(f.assets[i]), bc.toDict(f.assets[i]))),
      tc.isoFormat(f.modifiedDate))
  }

  /** `StableFolder.from_dict`; a date `fromisoformat` rejects raises ValueError. */
  function FolderFromDict<B(!new), R>(d: FolderDict<R>, bc: BuildCodec<B, R>, tc: Codec): (r: Result<StableFolder<B>, string>)
    ensures r.Success? <==> tc.fromIsoFormat(d.modifiedDate).Some?
    ensures r.Success? ==> r.value.modifiedDate == tc.fromIsoFormat(d.modifiedDate).value
    ensures r.Success? ==> |r.value.assets| == |d.assets|
    ensures r.Success? ==> forall i :: 0 <= i < |d.assets| ==> r.value.assets[i] == bc.fromDict(d.assets[i].0, d.assets[i].1)
  {
    match tc.fromIsoFormat(d.modifiedDate)
    case None => Failure("Invalid isoformat string: " + d.modifiedDate)
    case Some(t) =>
      Success(StableFolder(seq(|d.assets|, i requires 0 <= i < |d.assets| => bc.fromDict(d.assets[i].0, d.assets[i].1)), t))
  }

  /** A folder survives its dictionary form: the same assets in the same order, and the same date. */
  lemma FolderRoundTrip<B(!new), R>(f: StableFolder<B>, bc: BuildCodec<B, R>, tc: Codec)
    requires bc.Valid() && tc.Valid()
    ensures FolderFromDict(FolderToDict(f, bc, tc), bc, tc) == Success(f)
  {
    var d := FolderToDict(f, bc, tc);
    assert tc.fromIsoFormat(d.modifiedDate) == Some(f.modifiedDate);
    var r := FolderFromDict(d, bc, tc).value;
    forall i | 0 <= i < |f.assets|
      ensures r.assets[i] == f.assets[i]
    {
      assert d.assets[i] == (bc.link(f.assets[i]), bc.toDict(f.assets[i]));
    }
    assert r.assets == f.assets;
  }

  /** Every version, spelled out, parses back to itself, so the spellings key the dictionary one to one. */
  lemma SpellingsParse()
    ensures forall v: Semver.Version {:trigger Semver.ToString(v)} :: Semver.Parse(Semver.ToString(v)) == Some(v)
  {
    forall v: Semver.Version {
      Semver.ParseToString(v);
    }
  }

  /** `ScraperCache.to_dict()` on a folder map: each version under its `str`. */
  function CacheToDict<B(!new), R>(folders: map<Semver.Version, StableFolder<B>>, bc: BuildCodec<B, R>, tc: Codec): (d: CacheDict<R>)
    ensures d.folders.Some?
    ensures d.folders.value.Keys == set v | v in folders :: Semver.ToString(v)
    ensures forall v :: v in folders ==> d.folders.value[Semver.ToString(v)] == FolderToDict(folders[v], bc, tc)
  {
    SpellingsParse();
    CacheDict(Some(map v | v in folders :: Semver.ToString(v) := FolderToDict(folders[v], bc, tc)))
  }

  /** Every entry of the dictionary reads: its key is a version and its folder's date parses. */
  predicate EntriesRead<B(!new), R>(entries: map<string, FolderDict<R>>, bc: BuildCodec<B, R>, tc: Codec) {
    forall k :: k in entries ==> Semver.Parse(k).Some? && FolderFromDict(entries[k], bc, tc).Success?
  }

  /**
   * `ScraperCache.from_dict`: a missing `"folders"` is an empty cache; a key that is not a version,
   * or a date that does not parse, raises ValueError.
   */
  function CacheFromDict<B(!new), R>(d: CacheDict<R>, bc: BuildCodec<B, R>, tc: Codec): (r: Result<map<Semver.Version, StableFolder<B>>, string>)
    ensures d.folders.None? ==> r == Success(map[])
    ensures r.Success? <==> d.folders.None? || EntriesRead(d.folders.value, bc, tc)
    ensures r.Success? && d.folders.Some? ==>
      && (forall v :: v in r.value <==> Semver.ToString(v) in d.folders.value)
      && (forall v :: v in r.value ==> FolderFromDict(d.folders.value[Semver.ToString(v)], bc, tc) == Success(r.value[v]))
  {
    var entries := if d.folders.Some? then d.folders.value else map[];
    if !EntriesRead(entries, bc, tc) then Failure("ValueError")
    else
      var r := map k | k in entries :: Semver.Parse(k).value := FolderFromDict(entries[k], bc, tc).value;
      SpellingsParse();
      assert forall v :: v in r <==> Semver.ToString(v) in entries by {
        forall v
          ensures v in r <==> Semver.ToString(v) in entries
        {
          if v in r {
            var k :| k in entries && Semver.Parse(k).value == v;
          }
        }
      }
      Success(r)
  }

  /** Every entry `to_dict` writes reads back. */
  lemma CacheToDictReads<B(!new), R>(folders: map<Semver.Version, StableFolder<B>>, bc: BuildCodec<B, R>, tc: Codec)
    requires bc.Valid() && tc.Valid()
    ensures EntriesRead(CacheToDict(folders, bc, tc).folders.value, bc, tc)
  {
    var entries := CacheToDict(folders, bc, tc).folders.value;
    forall k | k in entries
      ensures Semver.Parse(k).Some? && FolderFromDict(entries[k], bc, tc).Success?
    {
      var v :| v in folders && Semver.ToString(v) == k;
      Semver.ParseToString(v);
      FolderRoundTrip(folders[v], bc, tc);
    }
  }

  /** A version `from_dict(to_dict(c))` reads is one `c` holds, since spellings are one to one. */
  lemma CacheRoundTripKey<B(!new), R>(folders: map<Semver.Version, StableFolder<B>>, bc: BuildCodec<B, R>, tc: Codec, v: Semver.Version)
    requires CacheFromDict(CacheToDict(folders, bc, tc), bc, tc).Success?
    requires v in CacheFromDict(CacheToDict(folders, bc, tc), bc, tc).value
    ensures v in folders
  {
    var entries := CacheToDict(folders, bc, tc).folders.value;
    assert Semver.ToString(v) in entries;
    var w :| w in folders && Semver.ToString(w) == Semver.ToString(v);
    Semver.ToStringInjective(v, w);
  }

  /** `from_dict(to_dict(c))` reads exactly the versions `c` holds. */
  lemma CacheRoundTripKeys<B(!new), R>(folders: map<Semver.Version, StableFolder<B>>, bc: BuildCodec<B, R>, tc: Codec)
    requires bc.Valid() && tc.Valid()
    ensures CacheFromDict(CacheToDict(folders, bc, tc), bc, tc).Success?
    ensures CacheFromDict(CacheToDict(folders, bc, tc), bc, tc).value.Keys == folders.Keys
  {
    CacheToDictReads(folders, bc, tc);
    var r := CacheFromDict(CacheToDict(folders, bc, tc), bc, tc).value;
    forall v | v in r
      ensures v in folders
    {
      CacheRoundTripKey(folders, bc, tc, v);
    }
    forall v | v in folders
      ensures v in r
    {
      assert Semver.ToString(v) in CacheToDict(folders, bc, tc).folders.value;
    }
  }

  /** Two maps with the same keys and the same value at each key are equal. */
  lemma MapsEqual<K, V>(a: map<K, V>, b: map<K, V>)
    requires a.Keys == b.Keys && forall k :: k in a ==> a[k] == b[k]
    ensures a == b
  {
  }

  /** The folder `from_dict(to_dict(c))` reads for a version of `c` is the folder `c` holds. */
  lemma CacheRoundTripAt<B(!new), R>(folders: map<Semver.Version, StableFolder<B>>, bc: BuildCodec<B, R>, tc: Codec, v: Semver.Version)
    requires bc.Valid() && tc.Valid()
    requires CacheFromDict(CacheToDict(folders, bc, tc), bc, tc).Success?
    requires v in folders && v in CacheFromDict(CacheToDict(folders, bc, tc), bc, tc).value
    ensures CacheFromDict(CacheToDict(folders, bc, tc), bc, tc).value[v] == folders[v]
  {
    var d := CacheToDict(folders, bc, tc);
    var r := CacheFromDict(d, bc, tc).value;
    assert FolderFromDict(d.folders.value[Semver.ToString(v)], bc, tc) == Success(r[v]);
    assert d.folders.value[Semver.ToString(v)] == FolderToDict(folders[v], bc, tc);
    FolderRoundTrip(folders[v], bc, tc);
  }

  /** `from_dict(to_dict(c))` gives back the same versions with the same folders. */
  lemma CacheRoundTrip<B(!new), R>(folders: map<Semver.Version, StableFolder<B>>, bc: BuildCodec<B, R>, tc: Codec)
    requires bc.Valid() && tc.Valid()
    ensures CacheFromDict(CacheToDict(folders, bc, tc), bc, tc) == Success(folders)
  {
    CacheRoundTripKeys(folders, bc, tc);
    var r := CacheFromDict(CacheToDict(folders, bc, tc), bc, tc).value;
    forall v | v in folders
      ensures r[v] == folders[v]
    {
      CacheRoundTripAt(folders, bc, tc, v);
    }
    MapsEqual(r, folders);
  }

  /** `ScraperCache`: the folder map, changed in place by `new_build`. */
  class ScraperCache<B(!new)> {
    var folders: map<Semver.Version, StableFolder<B>>

    /** `ScraperCache()`: no folders. */
    constructor ()
      ensures folders == map[]
    {
      folders := map[];
    }

    /** `ScraperCache(folders=...)`. */
    constructor FromFolders(folders: map<Semver.Version, StableFolder<B>>)
      ensures this.folders == folders
    {
      this.folders := folders;
    }

    /** `ver in cache`. */
    predicate Contains(ver: Semver.Version)
      reads this
    {
      ver in folders
    }

    /** `cache[ver]`; a version with no folder raises KeyError. */
    function Get(ver: Semver.Version): (r: Result<StableFolder<B>, string>)
      reads this
      ensures r.Success? <==> Contains(ver)
      ensures r.Success? ==> r.value == folders[ver]
    {
      if ver in folders then Success(folders[ver]) else Failure("KeyError")
    }

    /**
     * `new_build(ver, dt)`: a fresh folder with no assets, dated `dt` or the epoch, replacing any
     * folder `ver` had; no other version changes.
     */
    method NewBuild(ver: Semver.Version, dt: Option<Time>) returns (folder: StableFolder<B>)
      modifies this
      ensures folder == StableFolder([], if dt.Some? then dt.value else Epoch)
      ensures folders == old(folders)[ver := folder]
      ensures Contains(ver) && Get(ver) == Success(folder)
      ensures forall v :: v != ver ==> Get(v) == old(Get(v))
    {
      folder := StableFolder([], if dt.Some? then dt.value else Epoch);
      folders := folders[ver := folder];
    }

    /** `cache.to_dict()`: one entry per version, under its spelling. */
    function ToDict<R>(bc: BuildCodec<B, R>, tc: Codec): (d: CacheDict<R>)
      reads this
      ensures d.folders.Some? && d.folders.value.Keys == set v | v in folders :: Semver.ToString(v)
    {
      CacheToDict(folders, bc, tc)
    }
  }

  /** A cache's dictionary reads back as the same folders. */
  lemma ToDictRoundTrip<B(!new), R>(cache: ScraperCache<B>, bc: BuildCodec<B, R>, tc: Codec)
    requires bc.Valid() && tc.Valid()
    ensures CacheFromDict(cache.ToDict(bc, tc), bc, tc) == Success(cache.folders)
  {
    CacheRoundTrip(cache.folders, bc, tc);
  }

  /** The cache file: absent, unreadable (OSError), not UTF-8, or holding text. */
  datatype CacheFile = Missing | Unreadable | NotUtf8 | Text(contents: string)

  /**
   * What `json.load` and the reads of `from_dict` make of a file's text: not JSON
   * (JSONDecodeError), JSON of a shape `from_dict` cannot read (the KeyError, TypeError or
   * AttributeError it raises), or the cache dictionary.
   */
  datatype JsonLoad<R> = NotJson | BadShape(error: string) | Json(dict: CacheDict<R>)

  /**
   * `try_from_file`: `None` for a missing file, an OSError or text that is not JSON; a file that
   * is not UTF-8 raises UnicodeDecodeError, and JSON of the wrong shape raises what `from_dict`
   * raises, since only JSONDecodeError and OSError are caught; otherwise the cache `from_dict`
   * builds, whose own errors propagate.
   */
  function TryFromFile<B(!new), R>(file: CacheFile, loadJson: string -> JsonLoad<R>, bc: BuildCodec<B, R>, tc: Codec)
    : (r: Result<Option<map<Semver.Version, StableFolder<B>>>, string>)
    ensures r == Success(None) <==> file.Missing? || file.Unreadable? || (file.Text? && loadJson(file.contents).NotJson?)
    ensures file.NotUtf8? ==> r == Failure("UnicodeDecodeError")
    ensures file.Text? && loadJson(file.contents).BadShape? ==> r == Failure(loadJson(file.contents).error)
    ensures file.Text? && loadJson(file.contents).Json? ==>
      match CacheFromDict(loadJson(file.contents).dict, bc, tc)
      case Success(folders) => r == Success(Some(folders))
      case Failure(e) => r == Failure(e)
  {
    match file
    case Missing => Success(None)
    case Unreadable => Success(None)
    case NotUtf8 => Failure("UnicodeDecodeError")
    case Text(contents) =>
      match loadJson(contents)
      case NotJson => Success(None)
      case BadShape(e) => Failure(e)
      case Json(d) =>
        match CacheFromDict(d, bc, tc)
        case Success(folders) => Success(Some(folders))
        case Failure(e) => Failure(e)
  }

  /** `from_file_or_default`: the loaded cache, or an empty one whenever `try_from_file` gives `None`. */
  function FromFileOrDefault<B(!new), R>(file: CacheFile, loadJson: string -> JsonLoad<R>, bc: BuildCodec<B, R>, tc: Codec)
    : (r: Result<map<Semver.Version, StableFolder<B>>, string>)
    ensures TryFromFile(file, loadJson, bc, tc) == Success(None) ==> r == Success(map[])
    ensures (match TryFromFile(file, loadJson, bc, tc)
      case Success(Some(folders)) => r == Success(folders)
      case Success(None) => true
      case Failure(e) => r == Failure(e))
  {
    match TryFromFile(file, loadJson, bc, tc)
    case Success(Some(folders)) => Success(folders)
    case Success(None) => Success(map[])
    case Failure(e) => Failure(e)
  }

  /** A cache written with `to_dict` and read back from its file is the cache that was written. */
  lemma FileRoundTrip<B(!new), R>(folders: map<Semver.Version, StableFolder<B>>, text: string,
                            loadJson: string -> JsonLoad<R>, bc: BuildCodec<B, R>, tc: Codec)
    requires bc.Valid() && tc.Valid()
    requires loadJson(text) == Json(CacheToDict(folders, bc, tc))
    ensures FromFileOrDefault(Text(text), loadJson, bc, tc) == Success(folders)
  {
    CacheRoundTrip(folders, bc, tc);
    assert TryFromFile(Text(text), loadJson, bc, tc) == Success(Some(folders));
  }

  /** A file without `"folders"` loads as an empty cache. */
  lemma NoFoldersIsEmpty<B(!new), R>(text: string, loadJson: string -> JsonLoad<R>, bc: BuildCodec<B, R>, tc: Codec)
    requires loadJson(text) == Json(CacheDict(None))
    ensures FromFileOrDefault(Text(text), loadJson, bc, tc) == Success(map[])
  {
  }
}
