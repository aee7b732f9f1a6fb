/**
 * The launcher's API files: which Blender versions the API lists (and which
 * of them are LTS), the index each gets in the settings drop-down, and the
 * decision whether to overwrite the cached stable-builds file. JSON
 * documents are abstract (`D`); only their `api_file_version` entry, a text
 * such as `"3.0"`, matters for the decision.
 */
module BlApiManager {

  import opened Wrappers
  import opened Paths
  import Text

  // ---------------------------------------------------------------------
  // The version list.

  /** A JSON object from version to label, with its keys in document order. */
  datatype VersionList = VersionList(keys: seq<string>, labels: map<string, string>)
  {
    /** A dictionary: each key once, and exactly the keys that have a label. */
    ghost predicate Valid() {
      && (forall i, j :: 0 <= i < j < |keys| ==> keys[i] != keys[j])
      && (forall k :: k in labels <==> k in keys)
    }
  }

  /** The API document: `"blender_versions"` may be absent. */
  datatype Api = Api(blenderVersions: Option<VersionList>)

  /** `read_blender_version_list()`: the API's list, or an empty one when the API has none. */
  function ReadBlenderVersionList(api: Api): (r: VersionList)
    ensures api.blenderVersions.None? ==> r.keys == [] && r.labels == map[]
    ensures api.blenderVersions.Some? ==> r == api.blenderVersions.value
  {
    match api.blenderVersions
    case None => VersionList([], map[])
    case Some(list) => list
  }

  /** The keys among `keys` whose label is `"LTS"`, in order. */
  function LtsKeys(keys: seq<string>, labels: map<string, string>): (r: seq<string>)
    requires forall k :: k in keys ==> k in labels
    ensures forall k :: k in r <==> k in keys && labels[k] == "LTS"
    ensures |r| <= |keys|
  {
    if |keys| == 0 then []
    else
      var rest := LtsKeys(keys[1..], labels);
      if labels[keys[0]] == "LTS" then [keys[0]] + rest else rest
  }

  /** `lts_blender_version()`: exactly the versions labelled `"LTS"`, in the list's order. */
  function LtsBlenderVersion(api: Api): (r: seq<string>)
    requires ReadBlenderVersionList(api).Valid()
    ensures var list := ReadBlenderVersionList(api);
      forall k :: k in r <==> k in list.keys && list.labels[k] == "LTS"
  {
    var list := ReadBlenderVersionList(api);
    LtsKeys(list.keys, list.labels)
  }

  /** Filtering keeps order: the LTS keys of two runs of keys are those of the first, then those of the second. */
  lemma {:induction false} LtsKeysInOrder(a: seq<string>, b: seq<string>, labels: map<string, string>)
    requires forall k :: k in a + b ==> k in labels
    ensures LtsKeys(a + b, labels) == LtsKeys(a, labels) + LtsKeys(b, labels)
  {
    if |a| > 0 {
      assert (a + b)[1..] == a[1..] + b;
      LtsKeysInOrder(a[1..], b, labels);
    } else {
      assert a + b == b;
    }
  }

  /** The position of `k` in `keys`. */
  function IndexOf(keys: seq<string>, k: string): (i: nat)
    requires k in keys
    ensures i < |keys| && keys[i] == k
    ensures forall j :: 0 <= j < i ==> keys[j] != k
  {
    if keys[0] == k then 0 else IndexOf(keys[1..], k) + 1
  }

  /** `dropdown_blender_version()`: each version of the list mapped to its position. */
  function DropdownBlenderVersion(api: Api): (r: map<string, nat>)
    requires ReadBlenderVersionList(api).Valid()
    ensures var keys := ReadBlenderVersionList(api).keys;
      && (forall k :: k in r <==> k in keys)
      && (forall i :: 0 <= i < |keys| ==> r[keys[i]] == i)
  {
    var keys := ReadBlenderVersionList(api).keys;
    map k | k in keys :: IndexOf(keys, k)
  }

  /** The drop-down's positions are one to one: no two versions share a position. */
  lemma DropdownInjective(api: Api, a: string, b: string)
    requires ReadBlenderVersionList(api).Valid()
    requires a in DropdownBlenderVersion(api) && b in DropdownBlenderVersion(api) && a != b
    ensures DropdownBlenderVersion(api)[a] != DropdownBlenderVersion(api)[b]
  {
    var keys := ReadBlenderVersionList(api).keys;
    assert keys[IndexOf(keys, a)] == a && keys[IndexOf(keys, b)] == b;
  }

  // ---------------------------------------------------------------------
  // Updating the stable-builds cache.

  /**
   * A JSON file the update reads, the bundled stable-builds file or the cached one: absent,
   * unreadable (OSError on opening or reading), not JSON, or a document.
   */
  datatype JsonFile<D> = NoFile | Unreadable | NotJson | Document(doc: D)

  /**
   * The data `update_stable_builds_cache` goes on with: the data given, or else the bundled
   * file's document (`None` when there is none).
   */
  function Source<D>(data: Option<D>, bundled: JsonFile<D>): (r: Option<D>)
    ensures data.Some? ==> r == data
    ensures data.None? ==> (r.Some? <==> bundled.Document?)
    ensures data.None? && bundled.Document? ==> r == Some(bundled.doc)
  {
    if data.Some? then data
    else if bundled.Document? then Some(bundled.doc)
    else None
  }

  /** The update raises JSONDecodeError: the bundled file it falls back on, or the cached file it compares with, is not JSON. */
  predicate DecodeFails<D>(data: Option<D>, bundled: JsonFile<D>, cached: JsonFile<D>) {
    (data.None? && bundled.NotJson?) || (Source(data, bundled).Some? && cached.NotJson?)
  }

  /**
   * The write decision of `update_stable_builds_cache`, with the version order `greater`: the
   * document to write (`None` for no write), or the JSONDecodeError a file that is not JSON
   * raises. An OSError while reading either file is caught and nothing is written. With no
   * data there is nothing to write; with no cached file, or a cached file or data without
   * `api_file_version`, the data is written; otherwise it is written only when the cached
   * version is neither equal to nor greater than the data's.
   */
  function Decide<D>(data: Option<D>, bundled: JsonFile<D>, cached: JsonFile<D>,
                     version: D -> Option<string>, greater: (string, string) -> bool): (r: Result<Option<D>, string>)
    ensures r.Failure? <==> DecodeFails(data, bundled, cached)
    ensures r.Failure? ==> r.error == "JSONDecodeError"
    ensures data.None? && bundled.Unreadable? ==> r == Success(None)
    ensures Source(data, bundled).None? && !(data.None? && bundled.NotJson?) ==> r == Success(None)
    ensures r.Success? && r.value.Some? ==> r.value == Source(data, bundled)
    ensures Source(data, bundled).Some? && cached.NoFile? ==> r == Success(Source(data, bundled))
    ensures Source(data, bundled).Some? && cached.Unreadable? ==> r == Success(None)
    ensures var d := Source(data, bundled);
      d.Some? && cached.Document? && (version(cached.doc).None? || version(d.value).None?) ==> r == Success(d)
    ensures var d := Source(data, bundled);
      d.Some? && cached.Document? && version(cached.doc).Some? && version(d.value).Some? ==>
        (r == Success(d) <==> version(cached.doc).value != version(d.value).value && !greater(version(cached.doc).value, version(d.value).value))
  {
    if data.None? && bundled.NotJson? then Failure("JSONDecodeError")
    else
      match Source(data, bundled)
      case None => Success(None)
      case Some(d) =>
        match cached
        case NoFile => Success(Some(d))
        case Unreadable => Success(None)
        case NotJson => Failure("JSONDecodeError")
        case Document(c) =>
          if version(c).None? || version(d).None? then Success(Some(d))
          else if version(c).value == version(d).value then Success(None)
          else if greater(version(c).value, version(d).value) then Success(None)
          else Success(Some(d))
  }

  /** Python's `>` on strings: code-point order. */
  predicate StrGreater(a: string, b: string) {
    Text.StrLess(b, a)
  }

  /** Two different strings are ordered one way or the other: the smaller is neither equal to nor greater than the larger. */
  lemma StrOrder(a: string, b: string)
    ensures Text.StrLess(a, b) <==> a != b && !StrGreater(a, b)
  {
    Text.StrLessTrichotomy(a, b);
    if Text.StrLess(a, b) {
      Text.StrLessAsymmetric(a, b);
    }
  }

  /** The decision as written: the versions are compared as strings. */
  function UpdateStableBuildsCacheAsWritten<D>(data: Option<D>, bundled: JsonFile<D>, cached: JsonFile<D>, version: D -> Option<string>)
    : (r: Result<Option<D>, string>)
    ensures r.Failure? <==> DecodeFails(data, bundled, cached)
    ensures r.Failure? ==> r.error == "JSONDecodeError"
    ensures Source(data, bundled).None? && !(data.None? && bundled.NotJson?) ==> r == Success(None)
    ensures Source(data, bundled).Some? && cached.Unreadable? ==> r == Success(None)
    ensures var d := Source(data, bundled);
      d.Some? && (cached.NoFile? || (cached.Document? && (version(cached.doc).None? || version(d.value).None?))) ==> r == Success(d)
    ensures var d := Source(data, bundled);
      d.Some? && cached.Document? && version(cached.doc).Some? && version(d.value).Some? ==>
        (r == Success(d) <==> Text.StrLess(version(cached.doc).value, version(d.value).value))
  {
    var d := Source(data, bundled);
    if d.Some? && cached.Document? && version(cached.doc).Some? && version(d.value).Some? then
      StrOrder(version(cached.doc).value, version(d.value).value);
      Decide(data, bundled, cached, version, StrGreater)
    else
      Decide(data, bundled, cached, version, StrGreater)
  }

  /** The spelling the release script gives the `n`-th cache version: `"n.0"`. */
  function ScriptVersion(n: nat): string {
    Text.NatToString(n) + ".0"
  }

  /** After nine releases, the cached `"9.0"` compares greater than the new `"10.0"`, so the cache is never updated again. */
  lemma TenthReleaseNotWritten()
    ensures ScriptVersion(9) == "9.0" && ScriptVersion(10) == "10.0"
    ensures var version := (d: Option<string>) => d;
      UpdateStableBuildsCacheAsWritten(Some(Some("10.0")), NoFile, Document(Some("9.0")), version) == Success(None)
  {
    assert "9.0"[0] == '9' && "10.0"[0] == '1';
    assert !Text.StrLess("9.0", "10.0");
    assert Text.NatToString(10) == Text.NatToString(1) + [Text.DigitChar(0)];
  }

  /** The major number of an API file version: its digits before the first dot. */
  function ApiMajor(v: string): (r: Option<nat>) {
    Text.ParseCanonicalNat(Split(v, '.')[0])
  }

  lemma ApiMajorOfScriptVersion(n: nat)
    ensures ApiMajor(ScriptVersion(n)) == Some(n)
  {
    var s := Text.NatToString(n);
    assert ScriptVersion(n) == s + ['.'] + "0";
    assert '.' !in s by {
      forall i | 0 <= i < |s| ensures s[i] != '.' {
        assert Text.IsDigit(s[i]);
      }
    }
    SplitAtFirst(s, "0", '.');
    Text.ParseCanonicalNatOfNatToString(n);
  }

  /** The intended order: by major number when both versions have different ones, by text otherwise. */
  predicate ApiVersionGreater(a: string, b: string) {
    if ApiMajor(a).Some? && ApiMajor(b).Some? && ApiMajor(a) != ApiMajor(b) then ApiMajor(a).value > ApiMajor(b).value
    else StrGreater(a, b)
  }

  /**
   * The decision as intended: a cached file whose version has a smaller major number than the
   * data's is rewritten, one with a larger major number is kept, and versions with the same
   * major number fall back to text order.
   */
  function UpdateStableBuildsCache<D>(data: Option<D>, bundled: JsonFile<D>, cached: JsonFile<D>, version: D -> Option<string>)
    : (r: Result<Option<D>, string>)
    ensures r.Failure? <==> DecodeFails(data, bundled, cached)
    ensures r.Failure? ==> r.error == "JSONDecodeError"
    ensures Source(data, bundled).None? && !(data.None? && bundled.NotJson?) ==> r == Success(None)
    ensures Source(data, bundled).Some? && cached.Unreadable? ==> r == Success(None)
    ensures var d := Source(data, bundled);
      d.Some? && (cached.NoFile? || (cached.Document? && (version(cached.doc).None? || version(d.value).None?))) ==> r == Success(d)
    ensures var d := Source(data, bundled);
      d.Some? && cached.Document? && version(cached.doc).Some? && version(d.value).Some? ==>
        var (a, b) := (version(cached.doc).value, version(d.value).value);
        ApiMajor(a).Some? && ApiMajor(b).Some? ==>
          (r == Success(d) <==> ApiMajor(a).value < ApiMajor(b).value || (ApiMajor(a) == ApiMajor(b) && Text.StrLess(a, b)))
  {
    var d := Source(data, bundled);
    if d.Some? && cached.Document? && version(cached.doc).Some? && version(d.value).Some? then
      StrOrder(version(cached.doc).value, version(d.value).value);
      Decide(data, bundled, cached, version, ApiVersionGreater)
    else
      Decide(data, bundled, cached, version, ApiVersionGreater)
  }

  /** With versions the release script writes, the cache is rewritten exactly when the data's version is newer. */
  lemma WrittenExactlyWhenNewer<D>(d: D, c: D, version: D -> Option<string>, m: nat, n: nat)
    requires version(c) == Some(ScriptVersion(m)) && version(d) == Some(ScriptVersion(n))
    ensures UpdateStableBuildsCache(Some(d), NoFile, Document(c), version) == Success(Some(d)) <==> m < n
    ensures UpdateStableBuildsCache(Some(d), NoFile, Document(c), version) == Success(None) <==> n <= m
  {
    ApiMajorOfScriptVersion(m);
    ApiMajorOfScriptVersion(n);
    if m == n {
      assert ScriptVersion(m) == ScriptVersion(n);
    } else {
      assert ApiMajor(ScriptVersion(m)) != ApiMajor(ScriptVersion(n));
    }
  }
}
