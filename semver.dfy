/**
 * The part of `semver.Version` the launcher relies on: a
 * (major, minor, patch) triple, its precedence order (section 11 of Semantic
 * Versioning 2.0.0, without pre-release and build metadata), `str(version)`
 * and `Version.parse` on the `M.m.p` form.
 */
module Semver {

  import opened Wrappers
  import opened Text

  datatype Version = Version(major: nat, minor: nat, patch: nat)

  /** Precedence: compare major, then minor, then patch, numerically. */
  predicate Less(a: Version, b: Version) {
    || a.major < b.major
    || (a.major == b.major && a.minor < b.minor)
    || (a.major == b.major && a.minor == b.minor && a.patch < b.patch)
  }

  lemma LessIsStrictTotalOrder(a: Version, b: Version, c: Version)
    ensures !Less(a, a)
    ensures Less(a, b) || a == b || Less(b, a)
    ensures Less(a, b) ==> !Less(b, a)
    ensures Less(a, b) && Less(b, c) ==> Less(a, c)
  {
  }

  /** `str(version)`: `"{major}.{minor}.{patch}"`. */
  function ToString(v: Version): (s: string)
  {
    NatToString(v.major) + "." + NatToString(v.minor) + "." + NatToString(v.patch)
  }

  /** Splits `s` at its first '.', if it has one. */
  function SplitDot(s: string): (r: Option<(string, string)>)
    ensures r.Some? ==> s == r.value.0 + "." + r.value.1 && '.' !in r.value.0
    ensures r.None? ==> '.' !in s
  {
    if |s| == 0 then None
    else if s[0] == '.' then Some(("", s[1..]))
    else match SplitDot(s[1..])
      case None => None
      case Some((h, t)) => Some(([s[0]] + h, t))
  }

  /** `Version.parse` on strings without pre-release or build parts; `None` stands for its ValueError. */
  function Parse(s: string): (r: Option<Version>)
    ensures r.Some? ==> ToString(r.value) == s
  {
    match SplitDot(s)
    case None => None
    case Some((ma, rest)) =>
      match SplitDot(rest)
      case None => None
      case Some((mi, pa)) =>
        match (ParseCanonicalNat(ma), ParseCanonicalNat(mi), ParseCanonicalNat(pa))
        case (Some(x), Some(y), Some(z)) => Some(Version(x, y, z))
        case _ => None
  }

  lemma {:induction false} SplitDotAt(h: string, t: string)
    requires '.' !in h
    ensures SplitDot(h + "." + t) == Some((h, t))
    decreases |h|
  {
    if |h| > 0 {
      assert (h + "." + t)[1..] == h[1..] + "." + t;
      SplitDotAt(h[1..], t);
      assert h[0] != '.' && [h[0]] + h[1..] == h;
    }
  }

  lemma NoDotInNumeral(n: nat)
    ensures '.' !in NatToString(n)
  {
  }

  /** `Version.parse(str(v)) == v`. */
  lemma ParseToString(v: Version)
    ensures Parse(ToString(v)) == Some(v)
  {
    var a, b, c := NatToString(v.major), NatToString(v.minor), NatToString(v.patch);
    NoDotInNumeral(v.major);
    NoDotInNumeral(v.minor);
    assert ToString(v) == a + "." + (b + "." + c);
    SplitDotAt(a, b + "." + c);
    SplitDotAt(b, c);
    ParseCanonicalNatOfNatToString(v.major);
    ParseCanonicalNatOfNatToString(v.minor);
    ParseCanonicalNatOfNatToString(v.patch);
  }

  /** Distinct versions have distinct spellings, so `str` can key a dictionary. */
  lemma ToStringInjective(v: Version, w: Version)
    requires ToString(v) == ToString(w)
    ensures v == w
  {
    ParseToString(v);
    ParseToString(w);
  }
}
