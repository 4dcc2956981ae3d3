/**
 * The Version value of version.go and every operation on it.
 *
 * Go mutates a *Version in place; here a Version is an immutable value and
 * each mutator returns the updated copy. Go's (*Version, error) pairs become
 * a Result whose error names the failing step.
 */
module SemVer {
  import opened Text

  /** A SemVer-style version. The numeric fields are Go ints, so they may be negative. */
  datatype Version = Version(major: int, minor: int, patch: int, preRelease: string, metadata: string)

  /** The segment whose integer parse failed. */
  datatype Field = Major | Minor | Patch

  /** ErrInvalid (too few segments) or a wrapped Atoi failure on one field. */
  datatype Error = Invalid | BadField(field: Field)

  datatype Result<+T> = Ok(value: T) | Err(error: Error)

  /** Go's zero value &Version{}: 0.0.0 with no tags. */
  const Zero := Version(0, 0, 0, "", "")

  /** The three numbers, in order of significance. */
  function Key(v: Version): seq<int>
  {
    [v.major, v.minor, v.patch]
  }

  /** Lexicographic "strictly less" on integer sequences of equal length. */
  predicate LexLess(x: seq<int>, y: seq<int>)
    decreases |x|
  {
    |x| > 0 && |y| > 0 && (x[0] < y[0] || (x[0] == y[0] && LexLess(x[1..], y[1..])))
  }

  /** LexLess on two keys, spelled out field by field. */
  lemma LexLessKey(a: Version, b: Version)
    ensures LexLess(Key(a), Key(b)) <==>
              a.major < b.major || (a.major == b.major && (a.minor < b.minor || (a.minor == b.minor && a.patch < b.patch)))
  {
    var x, y := Key(a), Key(b);
    assert x[1..] == [a.minor, a.patch] && y[1..] == [b.minor, b.patch];
    assert x[1..][1..] == [a.patch] && y[1..][1..] == [b.patch];
    assert !LexLess(x[1..][1..][1..], y[1..][1..][1..]);
    assert LexLess(x[1..][1..], y[1..][1..]) <==> a.patch < b.patch;
    assert LexLess(x[1..], y[1..]) <==> a.minor < b.minor || (a.minor == b.minor && a.patch < b.patch);
  }

  // ---------------------------------------------------------------- parsing

  /** New: the empty string is the zero version; otherwise the first three
      dot-separated segments are read with Atoi and the rest are ignored. */
  function New(s: string): (r: Result<Version>)
    ensures s == "" ==> r == Ok(Zero)
    ensures s != "" ==> (r == Err(Invalid) <==> multiset(s)['.'] < 2)
    ensures r.Ok? ==> r.value.preRelease == "" && r.value.metadata == ""
  {
    if s == "" then Ok(Zero)
    else
      SplitCount(s, '.');
      FromSegments(Split(s, '.'))
  }

  /** The part of New after the split: too few segments is ErrInvalid, and the
      first of the three numbers that Atoi rejects names the error. */
  function FromSegments(segments: seq<string>): (r: Result<Version>)
    ensures r == Err(Invalid) <==> |segments| < 3
    ensures r.Ok? ==> r.value.preRelease == "" && r.value.metadata == ""
  {
    if |segments| < 3 then Err(Invalid)
    else
      match Atoi(segments[0])
      case None => Err(BadField(Major))
      case Some(major) =>
        match Atoi(segments[1])
        case None => Err(BadField(Minor))
        case Some(minor) =>
          match Atoi(segments[2])
          case None => Err(BadField(Patch))
          case Some(patch) => Ok(Version(major, minor, patch, "", ""))
  }

  /** Versions: parse every input in order; the first failure is the result. */
  function Versions(inputs: seq<string>): (r: Result<seq<Version>>)
    ensures r.Ok? <==> forall i | 0 <= i < |inputs| :: New(inputs[i]).Ok?
    ensures r.Ok? ==> |r.value| == |inputs| && forall i | 0 <= i < |inputs| :: New(inputs[i]) == Ok(r.value[i])
    ensures r.Err? ==> exists i | 0 <= i < |inputs| ::
                         New(inputs[i]) == Err(r.error) && forall j | 0 <= j < i :: New(inputs[j]).Ok?
  {
    if |inputs| == 0 then Ok([])
    else
      match New(inputs[0])
      case Err(e) => Err(e)
      case Ok(v) =>
        match Versions(inputs[1..])
        case Err(e) =>
          Err(e)
        case Ok(vs) => Ok([v] + vs)
  }

  // --------------------------------------------------------------- mutators

  /** Bump: a breaking change bumps major, else a change bumps minor, else patch;
      the lower fields reset to 0 and the tags are kept. */
  function Bump(v: Version, breakingChanges: bool, changes: bool): (r: Version)
    ensures r.preRelease == v.preRelease && r.metadata == v.metadata
    ensures breakingChanges ==> r.major == v.major + 1 && r.minor == 0 && r.patch == 0
    ensures !breakingChanges && changes ==> r.major == v.major && r.minor == v.minor + 1 && r.patch == 0
    ensures !breakingChanges && !changes ==> r.major == v.major && r.minor == v.minor && r.patch == v.patch + 1
  {
    if breakingChanges then v.(major := v.major + 1, minor := 0, patch := 0)
    else if changes then v.(minor := v.minor + 1, patch := 0)
    else v.(patch := v.patch + 1)
  }

  function Alpha(v: Version): (r: Version)
    ensures r.preRelease == "alpha"
    ensures Key(r) == Key(v) && r.metadata == v.metadata
  {
    v.(preRelease := "alpha")
  }

  function Beta(v: Version): (r: Version)
    ensures r.preRelease == "beta"
    ensures Key(r) == Key(v) && r.metadata == v.metadata
  {
    v.(preRelease := "beta")
  }

  function AddMetadata(v: Version, s: string): (r: Version)
    ensures r.metadata == s
    ensures Key(r) == Key(v) && r.preRelease == v.preRelease
  {
    v.(metadata := s)
  }

  // -------------------------------------------------------------- rendering

  /** "%d.%d.%d" of the three numbers: the printed numbers joined by dots. */
  function Triple(v: Version): (t: string)
    ensures t == Join([Itoa(v.major), Itoa(v.minor), Itoa(v.patch)], '.')
  {
    var pieces := [Itoa(v.major), Itoa(v.minor), Itoa(v.patch)];
    assert pieces[1..][1..] == [Itoa(v.patch)];
    assert Join(pieces[1..], '.') == Itoa(v.minor) + "." + Itoa(v.patch);
    Itoa(v.major) + "." + Itoa(v.minor) + "." + Itoa(v.patch)
  }

  /** The dot-separated pieces of Triple(v) are exactly the three printed numbers. */
  lemma TriplePieces(v: Version)
    ensures Split(Triple(v), '.') == [Itoa(v.major), Itoa(v.minor), Itoa(v.patch)]
  {
    SplitJoin([Itoa(v.major), Itoa(v.minor), Itoa(v.patch)], '.');
  }

  /** String: M.m.p, then "-pre" when there is a pre-release, then "+meta" when there is metadata. */
  function String(v: Version): (s: string)
    ensures Triple(v) <= s
    ensures s == Triple(v) <==> v.preRelease == "" && v.metadata == ""
    ensures v.preRelease != "" ==>
              var n := |Triple(v)|;
              |s| > n + |v.preRelease| && s[n] == '-' && s[n + 1..n + 1 + |v.preRelease|] == v.preRelease
    ensures v.preRelease == "" && v.metadata != "" ==> s[|Triple(v)|..] == "+" + v.metadata
    ensures v.metadata != "" ==> |s| > |v.metadata| && s[|s| - |v.metadata| - 1..] == "+" + v.metadata
    ensures |s| == |Triple(v)| + (if v.preRelease != "" then 1 + |v.preRelease| else 0)
                               + (if v.metadata != "" then 1 + |v.metadata| else 0)
  {
    var t := Triple(v);
    if v.preRelease != "" && v.metadata == "" then t + "-" + v.preRelease
    else if v.preRelease == "" && v.metadata != "" then t + "+" + v.metadata
    else if v.preRelease != "" && v.metadata != "" then
      var s := t + "-" + v.preRelease + "+" + v.metadata;
      assert s[|t| + 1..|t| + 1 + |v.preRelease|] == v.preRelease;
      assert s[|s| - |v.metadata| - 1..] == "+" + v.metadata;
      s
    else t
  }

  // --------------------------------------------------------------- ordering

  /** Equal compares the three numbers only; the tags play no part. */
  function Equal(v: Version, b: Version): (r: bool)
    ensures r <==> Key(v) == Key(b)
  {
    if v.major != b.major then false
    else if v.minor != b.minor then false
    else if v.patch != b.patch then false
    else true
  }

  /** After: v's numbers are lexicographically greater than b's. */
  function After(v: Version, b: Version): (r: bool)
    ensures r <==> LexLess(Key(b), Key(v))
  {
    LexLessKey(b, v);
    if Equal(v, b) then false
    else if v.major < b.major then false
    else if v.major > b.major then true
    else if v.minor < b.minor then false
    else if v.minor > b.minor then true
    else if v.patch < b.patch then false
    else true
  }

  /** Before: v's numbers are lexicographically smaller than b's. */
  function Before(v: Version, b: Version): (r: bool)
    ensures r <==> LexLess(Key(v), Key(b))
  {
    LexLessKey(v, b);
    if Equal(v, b) then false
    else if v.major > b.major then false
    else if v.major < b.major then true
    else if v.minor > b.minor then false
    else if v.minor < b.minor then true
    else if v.patch > b.patch then false
    else true
  }
}
