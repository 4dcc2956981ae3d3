/**
 * What New (version.go:26-53) accepts and rejects, stated on the shape of
 * the input rather than on Split, and how it interacts with String.
 */
module ParseProps {
  import opened Text
  import opened SemVer

  /** Three separator-free segments: each is read with Atoi, major first, and
      the first one that is not an optionally signed integer names the error. */
  lemma NewThreeSegments(a: string, b: string, c: string)
    requires '.' !in a && '.' !in b && '.' !in c
    ensures var s := a + "." + b + "." + c;
            && (!IsInteger(a) ==> New(s) == Err(BadField(Major)))
            && (IsInteger(a) && !IsInteger(b) ==> New(s) == Err(BadField(Minor)))
            && (IsInteger(a) && IsInteger(b) && !IsInteger(c) ==> New(s) == Err(BadField(Patch)))
            && (IsInteger(a) && IsInteger(b) && IsInteger(c) ==>
                  New(s) == Ok(Version(Atoi(a).value, Atoi(b).value, Atoi(c).value, "", "")))
  {
    var s := a + "." + b + "." + c;
    SplitThree(a, b, c);
    assert New(s) == FromSegments([a, b, c]);
  }

  lemma SplitThree(a: string, b: string, c: string)
    requires '.' !in a && '.' !in b && '.' !in c
    ensures Split(a + "." + b + "." + c, '.') == [a, b, c]
  {
    assert a + "." + b + "." + c == a + ['.'] + (b + ['.'] + c);
    SplitFirstPiece(a, '.', b + ['.'] + c);
    SplitFirstPiece(b, '.', c);
    SplitNoSeparator(c, '.');
  }

  /** Segments after the third never matter. */
  lemma NewIgnoresTail(s: string, t: string)
    requires multiset(s)['.'] >= 2
    ensures New(s + "." + t) == New(s)
  {
    SplitAppend(s, '.', t);
    SplitCount(s, '.');
    assert s != "";
    assert Split(s + "." + t, '.')[..3] == Split(s, '.')[..3];
  }

  /** Parsing what String renders gives back the version, when it has no tags. */
  lemma RoundTrip(v: Version)
    requires v.preRelease == "" && v.metadata == ""
    ensures New(String(v)) == Ok(v)
  {
    NewThreeSegments(Itoa(v.major), Itoa(v.minor), Itoa(v.patch));
    AtoiItoa(v.major);
    AtoiItoa(v.minor);
    AtoiItoa(v.patch);
  }

  /** Two good numbers, then a patch segment with a non-digit glued after its
      number: the patch segment is the one that fails. */
  lemma GluedPatchRejected(x: string, y: string, z: string, rest: string)
    requires '.' !in x && '.' !in y && '.' !in z
    requires IsInteger(x) && IsInteger(y) && |z| > 0
    requires |rest| > 0 && rest[0] != '.' && !IsDigit(rest[0])
    ensures New(x + "." + y + "." + (z + rest)) == Err(BadField(Patch))
  {
    var s := x + "." + y + "." + (z + rest);
    assert s == x + ['.'] + (y + ['.'] + (z + rest));
    SplitFirstPiece(x, '.', y + ['.'] + (z + rest));
    SplitFirstPiece(y, '.', z + rest);
    var third := Split(z + rest, '.')[0];
    assert Split(s, '.')[2] == third;
    SplitHeadExtends(z, '.', rest);
    AtoiInnerNonDigit(third, |z|);
  }

  /** A pre-release or metadata tag is never read back: the suffix glued to the
      patch number makes its Atoi fail. */
  lemma TagsNotReadBack(v: Version)
    requires v.preRelease != "" || v.metadata != ""
    ensures New(String(v)) == Err(BadField(Patch))
  {
    var s := String(v);
    var rest := s[|Triple(v)|..];
    assert s == Itoa(v.major) + "." + Itoa(v.minor) + "." + (Itoa(v.patch) + rest);
    assert rest[0] == '-' || rest[0] == '+';
    GluedPatchRejected(Itoa(v.major), Itoa(v.minor), Itoa(v.patch), rest);
  }

  /** New(String(v)) succeeds exactly when v carries no tags. */
  lemma ReadBackIff(v: Version)
    ensures New(String(v)).Ok? <==> v.preRelease == "" && v.metadata == ""
  {
    if v.preRelease == "" && v.metadata == "" {
      RoundTrip(v);
    } else {
      TagsNotReadBack(v);
    }
  }

  /** Rendering a parsed version and parsing it again changes nothing. */
  lemma ParseRenderParse(s: string)
    requires New(s).Ok?
    ensures New(String(New(s).value)) == New(s)
  {
    RoundTrip(New(s).value);
  }
}
