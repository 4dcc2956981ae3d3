/**
 * The cases of version_test.go, restated as lemmas about the model.
 */
module Examples {
  import opened Text
  import opened SemVer
  import ParseProps

  /** New("") is 0.0.0 with no tags and renders as "0.0.0". */
  lemma EmptyIsZero()
    ensures New("") == Ok(Version(0, 0, 0, "", ""))
    ensures String(Zero) == "0.0.0"
  {
  }

  lemma ParsesBasic()
    ensures New("1.2.3") == Ok(Version(1, 2, 3, "", ""))
  {
    var s := "1" + "." + "2" + "." + "3";
    ParseProps.SplitThree("1", "2", "3");
    assert s == "1.2.3";
    assert FromSegments(["1", "2", "3"]) == Ok(Version(1, 2, 3, "", ""));
  }

  lemma RendersBasic()
    ensures String(Version(1, 2, 3, "", "")) == "1.2.3"
  {
  }

  lemma RejectsOneSegment()
    ensures New("42") == Err(Invalid)
  {
    assert multiset("42")['.'] == 0;
  }

  lemma RejectsBadMajor()
    ensures New("a.b.c") == Err(BadField(Major))
  {
    var s := "a" + "." + "b" + "." + "c";
    ParseProps.SplitThree("a", "b", "c");
    assert s == "a.b.c";
    assert FromSegments(["a", "b", "c"]) == Err(BadField(Major));
  }

  lemma RejectsBadMinor()
    ensures New("1.b.c") == Err(BadField(Minor))
  {
    var s := "1" + "." + "b" + "." + "c";
    ParseProps.SplitThree("1", "b", "c");
    assert s == "1.b.c";
    assert FromSegments(["1", "b", "c"]) == Err(BadField(Minor));
  }

  lemma RejectsBadPatch()
    ensures New("1.2.c") == Err(BadField(Patch))
  {
    var s := "1" + "." + "2" + "." + "c";
    ParseProps.SplitThree("1", "2", "c");
    assert s == "1.2.c";
    assert FromSegments(["1", "2", "c"]) == Err(BadField(Patch));
  }

  /** A sign is accepted, so a field can be negative. */
  lemma AcceptsSign()
    ensures New("-1.+2.3") == Ok(Version(-1, 2, 3, "", ""))
  {
    var s := "-1" + "." + "+2" + "." + "3";
    ParseProps.SplitThree("-1", "+2", "3");
    assert s == "-1.+2.3";
    assert FromSegments(["-1", "+2", "3"]) == Ok(Version(-1, 2, 3, "", ""));
  }

  /** Segments after the third are ignored. */
  lemma IgnoresFourthSegment()
    ensures New("1.2.3.x") == Ok(Version(1, 2, 3, "", ""))
  {
    var s := "1" + "." + "2" + "." + "3";
    ParseProps.SplitThree("1", "2", "3");
    assert s == "1.2.3";
    assert FromSegments(["1", "2", "3"]) == Ok(Version(1, 2, 3, "", ""));
    Text.SplitAppend(s, '.', "x");
    Text.SplitNoSeparator("x", '.');
    assert s + ['.'] + "x" == "1.2.3.x";
    assert Split("1.2.3.x", '.') == ["1", "2", "3", "x"];
    assert FromSegments(["1", "2", "3", "x"]) == Ok(Version(1, 2, 3, "", ""));
  }

  /** A leading zero is accepted and dropped. */
  lemma LeadingZeroParses()
    ensures New("01.2.3") == Ok(Version(1, 2, 3, "", ""))
  {
    var s := "01" + "." + "2" + "." + "3";
    ParseProps.SplitThree("01", "2", "3");
    assert s == "01.2.3";
    assert FromSegments(["01", "2", "3"]) == Ok(Version(1, 2, 3, "", ""));
  }

  /** Rendering a parsed version does not give back the input when the input
      spells a number in a non-canonical way. */
  lemma LeadingZeroNotPreserved()
    ensures New("01.2.3").Ok? && String(New("01.2.3").value) != "01.2.3"
  {
    LeadingZeroParses();
    RendersBasic();
  }

  lemma BumpCases()
    ensures String(Bump(Zero, false, false)) == "0.0.1"
    ensures String(Bump(Zero, false, true)) == "0.1.0"
    ensures String(Bump(Zero, true, true)) == "1.0.0"
  {
  }

  lemma MetadataCase()
    ensures String(AddMetadata(Zero, "test")) == "0.0.0+test"
  {
  }

  lemma AlphaCase()
    ensures String(Alpha(Zero)) == "0.0.0-alpha"
  {
  }

  lemma BetaCase()
    ensures String(Beta(Zero)) == "0.0.0-beta"
  {
  }

  lemma BetaMetadataCase()
    ensures String(AddMetadata(Beta(Zero), "test")) == "0.0.0-beta+test"
  {
  }

  lemma BeforeAfterCases()
    ensures !After(Version(0, 1, 2, "", ""), Version(0, 1, 3, "", ""))
    ensures !After(Version(0, 1, 2, "", ""), Version(1, 2, 3, "", ""))
    ensures !After(Version(0, 2, 0, "", ""), Version(1, 1, 0, "", ""))
    ensures After(Version(5, 4, 3, "", ""), Version(1, 2, 4, "", ""))
    ensures After(Version(3, 1, 2, "", ""), Version(1, 2, 3, "", ""))
    ensures !After(Version(1, 1, 2, "", ""), Version(1, 2, 3, "", ""))
    ensures Before(Version(0, 1, 2, "", ""), Version(0, 1, 3, "", ""))
    ensures Before(Version(0, 1, 2, "", ""), Version(1, 2, 3, "", ""))
    ensures Before(Version(0, 2, 0, "", ""), Version(1, 1, 0, "", ""))
    ensures !Before(Version(5, 4, 3, "", ""), Version(1, 2, 4, "", ""))
    ensures !Before(Version(3, 1, 2, "", ""), Version(1, 2, 3, "", ""))
    ensures Before(Version(1, 1, 2, "", ""), Version(1, 2, 3, "", ""))
  {
  }
}
