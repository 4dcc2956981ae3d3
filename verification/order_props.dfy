/**
 * The comparisons of version.go:100-151 form a strict total order on the
 * (major, minor, patch) triple, and the tags take no part in it.
 */
module OrderProps {
  import opened SemVer

  lemma {:induction false} LexLessIrreflexive(x: seq<int>)
    ensures !LexLess(x, x)
    decreases |x|
  {
    if |x| > 0 {
      LexLessIrreflexive(x[1..]);
    }
  }

  lemma {:induction false} LexLessTransitive(x: seq<int>, y: seq<int>, z: seq<int>)
    requires LexLess(x, y) && LexLess(y, z)
    ensures LexLess(x, z)
    decreases |x|
  {
    if x[0] == y[0] && y[0] == z[0] {
      LexLessTransitive(x[1..], y[1..], z[1..]);
    }
  }

  /** On sequences of one length, exactly one of less, greater, equal holds. */
  lemma {:induction false} LexTrichotomy(x: seq<int>, y: seq<int>)
    requires |x| == |y|
    ensures LexLess(x, y) || LexLess(y, x) || x == y
    ensures !(LexLess(x, y) && LexLess(y, x))
    ensures x == y ==> !LexLess(x, y)
    decreases |x|
  {
    if |x| > 0 {
      LexTrichotomy(x[1..], y[1..]);
      if x[0] == y[0] && x[1..] == y[1..] {
        assert x == [x[0]] + x[1..] && y == [y[0]] + y[1..];
      }
    }
    if x == y {
      LexLessIrreflexive(x);
    }
  }

  /** For any two versions exactly one of Before, After and Equal holds. */
  lemma Trichotomy(a: Version, b: Version)
    ensures Before(a, b) || After(a, b) || Equal(a, b)
    ensures !(Before(a, b) && After(a, b))
    ensures !(Before(a, b) && Equal(a, b))
    ensures !(After(a, b) && Equal(a, b))
  {
    LexTrichotomy(Key(a), Key(b));
  }

  /** After is Before with the arguments swapped. */
  lemma AfterIsConverse(a: Version, b: Version)
    ensures After(a, b) == Before(b, a)
  {
  }

  lemma Irreflexive(a: Version)
    ensures !Before(a, a) && !After(a, a)
  {
    LexLessIrreflexive(Key(a));
  }

  lemma BeforeTransitive(a: Version, b: Version, c: Version)
    requires Before(a, b) && Before(b, c)
    ensures Before(a, c)
  {
    LexLessTransitive(Key(a), Key(b), Key(c));
  }

  lemma AfterTransitive(a: Version, b: Version, c: Version)
    requires After(a, b) && After(b, c)
    ensures After(a, c)
  {
    LexLessTransitive(Key(c), Key(b), Key(a));
  }

  /** Equal is an equivalence that the strict orders respect. */
  lemma EqualCongruence(a: Version, a': Version, b: Version)
    requires Equal(a, a')
    ensures Equal(a', a)
    ensures Before(a, b) == Before(a', b) && Before(b, a) == Before(b, a')
    ensures After(a, b) == After(a', b) && After(b, a) == After(b, a')
  {
  }

  /** Replacing both tags changes none of the three comparisons. */
  lemma OrderIgnoresTags(a: Version, b: Version, pre: string, meta: string)
    ensures var a' := a.(preRelease := pre, metadata := meta);
            && Equal(a', a)
            && Equal(a', b) == Equal(a, b)
            && Before(a', b) == Before(a, b)
            && After(a', b) == After(a, b)
  {
    var a' := a.(preRelease := pre, metadata := meta);
    assert Key(a') == Key(a);
  }
}
