/**
 * The Ascending and Descending adapters of version.go:166-180 hand Before
 * and After to Go's sort.Sort. The library routine is replaced by an
 * insertion sort over a sequence; only its contract matters: the result is
 * a permutation of the input in which no element is "less" than one before it.
 */
module Sorting {
  import opened SemVer
  import OrderProps

  /** less is irreflexive and transitive. */
  ghost predicate StrictOrder<T(!new)>(less: (T, T) -> bool)
  {
    && (forall x :: !less(x, x))
    && (forall x, y, z :: less(x, y) && less(y, z) ==> less(x, z))
  }

  /** No element is less than one that precedes it. */
  predicate SortedBy<T>(s: seq<T>, less: (T, T) -> bool)
  {
    forall i, j | 0 <= i < j < |s| :: !less(s[j], s[i])
  }

  /** In a sorted sequence nothing after the head is less than the head. */
  lemma HeadBelowRest<T>(s: seq<T>, less: (T, T) -> bool)
    requires |s| > 0 && SortedBy(s, less)
    ensures forall y | y in s[1..] :: !less(y, s[0])
  {
    forall y | y in s[1..]
      ensures !less(y, s[0])
    {
      var m :| 0 <= m < |s[1..]| && s[1..][m] == y;
      assert s[m + 1] == y;
    }
  }

  /** Insert x in front of the first element it is less than. */
  function Insert<T(==,!new)>(s: seq<T>, x: T, less: (T, T) -> bool): (r: seq<T>)
    requires StrictOrder(less)
    requires SortedBy(s, less)
    ensures multiset(r) == multiset(s) + multiset{x}
    ensures SortedBy(r, less)
  {
    if |s| == 0 then [x]
    else if less(x, s[0]) then [x] + s
    else
      var tail := Insert(s[1..], x, less);
      assert s == [s[0]] + s[1..];
      HeadBelowRest(s, less);
      assert forall k | 0 <= k < |tail| :: tail[k] in multiset(tail);
      [s[0]] + tail
  }

  method Sort<T(==,!new)>(s: seq<T>, less: (T, T) -> bool) returns (r: seq<T>)
    requires StrictOrder(less)
    ensures multiset(r) == multiset(s)
    ensures SortedBy(r, less)
  {
    r := [];
    for i := 0 to |s|
      invariant multiset(r) == multiset(s[..i])
      invariant SortedBy(r, less)
    {
      assert s[..i + 1] == s[..i] + [s[i]];
      r := Insert(r, s[i], less);
    }
    assert s[..|s|] == s;
  }

  /** sort.Sort(Ascending(vs)): a permutation of vs whose triples never decrease. */
  method SortAscending(vs: seq<Version>) returns (r: seq<Version>)
    ensures multiset(r) == multiset(vs)
    ensures forall i, j | 0 <= i < j < |r| :: !LexLess(Key(r[j]), Key(r[i]))
  {
    forall a, b, c | Before(a, b) && Before(b, c)
      ensures Before(a, c)
    {
      OrderProps.BeforeTransitive(a, b, c);
    }
    forall a
      ensures !Before(a, a)
    {
      OrderProps.Irreflexive(a);
    }
    r := Sort(vs, Before);
  }

  /** sort.Sort(Descending(vs)): a permutation of vs whose triples never increase. */
  method SortDescending(vs: seq<Version>) returns (r: seq<Version>)
    ensures multiset(r) == multiset(vs)
    ensures forall i, j | 0 <= i < j < |r| :: !LexLess(Key(r[i]), Key(r[j]))
  {
    forall a, b, c | After(a, b) && After(b, c)
      ensures After(a, c)
    {
      OrderProps.AfterTransitive(a, b, c);
    }
    forall a
      ensures !After(a, a)
    {
      OrderProps.Irreflexive(a);
    }
    r := Sort(vs, After);
  }
}
