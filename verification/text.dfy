/**
 * The pieces of Go's standard library that version.go leans on, on
 * `string` = `seq<char>`:
 *  - `strings.Split` with a one-character separator (and its inverse, Join);
 *  - `strconv.Atoi`, as an optional sign followed by decimal digits;
 *  - the `%d` verb of `fmt`, as Itoa.
 * Integers are unbounded: the range errors of `strconv.Atoi` are not modelled.
 */
module Text {

  datatype Option<+T> = None | Some(value: T)

  /** Go's strings.Split(s, [sep]): the pieces between separators, always at least one. */
  function Split(s: string, sep: char): (parts: seq<string>)
    ensures |parts| > 0
    ensures forall i | 0 <= i < |parts| :: sep !in parts[i]
    decreases |s|
  {
    if |s| == 0 then [""]
    else
      var rest := Split(s[1..], sep);
      if s[0] == sep then [""] + rest
      else [[s[0]] + rest[0]] + rest[1..]
  }

  /** There is one more piece than there are separators. */
  lemma {:induction false} SplitCount(s: string, sep: char)
    ensures |Split(s, sep)| == multiset(s)[sep] + 1
    decreases |s|
  {
    if |s| > 0 {
      assert s == [s[0]] + s[1..];
      SplitCount(s[1..], sep);
    }
  }

  /** Go's strings.Join(parts, [sep]). */
  function Join(parts: seq<string>, sep: char): string
  {
    if |parts| == 0 then ""
    else if |parts| == 1 then parts[0]
    else parts[0] + [sep] + Join(parts[1..], sep)
  }

  /** A piece without separators splits to itself. */
  lemma {:induction false} SplitNoSeparator(s: string, sep: char)
    requires sep !in s
    ensures Split(s, sep) == [s]
  {
    if |s| > 0 {
      assert s == [s[0]] + s[1..];
      assert sep !in s[1..];
      SplitNoSeparator(s[1..], sep);
    }
  }

  /** Splitting distributes over a separator: the pieces of the two sides are concatenated. */
  lemma {:induction false} SplitAppend(x: string, sep: char, y: string)
    ensures Split(x + [sep] + y, sep) == Split(x, sep) + Split(y, sep)
    decreases |x|
  {
    if |x| == 0 {
      assert x + [sep] + y == [sep] + y;
      assert ([sep] + y)[1..] == y;
    } else {
      var s := x + [sep] + y;
      assert s[0] == x[0];
      assert s[1..] == x[1..] + [sep] + y;
      SplitAppend(x[1..], sep, y);
    }
  }

  /** The first piece is the longest separator-free prefix of s. */
  lemma {:induction false} SplitHead(s: string, sep: char)
    ensures Split(s, sep)[0] <= s
    ensures |Split(s, sep)[0]| < |s| ==> s[|Split(s, sep)[0]|] == sep
    decreases |s|
  {
    if |s| > 0 {
      SplitHead(s[1..], sep);
    }
  }

  /** A first piece cannot stop before a character that is not the separator. */
  lemma SplitHeadExtends(z: string, sep: char, rest: string)
    requires sep !in z && |rest| > 0 && rest[0] != sep
    ensures |Split(z + rest, sep)[0]| > |z| && Split(z + rest, sep)[0][|z|] == rest[0]
  {
    var s := z + rest;
    var h := Split(s, sep)[0];
    SplitHead(s, sep);
    assert forall i | 0 <= i < |z| :: s[i] == z[i];
    assert s[|z|] == rest[0];
    assert forall i | 0 <= i <= |z| :: s[i] != sep;
  }

  /** A separator-free piece followed by a separator is the first piece. */
  lemma SplitFirstPiece(a: string, sep: char, rest: string)
    requires sep !in a
    ensures Split(a + [sep] + rest, sep) == [a] + Split(rest, sep)
  {
    SplitAppend(a, sep, rest);
    SplitNoSeparator(a, sep);
  }

  /** Join undoes Split. */
  lemma {:induction false} JoinSplit(s: string, sep: char)
    ensures Join(Split(s, sep), sep) == s
    decreases |s|
  {
    if |s| > 0 {
      JoinSplit(s[1..], sep);
      var rest := Split(s[1..], sep);
      if s[0] != sep {
        var parts := Split(s, sep);
        assert parts[0] == [s[0]] + rest[0];
        assert parts[1..] == rest[1..];
        if |rest| > 1 {
          assert Join(rest, sep) == rest[0] + [sep] + Join(rest[1..], sep);
        }
      }
    }
  }

  /** Split undoes Join, for a non-empty list of separator-free pieces. */
  lemma {:induction false} SplitJoin(parts: seq<string>, sep: char)
    requires |parts| > 0
    requires forall i | 0 <= i < |parts| :: sep !in parts[i]
    ensures Split(Join(parts, sep), sep) == parts
    decreases |parts|
  {
    SplitNoSeparator(parts[0], sep);
    if |parts| > 1 {
      SplitJoin(parts[1..], sep);
      SplitAppend(parts[0], sep, Join(parts[1..], sep));
    }
  }

  predicate IsDigit(c: char)
  {
    '0' <= c <= '9'
  }

  function DigitValue(c: char): nat
    requires IsDigit(c)
  {
    c as int - '0' as int
  }

  function DigitChar(d: nat): (c: char)
    requires d < 10
    ensures IsDigit(c) && DigitValue(c) == d
  {
    ('0' as int + d) as char
  }

  /** One or more ASCII decimal digits. */
  predicate IsDecimal(t: string)
  {
    |t| > 0 && forall i | 0 <= i < |t| :: IsDigit(t[i])
  }

  /** The syntax strconv.Atoi accepts: an optional '+' or '-', then one or more digits. */
  predicate IsInteger(s: string)
  {
    IsDecimal(s) || (|s| > 1 && (s[0] == '+' || s[0] == '-') && IsDecimal(s[1..]))
  }

  /** The value of a run of decimal digits, read most significant first. */
  function ParseDecimal(t: string): (r: Option<nat>)
    ensures r.Some? <==> IsDecimal(t)
  {
    if |t| == 0 then None
    else
      var last := t[|t| - 1];
      if !IsDigit(last) then None
      else if |t| == 1 then Some(DigitValue(last))
      else
        match ParseDecimal(t[..|t| - 1])
        case None => None
        case Some(n) => Some(10 * n + DigitValue(last))
  }

  /** strconv.Atoi without its range check. */
  function Atoi(s: string): (r: Option<int>)
    ensures r.Some? <==> IsInteger(s)
  {
    if |s| == 0 then None
    else if s[0] == '+' || s[0] == '-' then
      match ParseDecimal(s[1..])
      case None => None
      case Some(n) =>
        var i: int := if s[0] == '-' then -(n as int) else n;
        Some(i)
    else
      match ParseDecimal(s)
      case None => None
      case Some(n) => Some(n)
  }

  /** The shortest decimal spelling of n: no leading zeros. */
  function DecimalString(n: nat): (t: string)
    ensures IsDecimal(t)
    ensures |t| > 1 ==> t[0] != '0'
  {
    if n < 10 then [DigitChar(n)]
    else DecimalString(n / 10) + [DigitChar(n % 10)]
  }

  /** What fmt's %d prints for an int: a '-' for negatives, never a '+'. */
  function Itoa(i: int): (s: string)
    ensures IsInteger(s) && s[0] != '+'
    ensures '.' !in s
    ensures s[0] == '-' <==> i < 0
    ensures var d := if i < 0 then s[1..] else s; |d| > 1 ==> d[0] != '0'
  {
    if i < 0 then "-" + DecimalString(-i) else DecimalString(i)
  }

  lemma {:induction false} ParseDecimalString(n: nat)
    ensures ParseDecimal(DecimalString(n)) == Some(n)
  {
    if n >= 10 {
      ParseDecimalString(n / 10);
      var t := DecimalString(n);
      assert t[..|t| - 1] == DecimalString(n / 10);
    }
  }

  /** Atoi reads back every integer Itoa prints. */
  lemma AtoiItoa(i: int)
    ensures Atoi(Itoa(i)) == Some(i)
  {
    if i < 0 {
      ParseDecimalString(-i);
      assert Itoa(i)[1..] == DecimalString(-i);
    } else {
      ParseDecimalString(i);
    }
  }

  /** A leading zero does not change the value Atoi reads. */
  lemma {:induction false} ParseDecimalLeadingZero(t: string)
    requires IsDecimal(t)
    ensures ParseDecimal("0" + t) == ParseDecimal(t)
    decreases |t|
  {
    var z := "0" + t;
    assert z[|z| - 1] == t[|t| - 1];
    if |t| > 1 {
      assert z[..|z| - 1] == "0" + t[..|t| - 1];
      ParseDecimalLeadingZero(t[..|t| - 1]);
    } else {
      assert z[..|z| - 1] == "0";
    }
  }

  /** Atoi on signed input: '+' keeps the digits' value, '-' negates it. */
  lemma AtoiSign(t: string)
    requires IsDecimal(t)
    ensures Atoi("+" + t).Some? && Atoi("+" + t).value == ParseDecimal(t).value
    ensures Atoi("-" + t).Some? && Atoi("-" + t).value == -(ParseDecimal(t).value as int)
  {
    assert ("+" + t)[1..] == t;
    assert ("-" + t)[1..] == t;
  }

  /** A non-digit anywhere past the first character makes Atoi fail. */
  lemma AtoiInnerNonDigit(s: string, i: nat)
    requires 1 <= i < |s| && !IsDigit(s[i])
    ensures Atoi(s) == None
  {
    assert !IsDecimal(s);
    if |s| > 1 {
      assert s[1..][i - 1] == s[i];
    }
  }
}
