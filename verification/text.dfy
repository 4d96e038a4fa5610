/**
  Text helpers shared by the three programs: ASCII lower-casing of posture
  labels, decimal rendering of integers (Kotlin `Long.toString`, JavaScript
  template literals of integral numbers), and joining / splitting on a
  separator character (Kotlin `joinToString`).
*/
module Text {

  import Wrappers

  /** Lower-cases one character; only ASCII upper-case letters change. */
  function LowerChar(c: char): char
  {
    if 'A' <= c <= 'Z' then (c as int + 32) as char else c
  }

  predicate IsUpperAscii(c: char)
  {
    'A' <= c <= 'Z'
  }

  /** `String.lowercase()` / `String.prototype.toLowerCase()`, on ASCII letters. */
  function Lower(s: string): (r: string)
    ensures |r| == |s|
    ensures forall i :: 0 <= i < |r| ==> !IsUpperAscii(r[i])
    ensures forall i :: 0 <= i < |s| && !IsUpperAscii(s[i]) ==> r[i] == s[i]
    ensures forall i :: 0 <= i < |s| && IsUpperAscii(s[i]) ==> r[i] as int == s[i] as int + 32
  {
    seq(|s|, i requires 0 <= i < |s| => LowerChar(s[i]))
  }

  // ---------------------------------------------------------------------
  // Decimal rendering

  predicate IsDigit(c: char)
  {
    '0' <= c <= '9'
  }

  predicate AllDigits(s: string)
  {
    forall i :: 0 <= i < |s| ==> IsDigit(s[i])
  }

  function DigitChar(d: nat): (c: char)
    requires d < 10
    ensures IsDigit(c) && (c as int) - ('0' as int) == d
  {
    ('0' as int + d) as char
  }

  /** The value of a string of decimal digits, most significant first. */
  function DigitsValue(s: string): nat
    requires AllDigits(s)
  {
    if s == [] then 0
    else DigitsValue(s[..|s| - 1]) * 10 + ((s[|s| - 1] as int) - ('0' as int))
  }

  /** The canonical decimal form of a natural number: digits only, no leading zero. */
  function NatToDecimal(n: nat): (r: string)
    ensures |r| >= 1 && AllDigits(r)
    ensures r[0] == '0' ==> n == 0 && |r| == 1
    ensures DigitsValue(r) == n
    decreases n
  {
    if n < 10 then [DigitChar(n)]
    else
      var front := NatToDecimal(n / 10);
      var r := front + [DigitChar(n % 10)];
      assert r[..|r| - 1] == front;
      r
  }

  /** The decimal form of an integer, with a leading '-' when negative. */
  function IntToDecimal(n: int): (r: string)
    ensures |r| >= 1
    ensures (r[0] == '-') == (n < 0)
    ensures n < 0 ==> AllDigits(r[1..]) && |r| >= 2 && -(DigitsValue(r[1..]) as int) == n
    ensures n >= 0 ==> AllDigits(r) && DigitsValue(r) == n
  {
    if n < 0 then
      var digits := NatToDecimal(-n);
      assert ("-" + digits)[1..] == digits;
      "-" + digits
    else NatToDecimal(n)
  }

  /** Reads back an integer written by IntToDecimal. */
  function ParseDecimal(s: string): (v: Wrappers.Option<int>)
  {
    if |s| >= 2 && s[0] == '-' && AllDigits(s[1..]) then Wrappers.Some(-(DigitsValue(s[1..]) as int))
    else if |s| >= 1 && AllDigits(s) then Wrappers.Some(DigitsValue(s))
    else Wrappers.None
  }

  /** Rendering an integer in decimal loses nothing. */
  lemma DecimalRoundTrip(n: int)
    ensures ParseDecimal(IntToDecimal(n)) == Wrappers.Some(n)
  {
    var r := IntToDecimal(n);
    if n >= 0 {
      assert !(r[0] == '-');
    }
  }

  /** Decimal text holds only digits and '-', so any other character marks its end. */
  lemma DecimalAvoids(n: int, c: char)
    requires c != '-' && !IsDigit(c)
    ensures c !in IntToDecimal(n)
  {
    var r := IntToDecimal(n);
    forall i | 0 <= i < |r|
      ensures r[i] != c
    {
      if n < 0 && i > 0 {
        assert r[i] == r[1..][i - 1];
      }
    }
  }

  predicate StartsWith(s: string, prefix: string)
  {
    |prefix| <= |s| && s[..|prefix|] == prefix
  }

  /** The position of the first `c` in `s`, or `|s|` when there is none. */
  function IndexOfChar(s: string, c: char): (i: nat)
    ensures i <= |s|
    ensures forall j :: 0 <= j < i ==> s[j] != c
    ensures i < |s| ==> s[i] == c
    decreases |s|
  {
    if s == [] then 0
    else if s[0] == c then 0
    else 1 + IndexOfChar(s[1..], c)
  }

  /** In `a + b` with `c` absent from `a` and `b` starting with `c`, the first `c` is at `|a|`. */
  lemma IndexOfCharAt(a: string, b: string, c: char)
    requires c !in a && |b| > 0 && b[0] == c
    ensures IndexOfChar(a + b, c) == |a|
  {
    var s := a + b;
    var i := IndexOfChar(s, c);
    assert s[|a|] == c;
  }

  // ---------------------------------------------------------------------
  // Joining and splitting

  /** `parts.joinToString(sep)`: the parts in order, `sep` between neighbours. */
  function Join(parts: seq<string>, sep: char): (r: string)
    ensures forall c :: c in r ==> c == sep || exists i :: 0 <= i < |parts| && c in parts[i]
    ensures |parts| >= 1 ==> |parts[0]| <= |r| && r[..|parts[0]|] == parts[0]
    ensures |parts| >= 2 ==> |parts[0]| < |r| && r[|parts[0]|] == sep
    ensures r == "" <==> |parts| == 0 || (|parts| == 1 && parts[0] == "")
  {
    if |parts| == 0 then ""
    else if |parts| == 1 then parts[0]
    else parts[0] + [sep] + Join(parts[1..], sep)
  }

  /** A character that is not the separator and occurs in no part does not occur in the join. */
  lemma {:induction false} JoinAvoids(parts: seq<string>, sep: char, c: char)
    requires c != sep
    requires forall i :: 0 <= i < |parts| ==> c !in parts[i]
    ensures c !in Join(parts, sep)
    decreases |parts|
  {
    if |parts| > 1 {
      JoinAvoids(parts[1..], sep, c);
      assert c !in parts[0];
    }
  }

  /** Cuts `s` at every `sep`; always at least one piece. */
  function Split(s: string, sep: char): (r: seq<string>)
    ensures |r| >= 1
  {
    if |s| == 0 then [""]
    else if s[0] == sep then [""] + Split(s[1..], sep)
    else
      var rest := Split(s[1..], sep);
      [[s[0]] + rest[0]] + rest[1..]
  }

  /** A piece free of the separator, followed by the separator, splits off whole. */
  lemma {:induction false} SplitAfterPiece(w: string, sep: char, tail: string)
    requires sep !in w
    ensures Split(w + [sep] + tail, sep) == [w] + Split(tail, sep)
    decreases |w|
  {
    if |w| == 0 {
      assert w + [sep] + tail == [sep] + tail;
      assert ([sep] + tail)[1..] == tail;
    } else {
      var s := w + [sep] + tail;
      assert s[0] == w[0] && s[0] != sep;
      assert s[1..] == w[1..] + [sep] + tail;
      SplitAfterPiece(w[1..], sep, tail);
      assert [w[0]] + w[1..] == w;
    }
  }

  /** A string free of the separator is a single piece. */
  lemma {:induction false} SplitWhole(w: string, sep: char)
    requires sep !in w
    ensures Split(w, sep) == [w]
    decreases |w|
  {
    if |w| > 0 {
      assert w[0] != sep;
      SplitWhole(w[1..], sep);
      assert [w[0]] + w[1..] == w;
    }
  }

  /** Splitting undoes joining, as long as no part holds the separator. */
  lemma {:induction false} SplitJoin(parts: seq<string>, sep: char)
    requires |parts| >= 1
    requires forall i :: 0 <= i < |parts| ==> sep !in parts[i]
    ensures Split(Join(parts, sep), sep) == parts
    decreases |parts|
  {
    if |parts| == 1 {
      SplitWhole(parts[0], sep);
    } else {
      SplitJoin(parts[1..], sep);
      SplitAfterPiece(parts[0], sep, Join(parts[1..], sep));
      assert [parts[0]] + parts[1..] == parts;
    }
  }
}
