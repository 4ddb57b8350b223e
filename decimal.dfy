/** Python's str() of the parameter values shown in the visualiser's label:
    decimal integers and tuples of them. */
module Decimal {

  predicate IsDigit(c: char) {
    '0' <= c <= '9'
  }

  predicate AllDigits(s: string) {
    forall k :: 0 <= k < |s| ==> IsDigit(s[k])
  }

  function DigitChar(d: nat): (c: char)
    requires d < 10
    ensures IsDigit(c)
  {
    "0123456789"[d]
  }

  function DigitValue(c: char): (d: nat)
    requires IsDigit(c)
    ensures d < 10
  {
    (c as int) - ('0' as int)
  }

  /** Decimal digits of v, most significant first, with no leading zero. */
  function NatToString(v: nat): (s: string)
    ensures |s| >= 1 && AllDigits(s)
    ensures |s| > 1 ==> s[0] != '0'
  {
    if v < 10 then [DigitChar(v)] else NatToString(v / 10) + [DigitChar(v % 10)]
  }

  /** The value of a string of decimal digits. */
  function ParseDigits(s: string): nat
    requires AllDigits(s)
  {
    if s == [] then 0 else ParseDigits(s[..|s| - 1]) * 10 + DigitValue(s[|s| - 1])
  }

  lemma {:induction false} NatRoundTrip(v: nat)
    ensures ParseDigits(NatToString(v)) == v
  {
    if v >= 10 {
      var s := NatToString(v / 10);
      var t := NatToString(v);
      assert t == s + [DigitChar(v % 10)];
      assert t[..|t| - 1] == s;
      NatRoundTrip(v / 10);
      assert DigitValue(DigitChar(v % 10)) == v % 10;
    } else {
      assert DigitValue(DigitChar(v)) == v;
    }
  }

  /** str(v) for a Python int. */
  function IntToString(v: int): (s: string)
    ensures IsIntLiteral(s)
  {
    if v < 0 then "-" + NatToString(-v) else NatToString(v)
  }

  predicate IsIntLiteral(s: string) {
    if |s| > 0 && s[0] == '-' then |s| > 1 && AllDigits(s[1..]) else |s| > 0 && AllDigits(s)
  }

  function ParseInt(s: string): int
    requires IsIntLiteral(s)
  {
    if s[0] == '-' then -(ParseDigits(s[1..]) as int) else ParseDigits(s)
  }

  /** Reading back str(v) gives v, so distinct values are shown differently. */
  lemma {:induction false} IntRoundTrip(v: int)
    ensures ParseInt(IntToString(v)) == v
  {
    var s := IntToString(v);
    if v < 0 {
      var digits := NatToString(-v);
      assert s == "-" + digits;
      assert s[0] == '-' && s[1..] == digits;
      NatRoundTrip(-v);
      assert ParseInt(s) == -(ParseDigits(digits) as int);
    } else {
      assert s == NatToString(v);
      assert IsDigit(s[0]);
      NatRoundTrip(v);
      assert ParseInt(s) == ParseDigits(s);
    }
  }

  lemma {:induction false} IntToStringInjective(a: int, b: int)
    requires IntToString(a) == IntToString(b)
    ensures a == b
  {
    IntRoundTrip(a);
    IntRoundTrip(b);
  }

  /** The elements of a tuple, separated by ", ". */
  function JoinInts(vs: seq<int>): string {
    if vs == [] then ""
    else if |vs| == 1 then IntToString(vs[0])
    else IntToString(vs[0]) + ", " + JoinInts(vs[1..])
  }

  /** str(t) for a Python tuple of ints: "(7, 15)", "(7,)", "()". */
  function TupleToString(vs: seq<int>): (s: string)
    ensures |s| >= 2 && s[0] == '(' && s[|s| - 1] == ')'
  {
    "(" + JoinInts(vs) + (if |vs| == 1 then "," else "") + ")"
  }

  /** str(v) starts with a digit or '-', and has only digits after that. */
  lemma IntToStringChars(v: int, k: int)
    requires 0 <= k < |IntToString(v)|
    ensures var c := IntToString(v)[k];
      IsDigit(c) || (k == 0 && c == '-')
  {
    var s := IntToString(v);
    if s[0] == '-' {
      if k > 0 {
        assert s[k] == s[1..][k - 1];
      }
    }
  }

  /** What may follow the elements of a tuple in its text: the closing
      bracket, or the comma of a one-element tuple and then the bracket. */
  predicate ClosesTuple(r: string) {
    |r| > 0 && (r[0] == ')' || (r[0] == ',' && |r| > 1 && r[1] == ')'))
  }

  /** An integer's text followed by a separator ends where the separator
      starts, so both the integer and the rest are determined. */
  lemma LiteralThenSeparator(x: int, y: int, rx: string, ry: string)
    requires IntToString(x) + rx == IntToString(y) + ry
    requires |rx| > 0 && (rx[0] == ',' || rx[0] == ')')
    requires |ry| > 0 && (ry[0] == ',' || ry[0] == ')')
    ensures x == y && rx == ry
  {
    var a, b := IntToString(x), IntToString(y);
    if |a| < |b| {
      assert (a + rx)[|a|] == rx[0];
      assert (b + ry)[|a|] == b[|a|];
      IntToStringChars(y, |a|);
      assert false;
    } else if |b| < |a| {
      assert (b + ry)[|b|] == ry[0];
      assert (a + rx)[|b|] == a[|b|];
      IntToStringChars(x, |b|);
      assert false;
    }
    assert a == (a + rx)[..|a|] && b == (b + ry)[..|b|];
    assert rx == (a + rx)[|a|..] && ry == (b + ry)[|b|..];
    IntToStringInjective(x, y);
  }

  /** What follows the first element's text in a tuple's text. */
  function AfterFirst(xs: seq<int>, r: string): string
    requires xs != []
  {
    if |xs| == 1 then r else ", " + JoinInts(xs[1..]) + r
  }

  /** After the first element of a longer tuple come ", " and the text of
      the remaining elements. */
  lemma AfterFirstRest(xs: seq<int>, r: string)
    requires |xs| > 1
    ensures var t := AfterFirst(xs, r);
      |t| >= 2 && t[1] == ' ' && t[2..] == JoinInts(xs[1..]) + r
  {
    var rest := JoinInts(xs[1..]) + r;
    assert AfterFirst(xs, r) == ", " + rest;
  }

  lemma JoinIntsHead(xs: seq<int>, r: string)
    requires xs != []
    ensures JoinInts(xs) + r == IntToString(xs[0]) + AfterFirst(xs, r)
  {
  }

  /** A non-empty tuple's elements start with a digit or '-', never with
      what closes a tuple. */
  lemma JoinIntsStart(xs: seq<int>, r: string)
    requires xs != [] && ClosesTuple(r)
    ensures !ClosesTuple(JoinInts(xs) + r)
  {
    JoinIntsHead(xs, r);
    IntToStringChars(xs[0], 0);
    assert (IntToString(xs[0]) + AfterFirst(xs, r))[0] == IntToString(xs[0])[0];
  }

  /** The elements' text, followed by what closes a tuple, determines the
      elements. */
  lemma {:induction false} JoinIntsInjective(xs: seq<int>, ys: seq<int>, rx: string, ry: string)
    requires JoinInts(xs) + rx == JoinInts(ys) + ry
    requires ClosesTuple(rx) && ClosesTuple(ry)
    ensures xs == ys && rx == ry
    decreases |xs|
  {
    if xs == [] && ys == [] {
      assert JoinInts(xs) + rx == rx && JoinInts(ys) + ry == ry;
    } else if xs == [] {
      assert JoinInts(xs) + rx == rx;
      JoinIntsStart(ys, ry);
    } else if ys == [] {
      assert JoinInts(ys) + ry == ry;
      JoinIntsStart(xs, rx);
    } else {
      var tx, ty := AfterFirst(xs, rx), AfterFirst(ys, ry);
      JoinIntsHead(xs, rx);
      JoinIntsHead(ys, ry);
      LiteralThenSeparator(xs[0], ys[0], tx, ty);
      if |xs| == 1 && |ys| > 1 {
        AfterFirstRest(ys, ry);
      } else if |ys| == 1 && |xs| > 1 {
        AfterFirstRest(xs, rx);
      } else if |xs| > 1 {
        AfterFirstRest(xs, rx);
        AfterFirstRest(ys, ry);
        JoinIntsInjective(xs[1..], ys[1..], rx, ry);
        assert xs == [xs[0]] + xs[1..] && ys == [ys[0]] + ys[1..];
      }
    }
  }

  /** Distinct tuples have distinct str() texts: the text lists the values. */
  lemma TupleToStringInjective(xs: seq<int>, ys: seq<int>)
    requires TupleToString(xs) == TupleToString(ys)
    ensures xs == ys
  {
    var rx := (if |xs| == 1 then "," else "") + ")";
    var ry := (if |ys| == 1 then "," else "") + ")";
    assert TupleToString(xs) == "(" + (JoinInts(xs) + rx);
    assert TupleToString(ys) == "(" + (JoinInts(ys) + ry);
    assert JoinInts(xs) + rx == TupleToString(xs)[1..];
    assert JoinInts(ys) + ry == TupleToString(ys)[1..];
    JoinIntsInjective(xs, ys, rx, ry);
  }
}
