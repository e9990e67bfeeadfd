/**
 * Python's integer formatting as the manifest builder uses it:
 * `str(n)` / `'{0}'.format(n)` for decimal text, `'{0:02}'.format(n)`
 * for the two-digit zero-padded CCD and attempt numbers, and `str.split`
 * on a single separator character. Each formatter has a parser partner
 * (the way a reader of the file names would recover the numbers) and a
 * round-trip lemma.
 */
module Format {

  datatype Option<+T> = None | Some(value: T)

  predicate IsDigit(c: char) {
    '0' <= c <= '9'
  }

  predicate AllDigits(s: string) {
    forall i :: 0 <= i < |s| ==> IsDigit(s[i])
  }

  function DigitChar(d: nat): (c: char)
    requires d < 10
    ensures IsDigit(c) && (c as int) - ('0' as int) == d
  {
    (('0' as int) + d) as char
  }

  function DigitValue(c: char): nat
    requires IsDigit(c)
  {
    (c as int) - ('0' as int)
  }

  /** Decimal text of a non-negative integer, without leading zeros. */
  function NatToString(n: nat): (s: string)
    ensures 1 <= |s|
    ensures AllDigits(s)
    ensures |s| == 1 <==> n < 10
    ensures 1 < |s| ==> s[0] != '0'
    decreases n
  {
    if n < 10 then [DigitChar(n)] else NatToString(n / 10) + [DigitChar(n % 10)]
  }

  /** Python's `str(i)` for an int: a minus sign before the digits of |i|. */
  function IntToString(i: int): (s: string)
    ensures 1 <= |s|
    ensures (s[0] == '-') <==> i < 0
    ensures i < 0 ==> 2 <= |s|
    ensures i >= 0 ==> AllDigits(s) && (1 < |s| ==> s[0] != '0')
    ensures i < 0 ==> AllDigits(s[1..]) && s[1] != '0'
  {
    if i < 0 then "-" + NatToString(-i) else NatToString(i)
  }

  /**
   * Python's `'{0:02}'.format(i)`: the decimal text, padded on the left
   * with zeros to width two. A negative value already has width two or
   * more ("-1"), so only 0..9 are padded.
   */
  function Pad2(i: int): (s: string)
    ensures 2 <= |s|
    ensures 0 <= i < 100 ==> |s| == 2 && AllDigits(s)
    ensures (s[0] == '-') <==> i < 0
    ensures 2 < |s| ==> s[0] != '0' && (s[0] == '-' ==> s[1] != '0')
  {
    if 0 <= i < 10 then "0" + NatToString(i) else IntToString(i)
  }

  /** Value of a non-empty run of decimal digits; leading zeros allowed, as in Python's `int()`. */
  function DigitsValue(s: string): nat
    requires AllDigits(s)
  {
    if |s| == 0 then 0 else DigitsValue(s[..|s| - 1]) * 10 + DigitValue(s[|s| - 1])
  }

  function ParseNat(s: string): Option<nat> {
    if |s| > 0 && AllDigits(s) then Some(DigitsValue(s)) else None
  }

  /** Partner of IntToString: an optional minus sign followed by digits. */
  function ParseInt(s: string): Option<int> {
    if |s| > 0 && s[0] == '-' then
      match ParseNat(s[1..])
      case Some(n) => Some(-(n as int))
      case None => None
    else
      match ParseNat(s)
      case Some(n) => Some(n)
      case None => None
  }

  lemma {:induction false} DigitsValueOfNat(n: nat)
    ensures DigitsValue(NatToString(n)) == n
    decreases n
  {
    var s := NatToString(n);
    if n >= 10 {
      DigitsValueOfNat(n / 10);
      assert s[..|s| - 1] == NatToString(n / 10);
    }
  }

  /** Reading back the decimal text of a natural number gives the number. */
  lemma NatRoundTrip(n: nat)
    ensures ParseNat(NatToString(n)) == Some(n)
  {
    DigitsValueOfNat(n);
  }

  /** Reading back `str(i)` gives `i`, for every int. */
  lemma IntRoundTrip(i: int)
    ensures ParseInt(IntToString(i)) == Some(i)
  {
    if i < 0 {
      NatRoundTrip(-i);
      ParseSigned(NatToString(-i), -i);
    } else {
      NatRoundTrip(i);
      ParseUnsigned(NatToString(i), i);
    }
  }

  lemma ParseSigned(d: string, n: nat)
    requires ParseNat(d) == Some(n)
    ensures ParseInt("-" + d) == Some(-(n as int))
  {
    assert ("-" + d)[1..] == d;
  }

  lemma ParseUnsigned(d: string, n: nat)
    requires ParseNat(d) == Some(n)
    ensures ParseInt(d) == Some(n)
  {
    assert IsDigit(d[0]);
  }

  lemma {:induction false} DigitsValueLeadingZero(s: string)
    requires AllDigits(s)
    ensures AllDigits("0" + s) && DigitsValue("0" + s) == DigitsValue(s)
    decreases |s|
  {
    if |s| > 0 {
      DigitsValueLeadingZero(s[..|s| - 1]);
      assert ("0" + s)[..|s|] == "0" + s[..|s| - 1];
    }
  }

  /** The zero padding is harmless: reading back the two-digit text gives the number. */
  lemma Pad2RoundTrip(i: int)
    ensures ParseInt(Pad2(i)) == Some(i)
  {
    if 0 <= i < 10 {
      DigitsValueLeadingZero(NatToString(i));
      DigitsValueOfNat(i);
    } else {
      IntRoundTrip(i);
    }
  }

  /** Two different numbers never pad to the same text. */
  lemma Pad2Injective(i: int, j: int)
    requires Pad2(i) == Pad2(j)
    ensures i == j
  {
    Pad2RoundTrip(i);
    Pad2RoundTrip(j);
  }

  /** Python's `s.split(c)` for a single separator character. */
  function Split(s: string, c: char): (parts: seq<string>)
    ensures |parts| >= 1
    decreases |s|
  {
    if |s| == 0 then [""]
    else if s[0] == c then [""] + Split(s[1..], c)
    else
      var rest := Split(s[1..], c);
      [[s[0]] + rest[0]] + rest[1..]
  }

  /** A piece without the separator stays whole. */
  lemma {:induction false} SplitNone(a: string, c: char)
    requires c !in a
    ensures Split(a, c) == [a]
    decreases |a|
  {
    if |a| > 0 {
      assert a[0] in a;
      SplitNone(a[1..], c);
      assert [a[0]] + a[1..] == a;
    }
  }

  /** Splitting `a + c + b` where `a` has no separator yields `a` and then the pieces of `b`. */
  lemma {:induction false} SplitCons(a: string, c: char, b: string)
    requires c !in a
    ensures Split(a + [c] + b, c) == [a] + Split(b, c)
    decreases |a|
  {
    if |a| == 0 {
      assert a + [c] + b == [c] + b;
      assert ([c] + b)[1..] == b;
    } else {
      assert a[0] in a;
      SplitCons(a[1..], c, b);
      assert (a + [c] + b)[1..] == a[1..] + [c] + b;
      assert [a[0]] + a[1..] == a;
    }
  }

  /** What precedes the first separator, and what follows it, are determined by the string. */
  lemma CutAt(x1: string, r1: string, x2: string, r2: string, c: char)
    requires c !in x1 && c !in x2
    requires x1 + [c] + r1 == x2 + [c] + r2
    ensures x1 == x2 && r1 == r2
  {
    var s := x1 + [c] + r1;
    SplitCons(x1, c, r1);
    SplitCons(x2, c, r2);
    assert x1 == Split(s, c)[0] == x2;
    assert r1 == s[|x1| + 1..];
  }

  /** Splitting at a separator splits each side independently. */
  lemma {:induction false} SplitConcat(a: string, c: char, b: string)
    ensures Split(a + [c] + b, c) == Split(a, c) + Split(b, c)
    decreases |a|
  {
    var s := a + [c] + b;
    if |a| == 0 {
      assert s == [c] + b;
      assert s[1..] == b;
    } else {
      assert s[1..] == a[1..] + [c] + b;
      SplitConcat(a[1..], c, b);
      SplitStep(s, a, c, Split(b, c));
    }
  }

  /** Strings with the same first character split alike, up to what follows their first piece. */
  lemma SplitStep(s: string, a: string, c: char, right: seq<string>)
    requires |s| > 0 && |a| > 0 && s[0] == a[0]
    requires Split(s[1..], c) == Split(a[1..], c) + right
    ensures Split(s, c) == Split(a, c) + right
  {
    var tail := Split(a[1..], c);
    SplitHead(s, c, tail + right);
    SplitHead(a, c, tail);
    PiecesAppend(if a[0] == c then None else Some([a[0]]), tail, right);
  }

  /** One step of Split, with the pieces of the rest given by name. */
  lemma SplitHead(s: string, c: char, rest: seq<string>)
    requires |s| > 0 && Split(s[1..], c) == rest
    ensures Split(s, c) == Pieces(if s[0] == c then None else Some([s[0]]), rest)
  {
  }

  /** The pieces after reading one character: a new empty piece (None) or text glued to the first piece. */
  function Pieces(glue: Option<string>, rest: seq<string>): seq<string>
    requires |rest| >= 1
  {
    match glue
    case None => [""] + rest
    case Some(h) => [h + rest[0]] + rest[1..]
  }

  lemma PiecesAppend(glue: Option<string>, tail: seq<string>, right: seq<string>)
    requires |tail| >= 1
    ensures Pieces(glue, tail + right) == Pieces(glue, tail) + right
  {
    if glue.Some? {
      assert (tail + right)[1..] == tail[1..] + right;
    }
  }

  /** Python's `c.join(parts)` for a single character `c`. */
  function JoinWith(parts: seq<string>, c: char): string
    decreases |parts|
  {
    if |parts| == 0 then ""
    else if |parts| == 1 then parts[0]
    else JoinWith(parts[..|parts| - 1], c) + [c] + parts[|parts| - 1]
  }

  lemma {:induction false} JoinWithCons(f: string, rest: seq<string>, c: char)
    requires |rest| >= 1
    ensures JoinWith([f] + rest, c) == f + [c] + JoinWith(rest, c)
    decreases |rest|
  {
    var all := [f] + rest;
    if |rest| == 1 {
      assert all[..1] == [f];
    } else {
      var init, last := rest[..|rest| - 1], rest[|rest| - 1];
      assert all[..|all| - 1] == [f] + init;
      JoinWithCons(f, init, c);
    }
  }

  /** Splitting what `c.join` produced gives back the parts, when no part holds `c`. */
  lemma {:induction false} SplitJoinWith(parts: seq<string>, c: char)
    requires |parts| >= 1
    requires forall i :: 0 <= i < |parts| ==> c !in parts[i]
    ensures Split(JoinWith(parts, c), c) == parts
    decreases |parts|
  {
    if |parts| == 1 {
      SplitNone(parts[0], c);
    } else {
      assert [parts[0]] + parts[1..] == parts;
      JoinWithCons(parts[0], parts[1..], c);
      SplitCons(parts[0], c, JoinWith(parts[1..], c));
      SplitJoinWith(parts[1..], c);
    }
  }

  /** `c.join(parts)` holds a character `d` other than `c` only if some part does. */
  lemma {:induction false} JoinWithHasNo(parts: seq<string>, c: char, d: char)
    requires c != d
    requires forall i :: 0 <= i < |parts| ==> d !in parts[i]
    ensures d !in JoinWith(parts, c)
    decreases |parts|
  {
    if |parts| > 1 {
      JoinWithHasNo(parts[..|parts| - 1], c, d);
      assert d !in parts[|parts| - 1];
    }
  }

  lemma NatToStringHasNo(n: nat, c: char)
    requires !IsDigit(c)
    ensures c !in NatToString(n)
  {
    var s := NatToString(n);
    assert forall k :: 0 <= k < |s| ==> s[k] != c;
  }

  /** The decimal text of an int holds only digits and '-'. */
  lemma IntToStringHasNo(i: int, c: char)
    requires !IsDigit(c) && c != '-'
    ensures c !in IntToString(i)
  {
    NatToStringHasNo(if i < 0 then -i else i, c);
  }

  lemma Pad2HasNo(i: int, c: char)
    requires !IsDigit(c) && c != '-'
    ensures c !in Pad2(i)
  {
    if 0 <= i < 10 {
      NatToStringHasNo(i, c);
    } else {
      IntToStringHasNo(i, c);
    }
  }
}
