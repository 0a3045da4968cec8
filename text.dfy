/** String helpers: Python's `str.join` and the decimal rendering of integers
    that `str.format` performs on placeholder numbers. */
module Text {

  /** `sep.join(parts)`. */
  function JoinStr(sep: string, parts: seq<string>): string
    decreases |parts|
  {
    if |parts| == 0 then ""
    else if |parts| == 1 then parts[0]
    else parts[0] + sep + JoinStr(sep, parts[1..])
  }

  /** Joining a non-empty list and then one more part adds exactly one separator. */
  lemma {:induction false} JoinSnoc(sep: string, parts: seq<string>, last: string)
    requires |parts| > 0
    ensures JoinStr(sep, parts + [last]) == JoinStr(sep, parts) + sep + last
    decreases |parts|
  {
    if |parts| == 1 {
      assert parts + [last] == [parts[0], last];
    } else {
      assert (parts + [last])[1..] == parts[1..] + [last];
      JoinSnoc(sep, parts[1..], last);
    }
  }

  /** When every part is non-empty, the joined text is empty exactly when there are no parts. */
  lemma {:induction false} JoinEmptyIff(sep: string, parts: seq<string>)
    requires forall i :: 0 <= i < |parts| ==> parts[i] != ""
    ensures JoinStr(sep, parts) == "" <==> |parts| == 0
  {
    if |parts| >= 2 {
      assert |JoinStr(sep, parts)| >= |parts[0]| > 0;
    } else if |parts| == 1 {
      assert parts[0] != "";
    }
  }

  function DigitChar(d: nat): char
    requires d < 10
  {
    "0123456789"[d]
  }

  function DigitValue(c: char): nat
  {
    if '0' <= c <= '9' then (c as int - '0' as int) as nat else 0
  }

  predicate IsDigits(s: string)
  {
    forall i :: 0 <= i < |s| ==> '0' <= s[i] <= '9'
  }

  /** The decimal text of a natural number, as `str(n)` writes it. */
  function NatToString(n: nat): (s: string)
    ensures |s| > 0 && IsDigits(s)
    decreases n
  {
    if n < 10 then [DigitChar(n)] else NatToString(n / 10) + [DigitChar(n % 10)]
  }

  /** Reads a string of digits back as a number: the inverse of NatToString. */
  function ParseNat(s: string): nat
    decreases |s|
  {
    if |s| == 0 then 0 else 10 * ParseNat(s[..|s| - 1]) + DigitValue(s[|s| - 1])
  }

  lemma {:induction false} ParseNatToString(n: nat)
    ensures ParseNat(NatToString(n)) == n
    decreases n
  {
    var s := NatToString(n);
    if n < 10 {
      assert s[..0] == [];
    } else {
      var p := NatToString(n / 10);
      assert s[..|s| - 1] == p;
      ParseNatToString(n / 10);
    }
  }

  /** `str(i)` for any Python int: a leading minus sign for negatives. */
  function IntToString(i: int): (s: string)
    ensures |s| > 0
  {
    if i < 0 then "-" + NatToString(-i) else NatToString(i)
  }

  function ParseInt(s: string): int
  {
    if |s| > 0 && s[0] == '-' then -(ParseNat(s[1..]) as int) else ParseNat(s)
  }

  /** Decimal rendering loses nothing: the number can be read back from its text. */
  lemma ParseIntToString(i: int)
    ensures ParseInt(IntToString(i)) == i
  {
    if i < 0 {
      ParseNegative(NatToString(-i), -i);
    } else {
      ParseNonNegative(NatToString(i), i);
    }
  }

  /** A minus sign followed by the digits of `n` reads back as `-n`. */
  lemma ParseNegative(t: string, n: nat)
    requires t == NatToString(n)
    ensures ParseInt("-" + t) == -(n as int)
  {
    var s := "-" + t;
    assert s[1..] == t;
    ParseNatToString(n);
  }

  /** The digits of `n`, which never start with a minus sign, read back as `n`. */
  lemma ParseNonNegative(t: string, n: nat)
    requires t == NatToString(n)
    ensures ParseInt(t) == n
  {
    assert t[0] != '-';
    ParseNatToString(n);
  }

  /** Distinct numbers give distinct texts, so numbered placeholders never clash. */
  lemma IntToStringInjective(i: int, j: int)
    ensures IntToString(i) == IntToString(j) <==> i == j
  {
    if IntToString(i) == IntToString(j) {
      ParseIntToString(i);
      ParseIntToString(j);
    }
  }
}
