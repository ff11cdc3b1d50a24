/** Decimal integer text as Python reads and writes it: `int(token)` for a
    token without whitespace (an optional sign, then ASCII digits that may be
    grouped by single underscores) and `str(n)`. */
module Numerals {
  import opened Wrappers

  predicate IsDigit(c: char) {
    '0' <= c <= '9'
  }

  predicate AllDigits(s: seq<char>) {
    forall k :: 0 <= k < |s| ==> IsDigit(s[k])
  }

  function DigitValue(c: char): nat
    requires IsDigit(c)
  {
    c as int - '0' as int
  }

  function DigitChar(d: nat): (c: char)
    requires d < 10
    ensures IsDigit(c) && DigitValue(c) == d
  {
    ('0' as int + d) as char
  }

  /** The value of a string of decimal digits, most significant first. */
  function DigitsValue(s: seq<char>): nat
    requires AllDigits(s)
  {
    if |s| == 0 then 0 else DigitsValue(s[..|s| - 1]) * 10 + DigitValue(s[|s| - 1])
  }

  /** Digits with single underscores between them, as `int()` accepts: it
      starts and ends with a digit and every underscore is followed by one. */
  predicate GroupedDigits(s: seq<char>) {
    && |s| > 0 && IsDigit(s[0]) && IsDigit(s[|s| - 1])
    && forall k :: 0 <= k < |s| ==> GroupedAt(s, k)
  }

  predicate GroupedAt(s: seq<char>, k: nat)
    requires k < |s|
  {
    IsDigit(s[k]) || (s[k] == '_' && k + 1 < |s| && IsDigit(s[k + 1]))
  }

  lemma GroupedDigitsAreDigitsOrUnderscores(s: seq<char>)
    requires GroupedDigits(s)
    ensures forall k :: 0 <= k < |s| ==> s[k] == '_' || IsDigit(s[k])
  {
    forall k | 0 <= k < |s|
      ensures s[k] == '_' || IsDigit(s[k])
    {
      assert GroupedAt(s, k);
    }
  }

  /** `s` without its underscores. */
  function DropUnderscores(s: seq<char>): (r: seq<char>)
    ensures |r| <= |s|
    ensures (forall k :: 0 <= k < |s| ==> s[k] == '_' || IsDigit(s[k])) ==> AllDigits(r)
    ensures AllDigits(s) ==> r == s
  {
    if |s| == 0 then []
    else if s[0] == '_' then DropUnderscores(s[1..])
    else [s[0]] + DropUnderscores(s[1..])
  }

  /** The token without its optional leading sign. */
  function Unsigned(t: seq<char>): seq<char> {
    if |t| > 0 && (t[0] == '-' || t[0] == '+') then t[1..] else t
  }

  /** The value of validly grouped digits: the digits with the underscores
      dropped. */
  function GroupedValue(s: seq<char>): nat
    requires GroupedDigits(s)
  {
    GroupedDigitsAreDigitsOrUnderscores(s);
    DigitsValue(DropUnderscores(s))
  }

  /** Python's `int(token)` on a token holding no whitespace; `None` where
      Python raises `ValueError`. It accepts exactly an optional sign
      followed by grouped digits, and the sign applies to their value. */
  function ParseInt(t: seq<char>): (r: Option<int>)
    ensures r.Some? <==> GroupedDigits(Unsigned(t))
    ensures r.Some? ==> |t| > 0
    ensures r.Some? && t[0] == '-' ==> r.value == -(GroupedValue(Unsigned(t)) as int)
    ensures r.Some? && t[0] != '-' ==> r.value == GroupedValue(Unsigned(t))
    ensures AllDigits(t) && |t| > 0 ==> r == Some(DigitsValue(t))
  {
    var negative := |t| > 0 && t[0] == '-';
    var body := Unsigned(t);
    if !GroupedDigits(body) then None
    else
      var magnitude: int := GroupedValue(body);
      Some(if negative then -magnitude else magnitude)
  }

  /** Dropping underscores distributes over concatenation. */
  lemma {:induction false} DropUnderscoresAppend(a: seq<char>, b: seq<char>)
    ensures DropUnderscores(a + b) == DropUnderscores(a) + DropUnderscores(b)
    decreases |a|
  {
    if |a| > 0 {
      assert (a + b)[1..] == a[1..] + b;
      DropUnderscoresAppend(a[1..], b);
    } else {
      assert a + b == b;
    }
  }

  /** An underscore between two runs of digits does not change the value:
      `int("1_000") == int("1000")`. */
  lemma UnderscoreBetweenDigitsIgnored(a: seq<char>, b: seq<char>)
    requires |a| > 0 && |b| > 0 && AllDigits(a) && AllDigits(b)
    ensures ParseInt(a + "_" + b) == ParseInt(a + b)
  {
    var s := a + "_" + b;
    var ab := a + b;
    JoinedDigitsGrouped(a, b);
    JoinedDigitsDropped(a, b);
    assert Unsigned(s) == s && Unsigned(ab) == ab;
    assert GroupedValue(s) == DigitsValue(ab);
  }

  lemma JoinedDigitsGrouped(a: seq<char>, b: seq<char>)
    requires |a| > 0 && |b| > 0 && AllDigits(a) && AllDigits(b)
    ensures GroupedDigits(a + "_" + b) && IsDigit((a + "_" + b)[0])
  {
    var s := a + "_" + b;
    forall k | 0 <= k < |s|
      ensures GroupedAt(s, k)
    {
      if k < |a| {
        assert s[k] == a[k];
      } else if k == |a| {
        assert s[k + 1] == b[0];
      } else {
        assert s[k] == b[k - |a| - 1];
      }
    }
    assert s[0] == a[0];
    assert s[|s| - 1] == b[|b| - 1];
  }

  lemma JoinedDigitsDropped(a: seq<char>, b: seq<char>)
    requires AllDigits(a) && AllDigits(b)
    ensures AllDigits(a + b) && DropUnderscores(a + "_" + b) == a + b
  {
    AllDigitsAppend(a, b);
    var x := a + "_";
    DropUnderscoresAppend(a, "_");
    assert DropUnderscores("_") == [];
    assert DropUnderscores(x) == a;
    assert a + "_" + b == x + b;
    DropUnderscoresAppend(x, b);
  }

  lemma AllDigitsAppend(a: seq<char>, b: seq<char>)
    requires AllDigits(a) && AllDigits(b)
    ensures AllDigits(a + b)
  {
    var ab := a + b;
    forall k | 0 <= k < |ab|
      ensures IsDigit(ab[k])
    {
      if k < |a| { assert ab[k] == a[k]; } else { assert ab[k] == b[k - |a|]; }
    }
  }

  /** Python's `str(n)` for a natural number. */
  function NatToString(n: nat): (s: seq<char>)
    ensures |s| > 0 && AllDigits(s)
    ensures |s| > 1 ==> s[0] != '0'
  {
    if n < 10 then [DigitChar(n)] else NatToString(n / 10) + [DigitChar(n % 10)]
  }

  /** Python's `str(n)`. */
  function IntToString(n: int): (s: seq<char>)
    ensures |s| > 0
    ensures n < 0 <==> s[0] == '-'
  {
    if n < 0 then "-" + NatToString(-n) else NatToString(n)
  }

  /** Reading back the digits of `n` gives `n`. */
  lemma {:induction false} NatToStringValue(n: nat)
    ensures DigitsValue(NatToString(n)) == n
  {
    if n >= 10 {
      var s := NatToString(n);
      var prefix := NatToString(n / 10);
      assert s[..|s| - 1] == prefix;
      NatToStringValue(n / 10);
    }
  }

  /** A non-empty run of digits is validly grouped (it has no underscores). */
  lemma DigitsAreGrouped(s: seq<char>)
    requires |s| > 0 && AllDigits(s)
    ensures GroupedDigits(s)
  {
    forall k | 0 <= k < |s|
      ensures GroupedAt(s, k)
    {
      assert IsDigit(s[k]);
    }
  }

  /** `int(str(n)) == n`. */
  lemma ParseIntOfIntToString(n: int)
    ensures ParseInt(IntToString(n)) == Some(n)
  {
    var s := IntToString(n);
    var m: nat := if n < 0 then -n else n;
    var digits := NatToString(m);
    NatToStringValue(m);
    DigitsAreGrouped(digits);
    assert DropUnderscores(digits) == digits;
    if n < 0 {
      assert s == "-" + digits;
      assert s[1..] == digits;
    } else {
      assert s == digits;
      assert s[0] != '-' && s[0] != '+';
    }
  }
}
