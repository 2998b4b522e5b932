/** The few `java.lang.String` and `java.lang.Integer` operations the legacy
    world layer relies on: radix formatting and parsing of `int`s, splitting
    on a literal separator, and suffix/prefix tests. Strings are `seq<char>`. */
module JavaText {
  import opened JavaInt

  /** The digit character for `d`, lower-case as `Integer.toString` writes it. */
  function DigitChar(d: nat): (c: char)
    requires d < 36
  {
    if d < 10 then ('0' as int + d) as char else ('a' as int + d - 10) as char
  }

  /** `Character.digit(c, 36)` on ASCII: the value of `c` as a base-36 digit
      in either case, or -1. */
  function DigitValue(c: char): (v: int)
    ensures -1 <= v < 36
  {
    if '0' <= c <= '9' then c as int - '0' as int
    else if 'a' <= c <= 'z' then c as int - 'a' as int + 10
    else if 'A' <= c <= 'Z' then c as int - 'A' as int + 10
    else -1
  }

  predicate IsDigit(c: char, radix: nat)
  {
    0 <= DigitValue(c) < radix
  }

  predicate AllDigits(s: string, radix: nat)
  {
    forall i :: 0 <= i < |s| ==> IsDigit(s[i], radix)
  }

  /** The number a digit string denotes, most significant digit first. */
  function DigitsValue(s: string, radix: nat): nat
    requires AllDigits(s, radix)
  {
    if |s| == 0 then 0
    else DigitsValue(s[..|s| - 1], radix) * radix + DigitValue(s[|s| - 1])
  }

  /** The digits of `n` in base `radix`, without leading zeros. */
  function NatDigits(n: nat, radix: nat): (s: string)
    requires 2 <= radix <= 36
    ensures 1 <= |s| && AllDigits(s, radix)
    decreases n
  {
    if n < radix then [DigitChar(n)]
    else
      DivStep(n, radix);
      var front := NatDigits(n / radix, radix);
      var last := DigitChar(n % radix);
      assert IsDigit(last, radix) by { DigitRoundTrip(n % radix); }
      AllDigitsSnoc(front, last, radix);
      front + [last]
  }

  lemma DivStep(n: int, radix: int)
    requires 2 <= radix <= n
    ensures 0 <= n / radix < n && 0 <= n % radix < radix
  {
    DivBounds(n, radix);
    DivModUnique(n, radix, n / radix, n % radix);
    if n / radix == n {
      MulAtLeast(n, radix);
    }
  }

  lemma AllDigitsSnoc(s: string, c: char, radix: nat)
    requires AllDigits(s, radix) && IsDigit(c, radix)
    ensures AllDigits(s + [c], radix)
  {
  }

  /** `Integer.toString(i, radix)`; an unsupported radix falls back to 10. */
  function IntToString(i: Int32, radix: int): (s: string)
  {
    var r := if radix < 2 || radix > 36 then 10 else radix;
    if i < 0 then "-" + NatDigits(-(i as int), r) else NatDigits(i, r)
  }

  /** `Integer.toString(i)` and `"" + i`. */
  function Decimal(i: Int32): string
  {
    IntToString(i, 10)
  }

  /** `Integer.parseInt(s, radix)`: an optional sign followed by at least one
      digit of the radix, whose value must fit an `int`; anything else is a
      `NumberFormatException`. */
  function ParseInt(s: string, radix: int): (r: Result<Int32>)
    ensures r.Err? ==> r.error == NumberFormat
    ensures r.Ok? ==> 2 <= radix <= 36 && 1 <= |s|
    ensures r.Ok? && s[0] != '-' && s[0] != '+' ==>
      AllDigits(s, radix) && r.value == DigitsValue(s, radix)
  {
    if radix < 2 || radix > 36 || |s| == 0 then Err(NumberFormat)
    else if s[0] == '-' then ParseDigits(s[1..], radix, true)
    else if s[0] == '+' then ParseDigits(s[1..], radix, false)
    else ParseDigits(s, radix, false)
  }

  /** The digits after the sign: at least one, all of the radix, and a value
      that fits an `int` once the sign is applied. */
  function ParseDigits(digits: string, radix: int, negative: bool): (r: Result<Int32>)
    requires 2 <= radix <= 36
    ensures r.Err? ==> r.error == NumberFormat
    ensures r.Ok? ==> 1 <= |digits| && AllDigits(digits, radix)
    ensures r.Ok? ==> r.value == if negative then 0 - DigitsValue(digits, radix) else DigitsValue(digits, radix)
  {
    if |digits| == 0 || !AllDigits(digits, radix) then Err(NumberFormat)
    else
      var v: int := if negative then 0 - DigitsValue(digits, radix) else DigitsValue(digits, radix);
      if v < INT_MIN || v > INT_MAX then Err(NumberFormat) else Ok(v)
  }

  /** `Integer.parseInt(s)`. */
  function ParseDecimal(s: string): Result<Int32>
  {
    ParseInt(s, 10)
  }

  /** `s.endsWith(suffix)`. */
  predicate EndsWith(s: string, suffix: string)
  {
    |suffix| <= |s| && s[|s| - |suffix|..] == suffix
  }

  /** `s.startsWith(prefix)`. */
  predicate StartsWith(s: string, prefix: string)
  {
    |prefix| <= |s| && s[..|prefix|] == prefix
  }

  /** Every piece between separators, empty pieces included. */
  function SplitAll(s: string, sep: char): (parts: seq<string>)
    ensures |parts| >= 1
    ensures forall i :: 0 <= i < |parts| ==> sep !in parts[i]
  {
    if |s| == 0 then [""]
    else if s[0] == sep then [""] + SplitAll(s[1..], sep)
    else
      var rest := SplitAll(s[1..], sep);
      [[s[0]] + rest[0]] + rest[1..]
  }

  function DropTrailingEmpty(parts: seq<string>): (r: seq<string>)
    ensures |r| <= |parts| && r == parts[..|r|]
    ensures |r| > 0 ==> r[|r| - 1] != ""
    ensures forall i :: |r| <= i < |parts| ==> parts[i] == ""
  {
    if |parts| > 0 && parts[|parts| - 1] == "" then DropTrailingEmpty(parts[..|parts| - 1])
    else parts
  }

  /** `s.split(regex)` for a regex matching the single character `sep` (as
      `"\\."` does): without a separator the result is `[s]`, otherwise the
      pieces with trailing empty ones removed. */
  function Split(s: string, sep: char): (parts: seq<string>)
    ensures sep !in s ==> parts == [s]
  {
    if sep !in s then [s] else DropTrailingEmpty(SplitAll(s, sep))
  }

  // ---------------------------------------------------------------------
  // Properties

  lemma DigitRoundTrip(d: nat)
    requires d < 36
    ensures DigitValue(DigitChar(d)) == d
  {
  }

  lemma {:induction false} DigitsValueSnoc(s: string, c: char, radix: nat)
    requires AllDigits(s, radix) && IsDigit(c, radix)
    ensures AllDigits(s + [c], radix)
    ensures DigitsValue(s + [c], radix) == DigitsValue(s, radix) * radix + DigitValue(c)
  {
    assert (s + [c])[..|s|] == s;
  }

  /** Reading back the digits of `n` gives `n`. */
  lemma {:induction false} NatDigitsValue(n: nat, radix: nat)
    requires 2 <= radix <= 36
    ensures DigitsValue(NatDigits(n, radix), radix) == n
    decreases n
  {
    if n < radix {
      DigitRoundTrip(n);
    } else {
      var q, m := n / radix, n % radix;
      DivStep(n, radix);
      DivModUnique(n, radix, q, m);
      NatDigitsValue(q, radix);
      DigitRoundTrip(m);
      var front := NatDigits(q, radix);
      assert NatDigits(n, radix) == front + [DigitChar(m)];
      DigitsValueSnoc(front, DigitChar(m), radix);
      assert DigitsValue(front, radix) * radix + m == n;
    }
  }

  /** `Integer.parseInt(Integer.toString(i, radix), radix) == i` for every
      `int` and every supported radix. */
  lemma ParseOfToString(i: Int32, radix: int)
    requires 2 <= radix <= 36
    ensures ParseInt(IntToString(i, radix), radix) == Ok(i)
  {
    var n: nat := if i < 0 then -(i as int) else i;
    var ds := NatDigits(n, radix);
    var s := IntToString(i, radix);
    if i < 0 {
      assert s == "-" + ds;
      ParseSigned(ds, radix, n);
    } else {
      assert s == ds;
      ParseUnsigned(ds, radix, n);
    }
  }

  lemma ParseSigned(ds: string, radix: int, n: nat)
    requires 2 <= radix <= 36 && 1 <= n <= -INT_MIN && ds == NatDigits(n, radix)
    ensures ParseInt("-" + ds, radix) == Ok(0 - n)
  {
    NatDigitsValue(n, radix);
    var s := "-" + ds;
    assert s[1..] == ds;
    assert ParseDigits(ds, radix, true) == Ok(0 - n);
  }

  lemma ParseUnsigned(ds: string, radix: int, n: nat)
    requires 2 <= radix <= 36 && n <= INT_MAX && ds == NatDigits(n, radix)
    ensures ParseInt(ds, radix) == Ok(n)
  {
    NatDigitsValue(n, radix);
    assert IsDigit(ds[0], radix);
    assert ParseDigits(ds, radix, false) == Ok(n);
  }

  /** A formatted number is never empty, and it starts with `-` exactly when
      it is negative. */
  lemma ToStringShape(i: Int32, radix: int)
    ensures |IntToString(i, radix)| >= 1
    ensures IntToString(i, radix)[0] == '-' <==> i < 0
  {
    var r := if radix < 2 || radix > 36 then 10 else radix;
    var n: nat := if i < 0 then -(i as int) else i;
    assert DigitValue(NatDigits(n, r)[0]) >= 0;
  }

  /** Below `radix^2`, at most two digits are written. */
  lemma SmallNatDigits(n: nat, radix: nat)
    requires 2 <= radix <= 36 && n < radix * radix
    ensures |NatDigits(n, radix)| <= 2
  {
    if n >= radix {
      DivStep(n, radix);
      DivBelow(n, radix, radix);
    }
  }

  lemma DivBelow(n: nat, d: int, k: int)
    requires d >= 1 && n < d * k
    ensures n / d < k
  {
    DivModUnique(n, d, n / d, n % d);
    if n / d >= k {
      MulNonNeg(d, n / d - k);
    }
  }

  /** The digit characters never include a separator such as `.` or `/`. */
  lemma NoSeparatorInNumber(i: Int32, radix: int, sep: char)
    requires sep == '.' || sep == '/'
    ensures sep !in IntToString(i, radix)
  {
    var r := if radix < 2 || radix > 36 then 10 else radix;
    var n: nat := if i < 0 then -(i as int) else i;
    var ds := NatDigits(n, r);
    forall k | 0 <= k < |ds|
      ensures ds[k] != sep
    {
      assert IsDigit(ds[k], r);
    }
  }

  /** Splitting a piece free of the separator gives that piece. */
  lemma {:induction false} SplitAllNoSep(s: string, sep: char)
    requires sep !in s
    ensures SplitAll(s, sep) == [s]
    decreases |s|
  {
    if |s| > 0 {
      SplitAllNoSep(s[1..], sep);
      assert [s[0]] + s[1..] == s;
    }
  }

  /** A separator splits the pieces on either side of it apart. */
  lemma {:induction false} SplitAllJoin(a: string, b: string, sep: char)
    requires sep !in a
    ensures SplitAll(a + [sep] + b, sep) == [a] + SplitAll(b, sep)
    decreases |a|
  {
    if |a| == 0 {
      assert a + [sep] + b == [sep] + b;
      assert ([sep] + b)[1..] == b;
    } else {
      var s := a + [sep] + b;
      assert s[0] == a[0];
      assert s[1..] == a[1..] + [sep] + b;
      SplitAllJoin(a[1..], b, sep);
      assert [a[0]] + a[1..] == a;
    }
  }
}
