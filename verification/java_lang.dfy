/**
 * The parts of the Java platform the engine leans on, stated exactly enough for the
 * model: 32- and 64-bit integer parsing, truncating division, narrowing casts,
 * `String.trim`, `String.split(",")`, `String.equalsIgnoreCase`, `String.endsWith`
 * and `ArrayList.remove(Object)`.
 */
module JavaLang {
  import opened Wrappers

  const INT_MIN: int := -0x8000_0000
  const INT_MAX: int := 0x7FFF_FFFF
  const LONG_MIN: int := -0x8000_0000_0000_0000
  const LONG_MAX: int := 0x7FFF_FFFF_FFFF_FFFF

  // ---------------------------------------------------------------------------
  // Decimal digits
  // ---------------------------------------------------------------------------

  predicate IsDigit(c: char) {
    '0' <= c <= '9'
  }

  predicate AllDigits(s: string) {
    forall i :: 0 <= i < |s| ==> IsDigit(s[i])
  }

  function DigitValue(c: char): nat
    requires IsDigit(c)
  {
    c as int - '0' as int
  }

  function DigitChar(d: nat): (c: char)
    requires d < 10
    ensures IsDigit(c) && DigitValue(c) == d
  {
    ('0' as int + d) as char
  }

  /** The value of a run of decimal digits, most significant digit first. */
  function DigitsValue(s: string): nat
    requires AllDigits(s)
  {
    if |s| == 0 then 0 else 10 * DigitsValue(s[..|s| - 1]) + DigitValue(s[|s| - 1])
  }

  /** The shortest decimal numeral of `n` (no sign, no leading zero). */
  function NatToString(n: nat): string
  {
    if n < 10 then [DigitChar(n)] else NatToString(n / 10) + [DigitChar(n % 10)]
  }

  /** `Integer.toString` / `Long.toString`: an optional minus sign and the numeral. */
  function IntToString(n: int): string
  {
    if n < 0 then "-" + NatToString(-n) else NatToString(n)
  }

  lemma {:induction false} NatToStringIsNumeral(n: nat)
    ensures |NatToString(n)| > 0 && AllDigits(NatToString(n))
    ensures DigitsValue(NatToString(n)) == n
  {
    if n >= 10 {
      NatToStringIsNumeral(n / 10);
      var s := NatToString(n / 10);
      assert NatToString(n) == s + [DigitChar(n % 10)];
      assert (s + [DigitChar(n % 10)])[..|s|] == s;
    }
  }

  // ---------------------------------------------------------------------------
  // Integer.parseInt / Long.parseLong
  // ---------------------------------------------------------------------------

  /**
   * Parses an optional '+' or '-' followed by at least one decimal digit, and
   * fails (None, the NumberFormatException) on anything else or on a value
   * outside [lo, hi]. No whitespace is skipped.
   */
  function ParseDecimal(s: string, lo: int, hi: int): (r: Option<int>)
    ensures r.Some? ==> lo <= r.value <= hi && |s| > 0
  {
    if |s| == 0 then None
    else
      var digits := if s[0] == '-' || s[0] == '+' then s[1..] else s;
      if |digits| == 0 || !AllDigits(digits) then None
      else
        var v: int := if s[0] == '-' then -(DigitsValue(digits) as int) else DigitsValue(digits);
        if lo <= v <= hi then Some(v) else None
  }

  /** `Integer.parseInt(s)`. */
  function ParseInt(s: string): Option<int>
  {
    ParseDecimal(s, INT_MIN, INT_MAX)
  }

  /** `Long.parseLong(s)`. */
  function ParseLong(s: string): Option<int>
  {
    ParseDecimal(s, LONG_MIN, LONG_MAX)
  }

  /** Parsing reads back what `IntToString` writes, for every value in range. */
  lemma ParseDecimalOfIntToString(n: int, lo: int, hi: int)
    requires lo <= n <= hi
    ensures ParseDecimal(IntToString(n), lo, hi) == Some(n)
  {
    var s := IntToString(n);
    if n < 0 {
      var digits := NatToString(-n);
      NatToStringIsNumeral(-n);
      assert s == "-" + digits;
      assert s[0] == '-' && s[1..] == digits;
      assert -(DigitsValue(digits) as int) == n;
    } else {
      NatToStringIsNumeral(n);
      assert IsDigit(s[0]);
      assert s[0] != '-' && s[0] != '+';
    }
  }

  lemma ParseIntOfIntToString(n: int)
    requires INT_MIN <= n <= INT_MAX
    ensures ParseInt(IntToString(n)) == Some(n)
  {
    ParseDecimalOfIntToString(n, INT_MIN, INT_MAX);
  }

  // ---------------------------------------------------------------------------
  // Arithmetic
  // ---------------------------------------------------------------------------

  function Abs(a: int): nat {
    if a < 0 then -a else a
  }

  /** Java's `/` on int and long: the quotient truncated toward zero. */
  function JDiv(a: int, b: int): (q: int)
    requires b != 0
    ensures a >= 0 && b > 0 ==> q == a / b
  {
    if a >= 0 && b > 0 then a / b
    else
      var q := Abs(a) / Abs(b);
      if (a < 0) != (b < 0) then -q else q
  }

  /** Java's `%` on int and long: the remainder takes the sign of the dividend. */
  function JRem(a: int, b: int): (r: int)
    requires b != 0
    ensures a == b * JDiv(a, b) + r
    ensures Abs(r) < Abs(b)
    ensures a >= 0 ==> r >= 0
    ensures a <= 0 ==> r <= 0
    ensures a >= 0 && b > 0 ==> r == a % b
  {
    var m := Abs(a) % Abs(b);
    TruncatedDivision(a, b);
    TruncatedRemainder(a, b);
    if a < 0 then -m else m
  }

  lemma TruncatedRemainder(a: int, b: int)
    requires b != 0
    ensures var r := if a < 0 then -(Abs(a) % Abs(b)) else Abs(a) % Abs(b);
      && Abs(r) < Abs(b)
      && (a >= 0 ==> r >= 0)
      && (a <= 0 ==> r <= 0)
      && (a >= 0 && b > 0 ==> r == a % b)
  {
    var m := Abs(a) % Abs(b);
    assert 0 <= m < Abs(b);
    if a == 0 {
      assert m == 0;
    }
  }

  lemma TruncatedDivision(a: int, b: int)
    requires b != 0
    ensures a == b * JDiv(a, b) + (if a < 0 then -(Abs(a) % Abs(b)) else Abs(a) % Abs(b))
  {
    var A: int, B: int := Abs(a), Abs(b);
    var q0: int, m: int := A / B, A % B;
    assert A == B * q0 + m;
    if a >= 0 && b > 0 {
      assert b * JDiv(a, b) == B * q0;
    } else if a >= 0 {
      assert b * JDiv(a, b) == (-B) * (-q0) == B * q0;
    } else if b > 0 {
      assert b * JDiv(a, b) == B * (-q0) == -(B * q0);
    } else {
      assert b * JDiv(a, b) == (-B) * q0 == -(B * q0);
    }
  }

  /** A narrowing cast to Java `int`: the low 32 bits, read as two's complement. */
  function ToInt32(v: int): (r: int)
    ensures INT_MIN <= r <= INT_MAX
    ensures INT_MIN <= v <= INT_MAX ==> r == v
  {
    if INT_MIN <= v <= INT_MAX then v else (v - INT_MIN) % 0x1_0000_0000 + INT_MIN
  }

  /** `(int) d` for a finite double: truncation toward zero, saturating at the int range. */
  function DoubleToInt(d: real): (r: int)
    ensures INT_MIN <= r <= INT_MAX
    ensures INT_MIN as real <= d <= INT_MAX as real ==> Abs(r) as real <= (if d < 0.0 then -d else d) < Abs(r) as real + 1.0
    ensures (d >= 0.0) ==> r >= 0
    ensures (d <= 0.0) ==> r <= 0
  {
    if d >= INT_MAX as real then INT_MAX
    else if d <= INT_MIN as real then INT_MIN
    else if d >= 0.0 then d.Floor
    else -((-d).Floor)
  }

  // ---------------------------------------------------------------------------
  // Strings
  // ---------------------------------------------------------------------------

  /** `String.trim`: drops every leading and trailing char at or below U+0020. */
  function Trim(s: string): string
  {
    TrimEnd(TrimStart(s))
  }

  function TrimStart(s: string): string
  {
    if |s| > 0 && s[0] <= ' ' then TrimStart(s[1..]) else s
  }

  function TrimEnd(s: string): string
  {
    if |s| > 0 && s[|s| - 1] <= ' ' then TrimEnd(s[..|s| - 1]) else s
  }

  /** `TrimStart` drops a prefix, and what it keeps does not start with a blank. */
  lemma {:induction false} TrimStartIsSuffix(s: string)
    ensures |TrimStart(s)| <= |s| && TrimStart(s) == s[|s| - |TrimStart(s)|..]
    ensures |TrimStart(s)| > 0 ==> TrimStart(s)[0] > ' '
  {
    if |s| > 0 && s[0] <= ' ' {
      TrimStartIsSuffix(s[1..]);
    }
  }

  /** `TrimEnd` drops a suffix, and what it keeps does not end with a blank. */
  lemma {:induction false} TrimEndIsPrefix(s: string)
    ensures |TrimEnd(s)| <= |s| && TrimEnd(s) == s[..|TrimEnd(s)|]
    ensures |TrimEnd(s)| > 0 ==> TrimEnd(s)[|TrimEnd(s)| - 1] > ' '
  {
    if |s| > 0 && s[|s| - 1] <= ' ' {
      TrimEndIsPrefix(s[..|s| - 1]);
    }
  }

  /**
   * `trim` returns a contiguous piece of its argument with no blank at either
   * end, and trimming twice is trimming once.
   */
  lemma TrimIsInfix(s: string)
    ensures 0 <= |s| - |TrimStart(s)| <= |s| - |TrimStart(s)| + |Trim(s)| <= |s|
    ensures Trim(s) == s[|s| - |TrimStart(s)|..|s| - |TrimStart(s)| + |Trim(s)|]
    ensures |Trim(s)| > 0 ==> Trim(s)[0] > ' ' && Trim(s)[|Trim(s)| - 1] > ' '
    ensures Trim(Trim(s)) == Trim(s)
  {
    var t := TrimStart(s);
    TrimStartIsSuffix(s);
    TrimEndIsPrefix(t);
    var r := Trim(s);
    if |r| > 0 {
      assert r[0] == t[0];
    }
  }

  /** Trimming leaves a numeral alone. */
  lemma TrimNumeral(s: string)
    requires |s| > 0 && (s[0] == '-' || IsDigit(s[0])) && IsDigit(s[|s| - 1])
    ensures Trim(s) == s
  {
  }

  /** `s.endsWith(suffix)`. */
  predicate EndsWith(s: string, suffix: string) {
    |suffix| <= |s| && s[|s| - |suffix|..] == suffix
  }

  /**
   * The case mapping `String.equalsIgnoreCase` applies, restricted to the
   * letters this model compares against: ASCII letters, plus U+017F (long s),
   * whose upper case is 'S'.
   */
  function UpperCase(c: char): char {
    if 'a' <= c <= 'z' then (c as int - 32) as char
    else if c == 'ſ' then 'S'
    else c
  }

  function LowerCase(c: char): char {
    if 'A' <= c <= 'Z' then (c as int + 32) as char else c
  }

  predicate CharsEqualIgnoreCase(a: char, b: char) {
    a == b || UpperCase(a) == UpperCase(b) || LowerCase(UpperCase(a)) == LowerCase(UpperCase(b))
  }

  /** `a.equalsIgnoreCase(b)`: same length and char-wise equal up to case. */
  predicate EqualsIgnoreCase(a: string, b: string) {
    |a| == |b| && forall i :: 0 <= i < |a| ==> CharsEqualIgnoreCase(a[i], b[i])
  }

  // ---------------------------------------------------------------------------
  // String.split(",")
  // ---------------------------------------------------------------------------

  /** Every comma-separated field of `s`, empty ones included (one more than the commas). */
  function Fields(s: string): (r: seq<string>)
    ensures |r| >= 1
  {
    if |s| == 0 then [""]
    else
      var rest := Fields(s[1..]);
      if s[0] == ',' then [""] + rest else [[s[0]] + rest[0]] + rest[1..]
  }

  function DropTrailingEmpty(fs: seq<string>): (r: seq<string>)
    ensures |r| <= |fs| && r == fs[..|r|]
    ensures |r| > 0 ==> r[|r| - 1] != ""
  {
    if |fs| > 0 && fs[|fs| - 1] == "" then DropTrailingEmpty(fs[..|fs| - 1]) else fs
  }

  /**
   * `s.split(",")`: the string itself when it holds no comma, otherwise its
   * fields with the trailing empty ones removed.
   */
  function Split(s: string): seq<string>
  {
    if ',' in s then DropTrailingEmpty(Fields(s)) else [s]
  }

  /** Comma-joins a non-empty list of tokens. */
  function Join(ts: seq<string>): string
    requires |ts| >= 1
  {
    if |ts| == 1 then ts[0] else ts[0] + "," + Join(ts[1..])
  }

  lemma {:induction false} FieldsOfCommaFree(a: string)
    requires ',' !in a
    ensures Fields(a) == [a]
  {
    if |a| > 0 {
      FieldsOfCommaFree(a[1..]);
      assert [a[0]] + a[1..] == a;
    }
  }

  lemma {:induction false} FieldsOfCons(a: string, b: string)
    requires ',' !in a
    ensures Fields(a + "," + b) == [a] + Fields(b)
  {
    if |a| == 0 {
      assert a + "," + b == [','] + b;
      assert (a + "," + b)[1..] == b;
    } else {
      FieldsOfCons(a[1..], b);
      assert (a + "," + b)[1..] == a[1..] + "," + b;
      assert [a[0]] + a[1..] == a;
    }
  }

  lemma {:induction false} FieldsOfJoin(ts: seq<string>)
    requires |ts| >= 1
    requires forall i :: 0 <= i < |ts| ==> ',' !in ts[i]
    ensures Fields(Join(ts)) == ts
  {
    if |ts| == 1 {
      FieldsOfCommaFree(ts[0]);
    } else {
      FieldsOfJoin(ts[1..]);
      FieldsOfCons(ts[0], Join(ts[1..]));
      assert [ts[0]] + ts[1..] == ts;
    }
  }

  /**
   * Splitting a comma-joined list gives the list back, provided no token holds
   * a comma and the last one is not empty (Java drops trailing empty fields).
   */
  lemma SplitOfJoin(ts: seq<string>)
    requires |ts| >= 1
    requires forall i :: 0 <= i < |ts| ==> ',' !in ts[i]
    requires ts[|ts| - 1] != ""
    ensures Split(Join(ts)) == ts
  {
    FieldsOfJoin(ts);
    if |ts| == 1 {
      assert Join(ts) == ts[0];
    } else {
      assert Join(ts) == ts[0] + "," + Join(ts[1..]);
      assert (ts[0] + "," + Join(ts[1..]))[|ts[0]|] == ',';
    }
  }

  // ---------------------------------------------------------------------------
  // ArrayList.remove(Object)
  // ---------------------------------------------------------------------------

  /** `list.indexOf(x)`: the position of the first element equal to `x`. */
  function IndexOf<T(==)>(s: seq<T>, x: T): (i: nat)
    requires x in s
    ensures i < |s| && s[i] == x && x !in s[..i]
  {
    if s[0] == x then 0
    else
      var j := IndexOf(s[1..], x);
      assert s[..j + 1] == [s[0]] + s[1..][..j];
      1 + j
  }

  /**
   * `list.remove(x)`: drops the first element equal to `x`, if there is one;
   * the rest keep their order.
   */
  function RemoveFirst<T(==)>(s: seq<T>, x: T): (r: seq<T>)
    ensures x !in s ==> r == s
    ensures x in s ==> |r| == |s| - 1 && multiset(r) == multiset(s) - multiset{x}
  {
    if x in s then
      var i := IndexOf(s, x);
      assert s == s[..i] + [x] + s[i + 1..];
      s[..i] + s[i + 1..]
    else s
  }

  /**
   * `list.remove(x)` takes out the first `x` and keeps the order of the rest:
   * the list is the result with `x` put back, at the first position of `x`,
   * after a prefix free of `x`.
   */
  lemma RemoveFirstKeepsOrder<T>(s: seq<T>, x: T)
    requires x in s
    ensures var k := IndexOf(s, x); var r := RemoveFirst(s, x);
      k <= |r| && s == r[..k] + [x] + r[k..] && x !in r[..k]
  {
    var i := IndexOf(s, x);
    assert RemoveFirst(s, x) == s[..i] + s[i + 1..];
    SpliceBack(s, i);
  }

  /** Cutting out element `i` and putting it back gives the list again. */
  lemma SpliceBack<T>(s: seq<T>, i: int)
    requires 0 <= i < |s|
    ensures var r := s[..i] + s[i + 1..];
      r[..i] == s[..i] && s == r[..i] + [s[i]] + r[i..]
  {
    var r := s[..i] + s[i + 1..];
    assert r[..i] == s[..i];
    assert r[i..] == s[i + 1..];
    assert s == s[..i] + [s[i]] + s[i + 1..];
  }

  /** Appending an element that was absent and then removing it restores the list. */
  lemma RemoveFirstOfAppend<T>(s: seq<T>, x: T)
    requires x !in s
    ensures RemoveFirst(s + [x], x) == s
  {
    var i := IndexOf(s + [x], x);
    assert forall j :: 0 <= j < |s| ==> (s + [x])[j] == s[j] != x;
    assert (s + [x])[..|s|] == s;
  }
}
