/** The few string operations of java.lang.String the ledger relies on. */
module Text {

  /** `String.trim` drops every leading and trailing char whose code is at most U+0020. */
  predicate IsTrimmable(c: char) {
    c <= ' '
  }

  /** The string without its leading trimmable chars. */
  function TrimStart(s: string): (r: string)
    ensures |r| <= |s|
  {
    if s == [] || !IsTrimmable(s[0]) then s else TrimStart(s[1..])
  }

  /** The string without its trailing trimmable chars. */
  function TrimEnd(s: string): (r: string)
    ensures |r| <= |s|
  {
    if s == [] || !IsTrimmable(s[|s| - 1]) then s else TrimEnd(s[..|s| - 1])
  }

  /** TrimStart keeps a suffix, drops only trimmable chars, and stops at a non-trimmable one. */
  lemma {:induction false} TrimStartSpec(s: string)
    ensures var r := TrimStart(s);
      && r == s[|s| - |r|..]
      && (forall i :: 0 <= i < |s| - |r| ==> IsTrimmable(s[i]))
      && (r == [] || !IsTrimmable(r[0]))
    decreases |s|
  {
    if s != [] && IsTrimmable(s[0]) {
      TrimStartSpec(s[1..]);
      var r := TrimStart(s[1..]);
      assert s[1..][|s| - 1 - |r|..] == s[|s| - |r|..];
      forall i | 0 <= i < |s| - |r|
        ensures IsTrimmable(s[i])
      {
        if i > 0 {
          assert s[i] == s[1..][i - 1];
        }
      }
    }
  }

  /** TrimEnd keeps a prefix, drops only trimmable chars, and stops at a non-trimmable one. */
  lemma {:induction false} TrimEndSpec(s: string)
    ensures var r := TrimEnd(s);
      && r == s[..|r|]
      && (forall i :: |r| <= i < |s| ==> IsTrimmable(s[i]))
      && (r == [] || !IsTrimmable(r[|r| - 1]))
    decreases |s|
  {
    if s != [] && IsTrimmable(s[|s| - 1]) {
      TrimEndSpec(s[..|s| - 1]);
      var r := TrimEnd(s[..|s| - 1]);
      assert s[..|s| - 1][..|r|] == s[..|r|];
      forall i | |r| <= i < |s|
        ensures IsTrimmable(s[i])
      {
        if i < |s| - 1 {
          assert s[i] == s[..|s| - 1][i];
        }
      }
    }
  }

  /** `String.trim`: what it returns is empty or has no trimmable char at either end. */
  function Trim(s: string): (r: string)
    ensures |r| <= |s|
    ensures r == [] || IsTrimmed(r)
  {
    var t := TrimStart(s);
    TrimStartSpec(s);
    TrimEndSpec(t);
    var r := TrimEnd(t);
    assert r != [] ==> r[0] == t[0];
    r
  }

  /** `s.trim().isEmpty()`. */
  predicate IsBlank(s: string) {
    Trim(s) == []
  }

  /** A non-empty string with no trimmable char at either end: what Trim leaves of a non-blank string. */
  predicate IsTrimmed(s: string) {
    s != [] && !IsTrimmable(s[0]) && !IsTrimmable(s[|s| - 1])
  }

  /** A trimmed string is its own trim. */
  lemma TrimmedIsFixed(s: string)
    requires IsTrimmed(s)
    ensures Trim(s) == s
  {
  }

  /** Trim keeps one contiguous slice of its input, drops only trimmable chars
      around it, and leaves no trimmable char at either end. */
  lemma TrimIsSlice(s: string)
    ensures var k := |s| - |TrimStart(s)|;
            && k + |Trim(s)| <= |s|
            && Trim(s) == s[k..k + |Trim(s)|]
            && (forall i :: 0 <= i < k ==> IsTrimmable(s[i]))
            && (forall i :: k + |Trim(s)| <= i < |s| ==> IsTrimmable(s[i]))
            && (Trim(s) == [] || (!IsTrimmable(Trim(s)[0]) && !IsTrimmable(Trim(s)[|Trim(s)| - 1])))
  {
    TrimStartSpec(s);
    var t := TrimStart(s);
    TrimEndSpec(t);
    var k := |s| - |t|;
    var r := TrimEnd(t);
    assert r == t[..|r|];
    forall i | k + |r| <= i < |s| ensures IsTrimmable(s[i]) {
      assert s[i] == t[i - k];
    }
    if r != [] {
      assert r[0] == t[0];
    }
  }

  /** A string is blank exactly when every char of it is trimmable. */
  lemma BlankIff(s: string)
    ensures IsBlank(s) <==> forall i :: 0 <= i < |s| ==> IsTrimmable(s[i])
  {
    TrimStartSpec(s);
    var t := TrimStart(s);
    if t != [] {
      TrimEndSpec(t);
      var r := TrimEnd(t);
      assert !IsTrimmable(t[0]);
      assert |r| > 0;
      assert !IsTrimmable(s[|s| - |t|]);
    }
  }

  /** Trimming a trimmed string changes nothing. */
  lemma TrimIdempotent(s: string)
    ensures Trim(Trim(s)) == Trim(s)
  {
    TrimIsSlice(s);
  }

  /** `Character.toUpperCase` restricted to ASCII letters. */
  function UpperChar(c: char): char {
    if 'a' <= c <= 'z' then (c as int - 32) as char else c
  }

  /** `String.toUpperCase`, ASCII letters only. */
  function ToUpper(s: string): (r: string)
    ensures |r| == |s|
    ensures forall i :: 0 <= i < |s| ==> r[i] == UpperChar(s[i])
  {
    seq(|s|, i requires 0 <= i < |s| => UpperChar(s[i]))
  }

  predicate IsUpperLetter(c: char) {
    'A' <= c <= 'Z'
  }

  predicate IsDigit(c: char) {
    '0' <= c <= '9'
  }

  /** The IFSC pattern `[A-Z]{4}0[A-Z0-9]{6}`, matched against the whole string.
      A code that matches is its own upper-case form, so upper-casing a
      matching code before storing it keeps it matching. */
  function IsIfsc(s: string): (r: bool)
    ensures r ==> ToUpper(s) == s
  {
    var r :=
      && |s| == 11
      && (forall i :: 0 <= i < 4 ==> IsUpperLetter(s[i]))
      && s[4] == '0'
      && (forall i :: 5 <= i < 11 ==> IsUpperLetter(s[i]) || IsDigit(s[i]));
    assert r ==> forall i :: 0 <= i < |s| ==> UpperChar(s[i]) == s[i];
    r
  }

  function DigitChar(d: int): char
    requires 0 <= d < 10
  {
    ('0' as int + d) as char
  }

  /** The decimal rendering of a natural number, as string concatenation gives it. */
  function NatToString(n: nat): (r: string)
    ensures |r| > 0 && IsDigit(r[0]) && IsDigit(r[|r| - 1])
  {
    if n < 10 then [DigitChar(n)] else NatToString(n / 10) + [DigitChar(n % 10)]
  }

  /** The decimal rendering of an int, with a leading '-' when negative. */
  function IntToString(n: int): (r: string)
    ensures |r| > 0 && IsDigit(r[|r| - 1])
  {
    if n < 0 then "-" + NatToString(-n) else NatToString(n)
  }

  const TWO_32: int := 0x1_0000_0000
  const TWO_31: int := 0x8000_0000

  /** The Java `int` an arithmetic result wraps to. */
  function Wrap32(x: int): (r: int)
    ensures -TWO_31 <= r < TWO_31
    ensures (r - x) % TWO_32 == 0
  {
    (x + TWO_31) % TWO_32 - TWO_31
  }

  /** The UTF-16 code units Java stores for one char: the char itself below
      U+10000, otherwise a high surrogate followed by a low surrogate. */
  function Utf16(c: char): (u: seq<int>)
    ensures |u| == if c as int < 0x10000 then 1 else 2
  {
    var v := c as int;
    if v < 0x10000 then [v] else [0xD800 + (v - 0x10000) / 0x400, 0xDC00 + (v - 0x10000) % 0x400]
  }

  /** The surrogate pair decodes back to the char, so no two chars share their units. */
  lemma Utf16Decodes(c: char)
    ensures var u := Utf16(c);
      if c as int < 0x10000 then u == [c as int]
      else
        && 0xD800 <= u[0] < 0xDC00 <= u[1] < 0xE000
        && (u[0] - 0xD800) * 0x400 + (u[1] - 0xDC00) + 0x10000 == c as int
  {
  }

  /** A Java string: the UTF-16 code units of its chars, in order. */
  function Utf16Units(s: string): (u: seq<int>)
    ensures |u| >= |s|
  {
    if s == [] then [] else Utf16(s[0]) + Utf16Units(s[1..])
  }

  /** `String.length()`: the number of UTF-16 code units. */
  function JavaLength(s: string): nat {
    |Utf16Units(s)|
  }

  /** A string of chars below U+10000 has one code unit per char. */
  lemma {:induction false} BmpLength(s: string)
    requires forall i :: 0 <= i < |s| ==> s[i] as int < 0x10000
    ensures JavaLength(s) == |s|
    decreases |s|
  {
    if s != [] {
      BmpLength(s[1..]);
    }
  }

  /** h = 31 * h + unit over the code units, in 32-bit arithmetic. */
  function UnitsHash(u: seq<int>): (h: int)
    ensures -TWO_31 <= h < TWO_31
  {
    if u == [] then 0 else Wrap32(31 * UnitsHash(u[..|u| - 1]) + u[|u| - 1])
  }

  /** `String.hashCode`, taken over the UTF-16 code units as Java does. */
  function StringHash(s: string): (h: int)
    ensures -TWO_31 <= h < TWO_31
  {
    UnitsHash(Utf16Units(s))
  }

  /** 31 raised to the power n. */
  function Pow31(n: nat): (p: nat)
    ensures p >= 1
  {
    if n == 0 then 1 else 31 * Pow31(n - 1)
  }

  /** The documented value of `hashCode` before any overflow:
      u[0]*31^(n-1) + u[1]*31^(n-2) + ... + u[n-1]. */
  function HashPolynomial(u: seq<int>): int
    decreases |u|
  {
    if u == [] then 0 else u[0] * Pow31(|u| - 1) + HashPolynomial(u[1..])
  }

  /** Horner's rule: peeling the last unit off the polynomial. */
  lemma {:induction false} HashPolynomialLast(u: seq<int>)
    requires u != []
    ensures HashPolynomial(u) == 31 * HashPolynomial(u[..|u| - 1]) + u[|u| - 1]
    decreases |u|
  {
    if |u| > 1 {
      var w := u[1..];
      HashPolynomialLast(w);
      assert w[..|w| - 1] == u[..|u| - 1][1..];
      var p := Pow31(|u| - 2);
      assert u[0] * (31 * p) == 31 * (u[0] * p);
    }
  }

  /** A multiple of 2^32 stays one when scaled by 31 and added to another. */
  lemma MultiplesOfTwo32(x: int, y: int)
    requires x % TWO_32 == 0 && y % TWO_32 == 0
    ensures (31 * x + y) % TWO_32 == 0
  {
    var i, j := x / TWO_32, y / TWO_32;
    assert 31 * x + y == (31 * i + j) * TWO_32;
  }

  /** The wrapped hash is the documented polynomial reduced to a Java `int`:
      congruent to it modulo 2^32, and equal to it whenever it fits. */
  lemma {:induction false} UnitsHashIsPolynomial(u: seq<int>)
    ensures (UnitsHash(u) - HashPolynomial(u)) % TWO_32 == 0
    ensures -TWO_31 <= HashPolynomial(u) < TWO_31 ==> UnitsHash(u) == HashPolynomial(u)
    decreases |u|
  {
    if u != [] {
      var init, last := u[..|u| - 1], u[|u| - 1];
      UnitsHashIsPolynomial(init);
      HashPolynomialLast(u);
      var x := 31 * UnitsHash(init) + last;
      MultiplesOfTwo32(UnitsHash(init) - HashPolynomial(init), UnitsHash(u) - x);
      assert UnitsHash(u) - HashPolynomial(u) == 31 * (UnitsHash(init) - HashPolynomial(init)) + (UnitsHash(u) - x);
    }
    var d := UnitsHash(u) - HashPolynomial(u);
    if -TWO_31 <= HashPolynomial(u) < TWO_31 {
      assert -TWO_32 < d < TWO_32;
    }
  }

  /** Two values as Java computes them: "ab" hashes to 97 * 31 + 98, and
      U+1F600 hashes through its surrogate pair 0xD83D, 0xDE00. */
  lemma StringHashExamples()
    ensures StringHash("ab") == 3105
    ensures StringHash("\U{1F600}") == 1772899
  {
    assert Utf16Units("ab") == [97, 98];
    assert [97, 98][..1] == [97];
    assert UnitsHash([97]) == 97;
    assert Utf16Units("\U{1F600}") == [0xD83D, 0xDE00];
    assert [0xD83D, 0xDE00][..1] == [0xD83D];
  }
}
