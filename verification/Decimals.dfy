/** Decimal strings: the digits of a number and back, an 18-decimal raw value and back, and trimming
    (rawPriceToDecimalString, floatToRaw and normalizeDecimalString in client.go). */
module Decimals {
  import opened Market

  const SCALE: int := 1_000_000_000_000_000_000
  const PLACES: nat := 18

  // ----- digits -----

  predicate IsDigit(c: char) {
    '0' <= c <= '9'
  }

  function DigitOf(d: nat): (c: char)
    requires d < 10
    ensures IsDigit(c) && ValueOf(c) == d
  {
    ('0' as int + d) as char
  }

  function ValueOf(c: char): (d: nat)
    requires IsDigit(c)
    ensures d < 10
  {
    c as int - '0' as int
  }

  predicate AllDigits(s: string) {
    forall i :: 0 <= i < |s| ==> IsDigit(s[i])
  }

  function Pow10(n: nat): (p: nat)
    ensures p >= 1
  {
    if n == 0 then 1 else 10 * Pow10(n - 1)
  }

  function Number(s: string): nat
    requires AllDigits(s)
  {
    if s == "" then 0 else 10 * Number(s[..|s| - 1]) + ValueOf(s[|s| - 1])
  }

  /** No leading zero but in "0" itself. */
  function Digits(n: nat): (s: string)
    ensures s != "" && AllDigits(s)
  {
    if n < 10 then [DigitOf(n)] else Digits(n / 10) + [DigitOf(n % 10)]
  }

  lemma {:induction false} DigitsRoundTrip(n: nat)
    ensures Number(Digits(n)) == n
  {
    if n < 10 {
      assert Digits(n)[..0] == "";
    } else {
      DigitsRoundTrip(n / 10);
      var s := Digits(n);
      assert s[..|s| - 1] == Digits(n / 10);
    }
  }

  /** The low `width` digits of n, zeros included. */
  function Padded(n: nat, width: nat): (s: string)
    ensures |s| == width && AllDigits(s)
  {
    if width == 0 then "" else Padded(n / 10, width - 1) + [DigitOf(n % 10)]
  }

  lemma {:induction false} PaddedRoundTrip(n: nat, width: nat)
    requires n < Pow10(width)
    ensures Number(Padded(n, width)) == n
  {
    if width > 0 {
      PaddedRoundTrip(n / 10, width - 1);
      var s := Padded(n, width);
      assert s[..width - 1] == Padded(n / 10, width - 1);
    }
  }

  // ----- decimal numbers -----

  function DotAt(s: string): (i: nat)
    ensures i <= |s| && (i < |s| ==> s[i] == '.')
    ensures forall j :: 0 <= j < i ==> s[j] != '.'
  {
    if s == "" || s[0] == '.' then 0 else 1 + DotAt(s[1..])
  }

  function Fraction(s: string): real
    requires AllDigits(s)
  {
    Number(s) as real / Pow10(|s|) as real
  }

  /** A plain decimal without a sign: digits, at most one point, at least one digit. */
  function ParseUnsigned(s: string): Option<real> {
    var i := DotAt(s);
    var whole, rest := s[..i], if i < |s| then s[i + 1..] else "";
    if !AllDigits(whole) || !AllDigits(rest) || whole + rest == "" then None
    else Some(Number(whole) as real + Fraction(rest))
  }

  function Parse(s: string): Option<real> {
    if s != "" && s[0] == '-' then
      var v := ParseUnsigned(s[1..]);
      if v.Some? then Some(-v.value) else None
    else ParseUnsigned(s)
  }

  // ----- trimming -----

  function TrimRightOf(s: string, c: char): (t: string)
    ensures t <= s && (t != "" ==> t[|t| - 1] != c)
    ensures forall i :: |t| <= i < |s| ==> s[i] == c
  {
    if s != "" && s[|s| - 1] == c then TrimRightOf(s[..|s| - 1], c) else s
  }

  function Normalize(raw: string): string {
    var s := Trim(raw);
    if s == "" || DotAt(s) == |s| then s
    else
      var t := TrimRightOf(TrimRightOf(s, '0'), '.');
      if t == "" || t == "-" then "0" else t
  }

  lemma {:induction false} ZerosAreWorthless(s: string, n: nat)
    requires AllDigits(s) && n <= |s| && forall i :: n <= i < |s| ==> s[i] == '0'
    ensures AllDigits(s[..n]) && Number(s) == Number(s[..n]) * Pow10(|s| - n)
  {
    if n == |s| {
      assert s[..n] == s;
    } else {
      var init := s[..|s| - 1];
      ZerosAreWorthless(init, n);
      assert init[..n] == s[..n];
    }
  }

  lemma {:induction false} Pow10Splits(a: nat, b: nat)
    ensures Pow10(a + b) == Pow10(a) * Pow10(b)
  {
    if a > 0 {
      Pow10Splits(a - 1, b);
    }
  }

  lemma Quotient(y: real, z: real, a: real)
    requires z != 0.0 && y == a * z
    ensures y / z == a
  {
  }

  lemma CommonFactor(x: nat, p: nat, q: nat)
    requires p >= 1 && q >= 1
    ensures p * q >= 1 && (x * q) as real / (p * q) as real == x as real / p as real
  {
    assert p * q >= 1;
    var a := x as real / p as real;
    assert a * p as real == x as real;
    Casts(x, q);
    Casts(p, q);
    Reassociate(a, p as real, q as real, x as real);
    Quotient((x * q) as real, (p * q) as real, a);
  }

  lemma Casts(x: nat, q: nat)
    ensures (x * q) as real == x as real * q as real
  {
  }

  lemma Reassociate(a: real, p: real, q: real, x: real)
    requires a * p == x
    ensures a * (p * q) == x * q
  {
  }

  lemma FractionWithoutZeros(s: string, n: nat)
    requires AllDigits(s) && n <= |s| && forall i :: n <= i < |s| ==> s[i] == '0'
    ensures AllDigits(s[..n]) && Fraction(s[..n]) == Fraction(s)
  {
    ZerosAreWorthless(s, n);
    Pow10Splits(n, |s| - n);
    CommonFactor(Number(s[..n]), Pow10(n), Pow10(|s| - n));
    hide Number, Pow10;
  }

  /** Where the point of a trimmed number is. */
  lemma {:induction false} DotIsFirst(s: string, i: nat)
    requires i <= |s| && (i < |s| ==> s[i] == '.') && forall j :: 0 <= j < i ==> s[j] != '.'
    ensures DotAt(s) == i
  {
    if s != "" && i > 0 {
      DotIsFirst(s[1..], i - 1);
    }
  }

  /** A decimal taken apart at its point. */
  lemma ParseParts(s: string, whole: string, rest: string)
    requires s == whole + "." + rest && AllDigits(whole) && AllDigits(rest)
    ensures DotAt(s) == |whole|
    ensures ParseUnsigned(s) == if whole + rest == "" then None else Some(Number(whole) as real + Fraction(rest))
  {
    hide Number, Fraction;
    DotIsFirst(s, |whole|);
    assert s[..|whole|] == whole && s[|whole| + 1..] == rest;
  }

  lemma ParseWhole(s: string)
    requires AllDigits(s) && s != ""
    ensures DotAt(s) == |s| && ParseUnsigned(s) == Some(Number(s) as real)
  {
    hide Number, Fraction, DotAt;
    DotIsFirst(s, |s|);
    assert s[..|s|] == s;
    EmptyFraction();
  }

  lemma EmptyFraction()
    ensures Fraction("") == 0.0
  {
  }

  /** Parsing a number that has a point takes it apart there. */
  lemma PartsOfParse(s: string) returns (whole: string, rest: string)
    requires ParseUnsigned(s).Some? && DotAt(s) < |s|
    ensures s == whole + "." + rest && AllDigits(whole) && AllDigits(rest) && whole + rest != ""
    ensures ParseUnsigned(s) == Some(Number(whole) as real + Fraction(rest))
  {
    hide Number, Fraction;
    var i := DotAt(s);
    whole, rest := s[..i], s[i + 1..];
    assert s == whole + [s[i]] + rest;
  }

  /** What trimming does to the digits after a point, and to the point. */
  lemma TrimPoint(s: string, whole: string, rest: string) returns (n: nat)
    requires s == whole + "." + rest && AllDigits(whole) && AllDigits(rest)
    ensures n <= |rest| && forall i :: n <= i < |rest| ==> rest[i] == '0'
    ensures var t := TrimRightOf(TrimRightOf(s, '0'), '.');
            t == if n == 0 then whole else whole + "." + rest[..n]
  {
    var t := TrimRightOf(s, '0');
    assert s[|whole|] == '.';
    assert |t| > |whole|;
    n := |t| - |whole| - 1;
    assert t == s[..|t|] == whole + "." + rest[..n];
    forall i | n <= i < |rest| ensures rest[i] == '0' {
      assert s[|whole| + 1 + i] == rest[i];
    }
    if n == 0 {
      assert t[..|t| - 1] == whole;
      NoPointToTrim(whole);
    } else {
      assert t[|t| - 1] == rest[n - 1];
    }
  }

  lemma NoPointToTrim(whole: string)
    requires AllDigits(whole)
    ensures TrimRightOf(whole, '.') == whole
  {
  }

  /** A number cut after n digits of its fraction, the rest being zeros. */
  function Cut(whole: string, rest: string, n: nat): string
    requires n <= |rest|
  {
    if n == 0 then whole else whole + "." + rest[..n]
  }

  lemma CutParses(whole: string, rest: string, n: nat)
    requires n <= |rest| && AllDigits(whole) && AllDigits(rest)
    requires forall i :: n <= i < |rest| ==> rest[i] == '0'
    ensures var t := Cut(whole, rest, n);
            (if t == "" then Some(0.0) else ParseUnsigned(t)) == Some(Number(whole) as real + Fraction(rest))
  {
    FractionWithoutZeros(rest, n);
    if n == 0 {
      EmptyFraction();
      EmptyNumber();
      assert rest[..0] == "";
      if whole != "" {
        ParseWhole(whole);
      }
    } else {
      ParseParts(Cut(whole, rest, n), whole, rest[..n]);
    }
    hide Number, Fraction, ParseUnsigned;
  }

  /** Trimming trailing zeros, and a point with nothing left behind it, never changes the value. */
  lemma TrimKeepsUnsigned(s: string)
    requires ParseUnsigned(s).Some? && DotAt(s) < |s|
    ensures var t := TrimRightOf(TrimRightOf(s, '0'), '.');
            (if t == "" then Some(0.0) else ParseUnsigned(t)) == ParseUnsigned(s)
  {
    hide Number, Fraction, ParseUnsigned, TrimRightOf, DotAt;
    var whole, rest := PartsOfParse(s);
    var n := TrimPoint(s, whole, rest);
    CutParses(whole, rest, n);
  }

  lemma EmptyNumber()
    ensures Number("") == 0
  {
  }

  lemma {:induction false} TrimUnderSign(s: string, c: char)
    requires c != '-'
    ensures TrimRightOf("-" + s, c) == "-" + TrimRightOf(s, c)
  {
    if s != "" && s[|s| - 1] == c {
      assert ("-" + s)[..|s|] == "-" + s[..|s| - 1];
      TrimUnderSign(s[..|s| - 1], c);
    }
  }

  lemma NormalizeUnsigned(s: string)
    requires s != "" && s[0] != '-' && DotAt(s) < |s| && ParseUnsigned(s).Some?
    ensures var t := TrimRightOf(TrimRightOf(s, '0'), '.');
            Parse(if t == "" || t == "-" then "0" else t) == ParseUnsigned(s)
  {
    hide ParseUnsigned, DotAt;
    TrimKeepsUnsigned(s);
    ZeroParses();
    var t := TrimRightOf(TrimRightOf(s, '0'), '.');
    assert t != "" ==> t[0] == s[0];
  }

  lemma NormalizeSigned(u: string)
    requires DotAt(u) < |u| && ParseUnsigned(u).Some?
    ensures var t := TrimRightOf(TrimRightOf("-" + u, '0'), '.');
            var v := Parse(if t == "" || t == "-" then "0" else t);
            v.Some? && v.value == -ParseUnsigned(u).value
  {
    hide ParseUnsigned, DotAt, TrimRightOf;
    TrimUnderSign(u, '0');
    TrimUnderSign(TrimRightOf(u, '0'), '.');
    TrimKeepsUnsigned(u);
    ZeroParses();
    var t := TrimRightOf(TrimRightOf(u, '0'), '.');
    assert ("-" + t)[1..] == t;
  }

  lemma DotUnderSign(s: string)
    requires s != "" && s[0] == '-'
    ensures DotAt(s) == 1 + DotAt(s[1..])
  {
  }

  /** Normalizing a decimal string never changes the number it stands for. */
  lemma NormalizeKeepsValue(raw: string)
    requires Parse(Trim(raw)).Some?
    ensures Parse(Normalize(raw)) == Parse(Trim(raw))
  {
    hide ParseUnsigned, TrimRightOf, DotAt, Trim;
    var s := Trim(raw);
    if s != "" && DotAt(s) < |s| {
      if s[0] == '-' {
        DotUnderSign(s);
        NormalizeSigned(s[1..]);
        assert s == "-" + s[1..];
      } else {
        NormalizeUnsigned(s);
      }
    }
  }

  lemma ZeroParses()
    ensures Parse("0") == ParseUnsigned("0") == Some(0.0)
  {
    ParseWhole("0");
    assert Number("0") == 10 * Number("0"[..0]) + 0;
  }

  lemma OneDot(s: string)
    requires Parse(s).Some? && DotAt(s) < |s|
    ensures forall j :: DotAt(s) < j < |s| ==> s[j] != '.'
  {
    if s[0] == '-' {
      DotUnderSign(s);
      DigitsAfterTheDot(s[1..]);
      forall j | DotAt(s) < j < |s| ensures s[j] != '.' {
        assert s[j] == s[1..][j - 1];
      }
    } else {
      DigitsAfterTheDot(s);
    }
  }

  lemma DigitsAfterTheDot(u: string)
    requires ParseUnsigned(u).Some? && DotAt(u) < |u|
    ensures forall j :: DotAt(u) < j < |u| ==> u[j] != '.'
  {
    hide Number, Fraction, DotAt;
    var rest := u[DotAt(u) + 1..];
    assert AllDigits(rest);
    forall j | DotAt(u) < j < |u| ensures u[j] != '.' {
      assert u[j] == rest[j - DotAt(u) - 1];
    }
  }

  lemma DotStaysInPrefix(s: string, t: string)
    requires t <= s && DotAt(s) < |s|
    ensures DotAt(t) == if DotAt(s) < |t| then DotAt(s) else |t|
  {
    assert forall j :: 0 <= j < |t| ==> t[j] == s[j];
  }

  lemma ZeroHasNoDot()
    ensures DotAt("0") == 1
  {
    assert DotAt("0"[1..]) == 0;
  }

  /** The shortest form: a decimal without a point is only trimmed of blanks; one with a point ends in neither a point
      nor, behind one, a zero. */
  lemma NormalizedIsShortest(raw: string)
    requires Parse(Trim(raw)).Some?
    ensures var s, r := Trim(raw), Normalize(raw);
            && (DotAt(s) == |s| ==> r == s)
            && (DotAt(s) < |s| ==> r != "" && r[|r| - 1] != '.' && (r[|r| - 1] == '0' ==> DotAt(r) == |r|))
  {
    hide Parse, TrimRightOf, Trim, DotAt;
    var s := Trim(raw);
    if DotAt(s) < |s| {
      OneDot(s);
      var z := TrimRightOf(s, '0');
      var t := TrimRightOf(z, '.');
      assert t == z[..|t|] == s[..|t|];
      DotStaysInPrefix(s, t);
      ZeroHasNoDot();
    }
  }

  // ----- 18-decimal values -----

  /** Truncation toward zero, as integer division of big integers does it. */
  function Truncate(x: real): int {
    if x >= 0.0 then x.Floor else -((-x).Floor)
  }

  lemma TruncatesTowardZero(x: real)
    ensures x >= 0.0 ==> 0.0 <= Truncate(x) as real <= x < Truncate(x) as real + 1.0
    ensures x <= 0.0 ==> Truncate(x) as real - 1.0 < x <= Truncate(x) as real <= 0.0
  {
  }

  /** A decimal as its 18-decimal integer. */
  function ToRaw(value: real): int {
    Truncate(value * SCALE as real)
  }

  /** An 18-decimal integer with all its decimals. */
  function FixedUnsigned(raw: nat): string {
    Digits(raw / SCALE) + "." + Padded(raw % SCALE, PLACES)
  }

  function Fixed(raw: int): string {
    if raw < 0 then "-" + FixedUnsigned(-raw) else FixedUnsigned(raw)
  }

  function Print(raw: int): string {
    Normalize(Fixed(raw))
  }

  lemma ScaleIsPow10()
    ensures Pow10(PLACES) == SCALE
  {
    Pow10Splits(9, 9);
    Pow10Splits(3, 3);
    Pow10Splits(3, 6);
    assert Pow10(3) == 1000;
  }

  /** Whole and fraction of an 18-decimal integer put together. */
  lemma SplitsAtScale(raw: nat)
    ensures (raw / SCALE) as real + (raw % SCALE) as real / SCALE as real == raw as real / SCALE as real
  {
    var a, b := raw / SCALE, raw % SCALE;
    assert raw == a * SCALE + b;
    assert raw as real == a as real * SCALE as real + b as real;
  }

  lemma FixedUnsignedParses(raw: nat)
    ensures ParseUnsigned(FixedUnsigned(raw)) == Some(raw as real / SCALE as real)
  {
    hide Number, ParseUnsigned, Digits, Padded;
    var whole, rest := Digits(raw / SCALE), Padded(raw % SCALE, PLACES);
    ScaleIsPow10();
    DigitsRoundTrip(raw / SCALE);
    PaddedRoundTrip(raw % SCALE, PLACES);
    ParseParts(FixedUnsigned(raw), whole, rest);
    SplitsAtScale(raw);
  }

  lemma NothingToTrim(s: string)
    requires s != "" && !IsBlank(s[0]) && !IsBlank(s[|s| - 1])
    ensures Trim(s) == s
  {
  }

  lemma FixedParses(raw: int)
    ensures Trim(Fixed(raw)) == Fixed(raw)
    ensures Parse(Fixed(raw)) == Some(raw as real / SCALE as real)
  {
    hide ParseUnsigned, Digits, Padded, Trim;
    var n: nat := if raw < 0 then -raw else raw;
    FixedUnsignedParses(n);
    var u, whole, rest := FixedUnsigned(n), Digits(n / SCALE), Padded(n % SCALE, PLACES);
    assert IsDigit(u[0]) by {
      assert u[0] == whole[0];
    }
    assert IsDigit(u[|u| - 1]) by {
      assert u[|u| - 1] == rest[|rest| - 1];
    }
    NothingToTrim(u);
    NothingToTrim("-" + u);
    assert ("-" + u)[1..] == u;
  }

  /** Printing an 18-decimal value and parsing it returns the same value, whatever was trimmed. */
  lemma PrintRoundTrip(raw: int)
    ensures Parse(Print(raw)).Some? && ToRaw(Parse(Print(raw)).value) == raw
  {
    hide Parse, Fixed, Normalize;
    FixedParses(raw);
    NormalizeKeepsValue(Fixed(raw));
    ScaledBack(raw);
  }

  lemma ScaledBack(raw: int)
    ensures ToRaw(raw as real / SCALE as real) == raw
  {
    assert raw as real / SCALE as real * SCALE as real == raw as real;
  }
}
