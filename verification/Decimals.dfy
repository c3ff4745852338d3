/**
 * Exact decimal printing and parsing of token amounts: two independent printers of scaled amounts, and
 * the managed-basket parser and printer.
 */
module DigitStrings {
  function Pow10(n: nat): (p: nat)
    ensures p > 0
  {
    if n == 0 then 1 else 10 * Pow10(n - 1)
  }

  /** The digits of v before its last p places: v / 10^p. */
  function Whole(v: nat, p: nat): nat {
    if p == 0 then v else Whole(v / 10, p - 1)
  }

  /** The number its last p digits make: v % 10^p. */
  function Rest(v: nat, p: nat): nat {
    if p == 0 then 0 else 10 * Rest(v / 10, p - 1) + v % 10
  }

  /** v * 10^p. */
  function Shifted(v: nat, p: nat): nat {
    if p == 0 then v else 10 * Shifted(v, p - 1)
  }

  /** a * b by repeated addition, which keeps the solver's arithmetic linear. */
  function Product(a: nat, b: nat): nat {
    if b == 0 then 0 else Product(a, b - 1) + a
  }

  lemma {:induction false} ProductIsTimes(a: nat, b: nat)
    ensures Product(a, b) == a * b
  {
    if b > 0 { ProductIsTimes(a, b - 1); }
  }

  function Digit(d: nat): char
    requires d < 10
  {
    '0' + d as char
  }

  predicate IsDigit(c: char) {
    '0' <= c <= '9'
  }

  predicate AllDigits(s: string) {
    forall i :: 0 <= i < |s| ==> IsDigit(s[i])
  }

  /** The decimal text of a natural number. */
  function Digits(n: nat): (s: string)
    ensures s != "" && AllDigits(s) && (|s| > 1 ==> s[0] != '0') && (n > 0 ==> s[0] != '0')
  {
    if n < 10 then [Digit(n)] else Digits(n / 10) + [Digit(n % 10)]
  }

  function Value(s: string): nat
    requires AllDigits(s)
  {
    if s == "" then 0 else 10 * Value(s[..|s| - 1]) + (s[|s| - 1] - '0') as int
  }

  function PadStart(s: string, n: nat): (r: string)
    ensures |r| == if |s| < n then n else |s|
  {
    if |s| < n then "0" + PadStart(s, n - 1) else s
  }

  function PadEnd(s: string, n: nat): (r: string)
    ensures |r| == if |s| < n then n else |s|
    ensures AllDigits(s) ==> AllDigits(r)
  {
    if |s| < n then PadEnd(s, n - 1) + "0" else s
  }

  function StripZeros(s: string): (r: string)
    ensures |r| <= |s| && (AllDigits(s) ==> AllDigits(r))
  {
    if s != "" && s[|s| - 1] == '0' then StripZeros(s[..|s| - 1]) else s
  }

  /** The lowest p decimal digits. */
  function Lowest(v: nat, p: nat): (s: string)
    ensures |s| == p && AllDigits(s)
  {
    if p == 0 then "" else Lowest(v / 10, p - 1) + [Digit(v % 10)]
  }

  lemma {:induction false} DigitsValue(n: nat)
    ensures Value(Digits(n)) == n
  {
    if n < 10 {
      assert Digits(n)[..0] == "";
    } else {
      DigitsValue(n / 10);
      assert Digits(n)[..|Digits(n)| - 1] == Digits(n / 10);
    }
  }

  lemma {:induction false} WholeAndRest(v: nat, p: nat)
    ensures Shifted(Whole(v, p), p) + Rest(v, p) == v
    ensures Rest(v, p) < Pow10(p)
  {
    if p > 0 { WholeAndRest(v / 10, p - 1); }
  }

  lemma {:induction false} ShiftedIsProduct(v: nat, p: nat)
    ensures Shifted(v, p) == v * Pow10(p)
  {
    if p > 0 {
      ShiftedIsProduct(v, p - 1);
      assert 10 * (v * Pow10(p - 1)) == v * (10 * Pow10(p - 1));
    }
  }

  /** Whole and Rest are the quotient and the remainder by the power of ten. */
  lemma ByDivision(v: nat, p: nat)
    ensures Whole(v, p) == v / Pow10(p) && Rest(v, p) == v % Pow10(p)
  {
    WholeAndRest(v, p);
    ShiftedIsProduct(Whole(v, p), p);
    Quotient(v, Pow10(p), Whole(v, p), Rest(v, p));
  }

  lemma Quotient(v: nat, m: nat, k: nat, r: nat)
    requires v == k * m + r && r < m
    ensures v / m == k && v % m == r
  {
    var e := v / m - k;
    assert m * (v / m) == k * m + m * e;
    Scales(m, e);
  }

  lemma Scales(m: nat, e: int)
    ensures e >= 1 ==> m * e >= m
    ensures e <= -1 ==> m * e <= 0 - m
  {
    if e >= 1 { assert m * (e - 1) >= 0; }
    if e <= -1 { assert m * (-e - 1) >= 0; }
  }

  lemma {:induction false} LowestValue(v: nat, p: nat)
    ensures Value(Lowest(v, p)) == Rest(v, p)
  {
    if p > 0 {
      LowestValue(v / 10, p - 1);
      assert Lowest(v, p)[..p - 1] == Lowest(v / 10, p - 1);
    }
  }

  lemma {:induction false} LowestOfRest(v: nat, p: nat)
    ensures Lowest(Rest(v, p), p) == Lowest(v, p) && Whole(Rest(v, p), p) == 0
  {
    if p > 0 { LowestOfRest(v / 10, p - 1); }
  }

  lemma {:induction false} PadBeforeLast(s: string, c: char, n: nat)
    ensures PadStart(s + [c], n + 1) == PadStart(s, n) + [c]
  {
    if |s| < n { PadBeforeLast(s, c, n - 1); }
  }

  lemma {:induction false} PadZero(n: nat)
    requires n > 0
    ensures PadStart("0", n) == PadStart("", n)
  {
    if n > 1 { PadZero(n - 1); }
  }

  lemma PadOneMore(v: nat, p: nat)
    requires p > 0
    ensures PadStart(Digits(v), p + 1) == PadStart(Digits(v / 10), p) + [Digit(v % 10)]
  {
    if v < 10 {
      PadBeforeLast("", Digit(v), p);
      PadZero(p);
    } else {
      PadBeforeLast(Digits(v / 10), Digit(v % 10), p);
    }
  }

  /** Padding the whole number to p + 1 digits puts the integer part before exactly p digits. */
  lemma {:induction false} PadSplits(v: nat, p: nat)
    ensures PadStart(Digits(v), p + 1) == Digits(Whole(v, p)) + Lowest(v, p)
  {
    if p > 0 {
      PadSplits(v / 10, p - 1);
      PadOneMore(v, p);
    }
  }

  /** Printing a remainder and padding it gives its p digits, up to trailing zeros when p is 0. */
  lemma PadRemainder(v: nat, p: nat)
    ensures StripZeros(PadStart(Digits(Rest(v, p)), p)) == StripZeros(Lowest(v, p))
  {
    var w := Rest(v, p);
    LowestOfRest(v, p);
    if p > 0 {
      PadSplits(w, p);
      PadLess(Digits(w), p, Lowest(w, p));
    } else {
      assert w == 0 && PadStart("0", 0) == "0" && "0"[..0] == "";
    }
  }

  /** Padded one digit further, a number of at most p digits has a leading zero. */
  lemma PadLess(s: string, p: nat, t: string)
    requires p > 0 && |t| == p && PadStart(s, p + 1) == "0" + t && s != "" && (|s| > 1 ==> s[0] != '0')
    ensures PadStart(s, p) == t
  {
    var padded := PadStart(s, p + 1);
    assert padded[0] == '0';
    assert padded[1..] == t;
    assert |s| <= p ==> padded[1..] == PadStart(s, p);
  }

  lemma {:induction false} StripThenPad(s: string)
    ensures PadEnd(StripZeros(s), |s|) == s
  {
    if s != "" && s[|s| - 1] == '0' {
      StripThenPad(s[..|s| - 1]);
      assert s == s[..|s| - 1] + "0";
    }
  }

  lemma StripLastZero(s: string)
    ensures StripZeros(s + "0") == StripZeros(s)
  {
    assert (s + "0")[..|s|] == s;
  }

  lemma {:induction false} PadThenStrip(s: string, n: nat)
    ensures StripZeros(PadEnd(s, n)) == StripZeros(s)
  {
    if |s| < n {
      var shorter := PadEnd(s, n - 1);
      calc {
        StripZeros(PadEnd(s, n));
        StripZeros(shorter + "0");
        { StripLastZero(shorter); }
        StripZeros(shorter);
        { PadThenStrip(s, n - 1); }
        StripZeros(s);
      }
    }
  }

  lemma {:induction false} DigitsOfValue(s: string)
    requires s != "" && AllDigits(s) && (s[0] == '0' ==> |s| == 1)
    ensures Digits(Value(s)) == s
  {
    var rest := s[..|s| - 1];
    if rest != "" {
      DigitsOfValue(rest);
      assert Value(rest) > 0;
      assert s == rest + [s[|s| - 1]];
    }
  }

  /** Digits appended to a number are its lowest ones. */
  lemma {:induction false} LowestOf(w: nat, s: string)
    requires AllDigits(s)
    ensures Lowest(Shifted(w, |s|) + Value(s), |s|) == s && Whole(Shifted(w, |s|) + Value(s), |s|) == w
  {
    if s != "" {
      var rest := s[..|s| - 1];
      LowestOf(w, rest);
      assert (Shifted(w, |s|) + Value(s)) / 10 == Shifted(w, |rest|) + Value(rest);
      assert s == rest + [s[|s| - 1]];
    }
  }
}

/** The text of a number and of an amount, taken apart at "e" and at ".". */
module DecimalText {
  import opened Results
  import opened DigitStrings
  import opened WordText

  function Before(t: string, c: char): string {
    if t == "" || t[0] == c then "" else [t[0]] + Before(t[1..], c)
  }

  function After(t: string, c: char): string {
    if t == "" then "" else if t[0] == c then t[1..] else After(t[1..], c)
  }

  lemma {:induction false} SplitAt(a: string, c: char, b: string)
    requires c !in a
    ensures Before(a + [c] + b, c) == a && After(a + [c] + b, c) == b
  {
    if a == "" {
      assert ([c] + b)[1..] == b;
    } else {
      assert c !in a[1..];
      SplitAt(a[1..], c, b);
      assert (a + [c] + b)[1..] == a[1..] + [c] + b;
    }
  }

  lemma {:induction false} SplitNowhere(a: string, c: char)
    requires c !in a
    ensures Before(a, c) == a && After(a, c) == ""
  {
    if a != "" {
      assert c !in a[1..];
      SplitNowhere(a[1..], c);
    }
  }

  /** A number by the parts of its shortest text; very large and very small ones carry an exponent. */
  datatype Number = NotFinite | Finite(negative: bool, whole: string, fraction: string, exponent: Option<int>)

  predicate WellFormed(n: Number) {
    n.Finite? ==> n.whole != "" && AllDigits(n.whole) && AllDigits(n.fraction)
  }

  function Point(whole: string, fraction: string): string {
    if fraction == "" then whole else whole + "." + fraction
  }

  function SignedText(i: int): string {
    if i < 0 then "-" + Digits(-i) else "+" + Digits(i)
  }

  function UnsignedText(n: Number): string
    requires n.Finite?
  {
    var mantissa := Point(n.whole, n.fraction);
    if n.exponent.None? then mantissa else mantissa + ("e" + SignedText(n.exponent.value))
  }

  function Text(n: Number): string {
    if n.NotFinite? then "NaN" else if n.negative then "-" + UnsignedText(n) else UnsignedText(n)
  }

  function WithoutSign(t: string): string {
    if t != "" && t[0] == '-' then t[1..] else t
  }

  /** An optional sign, digits, and optionally a point with more digits. */
  predicate IsPlain(t: string) {
    IsPlainUnsigned(WithoutSign(t))
  }

  lemma DigitsHold(s: string, c: char)
    requires AllDigits(s) && !IsDigit(c)
    ensures c !in s
  {
  }

  lemma PointSplits(whole: string, fraction: string)
    requires whole != "" && AllDigits(whole) && AllDigits(fraction)
    ensures var t := Point(whole, fraction);
            && Before(t, '.') == whole && After(t, '.') == fraction && ('.' in t <==> fraction != "")
            && t != "" && t[0] == whole[0] && IsDigit(t[|t| - 1]) && 'e' !in t
  {
    DigitsHold(whole, '.');
    DigitsHold(whole, 'e');
    DigitsHold(fraction, 'e');
    if fraction == "" { SplitNowhere(whole, '.'); } else { SplitAt(whole, '.', fraction); }
  }

  lemma TextWithoutSign(n: Number)
    requires n.Finite? && WellFormed(n)
    ensures WithoutSign(Text(n)) == UnsignedText(n)
  {
  }

  predicate IsPlainUnsigned(t: string) {
    && Before(t, '.') != "" && AllDigits(Before(t, '.'))
    && AllDigits(After(t, '.')) && ('.' in t ==> After(t, '.') != "")
  }

  /** The general printer's pattern accepts exactly the texts without an exponent, and reads their parts. */
  lemma PlainIff(n: Number)
    requires n.Finite? && WellFormed(n)
    ensures IsPlain(Text(n)) <==> n.exponent.None?
    ensures n.exponent.None? ==>
              Before(WithoutSign(Text(n)), '.') == n.whole && After(WithoutSign(Text(n)), '.') == n.fraction
  {
    TextWithoutSign(n);
    PointSplits(n.whole, n.fraction);
    if n.exponent.Some? {
      ExponentIsNotPlain(n.whole, n.fraction, "e" + SignedText(n.exponent.value), UnsignedText(n));
    }
  }

  lemma ExponentIsNotPlain(whole: string, fraction: string, tail: string, t: string)
    requires AllDigits(whole) && AllDigits(fraction) && tail != "" && tail[0] == 'e'
    requires t == Point(whole, fraction) + tail
    ensures !IsPlainUnsigned(t)
  {
    if fraction == "" {
      HasExponent(whole, tail);
    } else {
      DigitsHold(whole, '.');
      assert t == whole + ['.'] + (fraction + tail);
      SplitAt(whole, '.', fraction + tail);
      assert (fraction + tail)[|fraction|] == 'e';
    }
  }

  lemma {:induction false} HasExponent(whole: string, tail: string)
    requires AllDigits(whole) && tail != "" && tail[0] == 'e'
    ensures !AllDigits(Before(whole + tail, '.'))
  {
    if whole == "" {
      assert whole + tail == tail;
      assert Before(tail, '.')[0] == 'e';
    } else {
      HasExponent(whole[1..], tail);
      var t := whole + tail;
      assert t[1..] == whole[1..] + tail;
      assert Before(t, '.') == [t[0]] + Before(t[1..], '.');
      var i :| 0 <= i < |Before(t[1..], '.')| && !IsDigit(Before(t[1..], '.')[i]);
      assert Before(t, '.')[i + 1] == Before(t[1..], '.')[i];
    }
  }

  /** The exponent after "e", or 0. */
  function ExponentOf(t: string): int {
    var e := After(t, 'e');
    if e == "" || !AllDigits(e[1..]) then 0 else if e[0] == '-' then 0 - Value(e[1..]) else Value(e[1..])
  }

  lemma ExponentReads(mantissa: string, i: int)
    requires 'e' !in mantissa
    ensures Before(mantissa + ("e" + SignedText(i)), 'e') == mantissa
    ensures ExponentOf(mantissa + ("e" + SignedText(i))) == i
  {
    assert mantissa + ("e" + SignedText(i)) == mantissa + ['e'] + SignedText(i);
    SplitAt(mantissa, 'e', SignedText(i));
    var digits := Digits(if i < 0 then -i else i);
    DigitsValue(if i < 0 then -i else i);
    assert SignedText(i)[1..] == digits;
  }

  /** Splitting a number's text at "e" and then at "." gives back its parts. */
  lemma TextSplits(n: Number)
    requires n.Finite? && WellFormed(n) && !n.negative
    ensures var mantissa := Before(Text(n), 'e');
            && Before(mantissa, '.') == n.whole && After(mantissa, '.') == n.fraction
            && ExponentOf(Text(n)) == if n.exponent.Some? then n.exponent.value else 0
  {
    var mantissa := Point(n.whole, n.fraction);
    PointSplits(n.whole, n.fraction);
    if n.exponent.None? { SplitNowhere(mantissa, 'e'); } else { ExponentReads(mantissa, n.exponent.value); }
  }

  /** A whole number without leading zeros and optionally a point with digits. */
  predicate IsAmount(t: string) {
    var (whole, fraction) := (Before(t, '.'), After(t, '.'));
    && whole != "" && AllDigits(whole) && (whole[0] == '0' ==> |whole| == 1)
    && AllDigits(fraction) && ('.' in t ==> fraction != "")
  }

  /** The parts of a trimmed amount, when it is one. */
  function ReadAmount(value: string): Option<(string, string)> {
    var t := Trim(value);
    if IsAmount(t) then Some((Before(t, '.'), After(t, '.'))) else None
  }

  lemma ReadAmountParts(value: string)
    ensures ReadAmount(value).Some? ==> AllDigits(ReadAmount(value).value.0) && AllDigits(ReadAmount(value).value.1)
  {
  }

  lemma ReadPoint(whole: string, fraction: string)
    requires whole != "" && AllDigits(whole) && AllDigits(fraction) && (whole[0] == '0' ==> |whole| == 1)
    ensures ReadAmount(Point(whole, fraction)) == Some((whole, fraction))
  {
    PointSplits(whole, fraction);
    assert IsDigit(whole[0]);
  }

  /** Reading inverts writing only on texts it would write. */
  lemma ReadThenPoint(value: string)
    requires ReadAmount(value).Some?
    ensures Point(ReadAmount(value).value.0, ReadAmount(value).value.1) == Trim(value)
  {
    Rejoin(Trim(value), '.');
  }

  lemma {:induction false} Rejoin(t: string, c: char)
    ensures t == if c in t then Before(t, c) + [c] + After(t, c) else Before(t, c)
    ensures c !in t ==> After(t, c) == ""
  {
    if t != "" && t[0] != c {
      Rejoin(t[1..], c);
      assert t == [t[0]] + t[1..];
      assert c in t <==> c in t[1..];
    } else if t != "" {
      assert t == "" + [c] + t[1..];
    }
  }
}

module Decimals {
  import opened Results
  import opened DigitStrings
  import opened DecimalText
  import WordText

  const MAX_U64 := 0xffff_ffff_ffff_ffff
  const MAX_DECIMALS := 12

  datatype Problem = BadDecimals | BadMultiplier | InvalidAmount | TooPrecise | OutOfRange

  function Coefficient(n: Number): nat
    requires n.Finite? && WellFormed(n)
  {
    Value(n.whole + n.fraction)
  }

  /** The general printer accepts any sign but, by PlainIff, no exponent. */
  function ScaledFromRaw(raw: int, multiplier: Number, decimals: int): Result<string, Problem>
    requires WellFormed(multiplier)
  {
    if decimals < 0 then Err(BadDecimals)
    else if multiplier.NotFinite? || multiplier.exponent.Some? then Err(BadMultiplier)
    else
      var size := Product(if raw < 0 then -raw else raw, Coefficient(multiplier));
      var text := UnitsText(size, decimals + |multiplier.fraction|);
      Ok(if size != 0 && multiplier.negative != (raw < 0) then "-" + text else text)
  }

  function UnitsText(units: nat, scalePower: nat): string {
    var digits := PadStart(Digits(units), scalePower + 1);
    Point(digits[..|digits| - scalePower], StripZeros(digits[|digits| - scalePower..]))
  }

  /** The devnet printer accepts an exponent, but only non-negative amounts and up to twelve decimals. */
  function ScaledDevnetAmount(raw: int, multiplier: Number, decimals: int): Result<string, Problem>
    requires WellFormed(multiplier)
  {
    if raw < 0 || decimals < 0 || decimals > MAX_DECIMALS || !Positive(multiplier) then Err(InvalidAmount)
    else
      var exponent := if multiplier.exponent.Some? then multiplier.exponent.value else 0;
      Ok(PlacesText(Product(raw, Coefficient(multiplier)), decimals + |multiplier.fraction| - exponent))
  }

  predicate Positive(n: Number)
    requires WellFormed(n)
  {
    n.Finite? && !n.negative && Coefficient(n) > 0
  }

  function PlacesText(value: nat, places: int): string {
    if places <= 0 then Digits(Shifted(value, -places))
    else Point(Digits(Whole(value, places)), StripZeros(PadStart(Digits(Rest(value, places)), places)))
  }

  /** What both printers print: the whole part and the trimmed last p digits. */
  function Printed(v: nat, p: nat): string {
    Point(Digits(Whole(v, p)), StripZeros(Lowest(v, p)))
  }

  lemma UnitsPrinted(v: nat, p: nat)
    ensures UnitsText(v, p) == Printed(v, p)
  {
    PadSplits(v, p);
    var digits := PadStart(Digits(v), p + 1);
    assert digits[..|digits| - p] == Digits(Whole(v, p));
    assert digits[|digits| - p..] == Lowest(v, p);
  }

  lemma PlacesPrinted(v: nat, p: nat)
    ensures PlacesText(v, p) == Printed(v, p)
    ensures Point(Digits(Whole(v, p)), StripZeros(PadStart(Digits(Rest(v, p)), p))) == Printed(v, p)
  {
    PadRemainder(v, p);
    assert p == 0 ==> Whole(v, 0) == v && Shifted(v, 0) == v;
  }

  lemma FromRawIs(raw: nat, multiplier: Number, decimals: nat, v: nat, p: nat)
    requires WellFormed(multiplier) && Positive(multiplier) && multiplier.exponent.None?
    requires v == Product(raw, Coefficient(multiplier)) && p == decimals + |multiplier.fraction|
    ensures ScaledFromRaw(raw, multiplier, decimals) == Ok(Printed(v, p))
  {
    UnitsPrinted(v, p);
  }

  lemma DevnetIs(raw: nat, multiplier: Number, decimals: nat, v: nat, p: nat)
    requires WellFormed(multiplier) && Positive(multiplier) && multiplier.exponent.None? && decimals <= MAX_DECIMALS
    requires v == Product(raw, Coefficient(multiplier)) && p == decimals + |multiplier.fraction|
    ensures ScaledDevnetAmount(raw, multiplier, decimals) == Ok(Printed(v, p))
  {
    PlacesPrinted(v, p);
  }

  /**
   * For every amount and positive multiplier the devnet printer accepts, both print the same text exactly
   * when the multiplier's text has no exponent; with an exponent the general printer refuses.
   */
  lemma PrintersAgreeIff(raw: nat, multiplier: Number, decimals: nat)
    requires WellFormed(multiplier) && Positive(multiplier) && decimals <= MAX_DECIMALS
    ensures ScaledFromRaw(raw, multiplier, decimals) == ScaledDevnetAmount(raw, multiplier, decimals)
            <==> multiplier.exponent.None?
    ensures ScaledDevnetAmount(raw, multiplier, decimals).Ok?
    ensures multiplier.exponent.None? ==>
              ScaledDevnetAmount(raw, multiplier, decimals)
              == Ok(Printed(Product(raw, Coefficient(multiplier)), decimals + |multiplier.fraction|))
  {
    if multiplier.exponent.None? {
      var v, p := Product(raw, Coefficient(multiplier)), decimals + |multiplier.fraction|;
      FromRawIs(raw, multiplier, decimals, v, p);
      DevnetIs(raw, multiplier, decimals, v, p);
    }
  }

  /** The printed text denotes v / 10^p exactly. */
  lemma PrintedValue(v: nat, p: nat)
    ensures Shifted(Value(Digits(Whole(v, p))), p) + Value(PadEnd(StripZeros(Lowest(v, p)), p)) == v
  {
    DigitsValue(Whole(v, p));
    LowestValue(v, p);
    StripThenPad(Lowest(v, p));
    WholeAndRest(v, p);
  }

  function ParseTokenAmount(value: string, decimals: int): Result<nat, Problem> {
    if decimals < 0 || decimals > MAX_DECIMALS || ReadAmount(value).None? then Err(InvalidAmount)
    else
      ReadAmountParts(value);
      AmountOf(ReadAmount(value).value.0, ReadAmount(value).value.1, decimals)
  }

  function AmountOf(whole: string, fraction: string, decimals: nat): Result<nat, Problem>
    requires AllDigits(whole) && AllDigits(fraction)
  {
    if |fraction| > decimals then Err(TooPrecise)
    else
      var raw := Shifted(Value(whole), decimals) + PaddedValue(fraction, decimals);
      if raw > MAX_U64 then Err(OutOfRange) else Ok(raw)
  }

  function PaddedValue(fraction: string, decimals: nat): nat
    requires AllDigits(fraction)
  {
    var padded := PadEnd(fraction, decimals);
    Value(if padded == "" then "0" else padded)
  }

  function FormatTokenAmount(raw: nat, decimals: nat): string {
    Point(Digits(Whole(raw, decimals)), StripZeros(PadStart(Digits(Rest(raw, decimals)), decimals)))
  }

  const ONE := Finite(false, "1", "", None)

  /** The token printer is the devnet printer with multiplier one. */
  lemma FormatIsScaledByOne(raw: nat, decimals: nat)
    requires decimals <= MAX_DECIMALS
    ensures ScaledDevnetAmount(raw, ONE, decimals) == Ok(FormatTokenAmount(raw, decimals))
    ensures FormatTokenAmount(raw, decimals) == Printed(raw, decimals)
  {
    assert "1" + "" == "1" && "1"[..0] == "";
    ProductIsTimes(raw, 1);
    PlacesPrinted(raw, decimals);
  }

  lemma FormatPrints(raw: nat, decimals: nat)
    ensures FormatTokenAmount(raw, decimals) == Printed(raw, decimals)
  {
    PlacesPrinted(raw, decimals);
  }

  lemma PaddedValueIs(fraction: string, decimals: nat)
    requires AllDigits(fraction)
    ensures PaddedValue(fraction, decimals) == Value(PadEnd(fraction, decimals))
  {
  }

  lemma PrintedAmount(raw: nat, decimals: nat)
    ensures AllDigits(StripZeros(Lowest(raw, decimals)))
    ensures AmountOf(Digits(Whole(raw, decimals)), StripZeros(Lowest(raw, decimals)), decimals)
         == if raw > MAX_U64 then Err(OutOfRange) else Ok(raw)
  {
    PrintedValue(raw, decimals);
    PaddedValueIs(StripZeros(Lowest(raw, decimals)), decimals);
  }

  /** Every 64-bit amount survives printing and parsing; a larger one is refused. */
  lemma ParseInvertsFormat(raw: nat, decimals: nat)
    requires decimals <= MAX_DECIMALS
    ensures ParseTokenAmount(FormatTokenAmount(raw, decimals), decimals)
              == if raw > MAX_U64 then Err(OutOfRange) else Ok(raw)
  {
    PlacesPrinted(raw, decimals);
    PrintedAmount(raw, decimals);
    ReadPoint(Digits(Whole(raw, decimals)), StripZeros(Lowest(raw, decimals)));
  }

  lemma PrintedIs(v: nat, p: nat, w: nat, s: string)
    requires Whole(v, p) == w && Lowest(v, p) == s
    ensures Printed(v, p) == Point(Digits(w), StripZeros(s))
  {
  }

  lemma DigitsOfSum(v: nat, p: nat, w: nat, s: string)
    requires AllDigits(s) && |s| == p && v == Shifted(w, p) + Value(s)
    ensures Whole(v, p) == w && Lowest(v, p) == s
  {
  }

  lemma ParsedDigits(whole: string, fraction: string, decimals: nat)
    requires AllDigits(whole) && AllDigits(fraction) && AmountOf(whole, fraction, decimals).Ok?
    ensures var raw := AmountOf(whole, fraction, decimals).value;
            Whole(raw, decimals) == Value(whole) && Lowest(raw, decimals) == PadEnd(fraction, decimals)
  {
    PaddedValueIs(fraction, decimals);
    DigitsOfSum(AmountOf(whole, fraction, decimals).value, decimals, Value(whole), PadEnd(fraction, decimals));
  }

  lemma AmountPrints(whole: string, fraction: string, decimals: nat, raw: nat)
    requires whole != "" && AllDigits(whole) && AllDigits(fraction) && (whole[0] == '0' ==> |whole| == 1)
    requires Whole(raw, decimals) == Value(whole) && Lowest(raw, decimals) == PadEnd(fraction, decimals)
    ensures FormatTokenAmount(raw, decimals) == Point(whole, StripZeros(fraction))
  {
    PrintedIs(raw, decimals, Value(whole), PadEnd(fraction, decimals));
    PadThenStrip(fraction, decimals);
    DigitsOfValue(whole);
    FormatPrints(raw, decimals);
  }

  /** Printing a parsed amount gives its text back, without the zeros that end its fraction. */
  lemma FormatInvertsParse(value: string, decimals: nat, whole: string, fraction: string)
    requires ParseTokenAmount(value, decimals).Ok? && ReadAmount(value) == Some((whole, fraction))
    ensures WordText.Trim(value) == Point(whole, fraction)
    ensures FormatTokenAmount(ParseTokenAmount(value, decimals).value, decimals) == Point(whole, StripZeros(fraction))
  {
    ReadThenPoint(value);
    ReadAmountParts(value);
    ParsedDigits(whole, fraction, decimals);
    AmountPrints(whole, fraction, decimals, ParseTokenAmount(value, decimals).value);
  }
}
