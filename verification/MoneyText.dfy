/** USDC amounts as text: three separately written printers and one parser. Amounts are in micro-USDC. */
module MoneyText {
  import opened Wrappers
  import opened Digits

  const U128_MAX: nat := 0xFFFF_FFFF_FFFF_FFFF_FFFF_FFFF_FFFF_FFFF
  const MICRO: nat := 1_000_000

  // ---- the printers ----

  /** The escrow client's printer: divide, then pad and trim the remainder. */
  function FormatUsdc(raw: nat): string
  {
    var whole, frac := raw / MICRO, raw % MICRO;
    if frac == 0 then Print(whole) else Print(whole) + "." + TrimZeros(PadLeft(frac, 6))
  }

  /** The exchange client's printer: cut the digit string. */
  function FormatFixed(raw: string, decimals: nat, negative: bool): string
  {
    if decimals == 0 then (if negative then "-" + raw else raw) else
    var digits := if |raw| <= decimals then Zeros(decimals + 1 - |raw|) + raw else raw;
    var split := |digits| - decimals;
    var integer, fraction := digits[..split], TrimZeros(digits[split..]);
    var number := if fraction == "" then integer else integer + "." + fraction;
    if negative then "-" + number else number
  }

  function FormatSignedFixed(value: int, decimals: nat): string
  {
    FormatFixed(Print(if value < 0 then -value else value), decimals, value < 0)
  }

  /** The mobile runtime's printer, for `i64` amounts. */
  function FormatMicro(value: int): string
  {
    var raw := Print(if value < 0 then -value else value);
    var padded := if |raw| <= 6 then Zeros(7 - |raw|) + raw else raw;
    var split := |padded| - 6;
    var integer, fraction := padded[..split], TrimZeros(padded[split..]);
    var formatted := if fraction == "" then integer else integer + "." + fraction;
    if value < 0 then "-" + formatted else formatted
  }

  // ---- the parser ----

  function PadRight(s: string, k: nat): string { if |s| < k then s + Zeros(k - |s|) else s }

  /** `None` for every refusal. Past the 128-bit range the scaled amount wraps, as an unchecked build's does. */
  function ParseUsdc(amount: string): Option<nat>
  {
    var t := TrimEnd(TrimStart(amount));
    if t == "" then None else
    var dot := First(t, '.');
    if dot >= 0 then
      var whole := ParseUnsigned(t[..dot], U128_MAX);
      var fracText := t[dot + 1..];
      if whole.None? || |fracText| > 6 then None else
      var frac := ParseUnsigned(PadRight(fracText, 6), U128_MAX);
      if frac.None? then None else Some((whole.value * MICRO + frac.value) % (U128_MAX + 1))
    else
      var whole := ParseUnsigned(t, U128_MAX);
      if whole.None? then None else Some(whole.value * MICRO % (U128_MAX + 1))
  }

  // ---- one canonical text ----

  /** Whole part and fraction, the fraction without its trailing zeros and left out when it is nothing. */
  function Joined(whole: string, frac: string): string
  {
    if TrimZeros(frac) == "" then whole else whole + "." + TrimZeros(frac)
  }

  /** The text every printer should give for `x` units with `d` decimals. */
  function Canonical(x: nat, d: nat): string { Joined(Print(Quotient(x, d)), Fixed(x % Pow10(d), d)) }

  lemma SixDecimals()
    ensures Pow10(6) == MICRO
  {
    assert Pow10(3) == 1000;
  }

  lemma {:induction false} TrimsToNothing(n: nat, k: nat)
    requires n < Pow10(k)
    ensures TrimZeros(Fixed(n, k)) == "" <==> n == 0
  {
    TrimOfEmpty();
    PowPositive(k);
    hide *;
    FixedZero(k);
    TrimOfZeros("", k);
    assert "" + Zeros(k) == Zeros(k);
    ValueOfFixed(n, k);
    ValueOfFixed(0, k);
    TrimmedZeros(Fixed(n, k));
  }

  lemma TrimOfEmpty()
    ensures TrimZeros("") == ""
  {
  }

  lemma PowPositive(k: nat)
    ensures 0 < Pow10(k)
  {
  }

  lemma UsdcIsCanonical(x: nat)
    ensures FormatUsdc(x) == Canonical(x, 6)
  {
    SixDecimals();
    var frac := x % MICRO;
    TrimsToNothing(frac, 6);
    if frac != 0 {
      PrintShort(frac, 6);
      if |Print(frac)| == 6 { assert Zeros(0) + Print(frac) == Print(frac); }
      assert PadLeft(frac, 6) == Fixed(frac, 6);
    }
  }

  /** Cutting the digit string gives the quotient and the remainder, at any number of decimals. */
  lemma CutIsCanonical(x: nat, d: nat)
    requires d > 0
    ensures var raw := Print(x);
            var digits := if |raw| <= d then Zeros(d + 1 - |raw|) + raw else raw;
            && |digits| > d && digits[..|digits| - d] == Print(Quotient(x, d))
                 && digits[|digits| - d..] == Fixed(x % Pow10(d), d)
  {
    hide *;
    if x < Pow10(d) { CutShort(x, d); } else { CutLong(x, d); }
  }

  lemma CutShort(x: nat, d: nat)
    requires d > 0 && x < Pow10(d)
    ensures |Print(x)| <= d
    ensures var digits := Zeros(d + 1 - |Print(x)|) + Print(x);
            |digits| == d + 1 && digits[..1] == Print(Quotient(x, d)) && digits[1..] == Fixed(x % Pow10(d), d)
  {
    hide *;
    PrintShort(x, d);
    DivModUnique(x, Pow10(d), 0, x);
    PrintZero();
    var raw, n := Print(x), d - |Print(x)|;
    ZerosSnoc(n);
    assert (['0'] + Zeros(n)) + raw == ['0'] + (Zeros(n) + raw);
  }

  lemma PrintZero()
    ensures Print(0) == ['0']
  {
  }

  lemma CutLong(x: nat, d: nat)
    requires d > 0 && x >= Pow10(d)
    ensures var digits := Print(x);
            |digits| > d && digits[..|digits| - d] == Print(Quotient(x, d))
                && digits[|digits| - d..] == Fixed(x % Pow10(d), d)
  {
    hide *;
    PrintSplit(x, d);
  }

  /** The digit-cutting printer agrees with division at every number of decimals, zero included. */
  lemma FixedIsCanonical(x: nat, d: nat)
    ensures FormatFixed(Print(x), d, false) == Canonical(x, d)
  {
    if d == 0 {
      assert x / 1 == x;
      assert TrimZeros(Fixed(x % 1, 0)) == "";
    } else {
      CutIsCanonical(x, d);
    }
  }

  /** All three printers give the same text for the same amount, and a negative amount is its magnitude after a
      minus sign. */
  lemma PrintersAgree(x: nat, value: int, d: nat)
    ensures FormatUsdc(x) == FormatFixed(Print(x), 6, false)
    ensures FormatMicro(value) == FormatSignedFixed(value, 6)
    ensures FormatMicro(value) == (if value < 0 then "-" + FormatUsdc(-value) else FormatUsdc(value))
    ensures FormatSignedFixed(value, d) == (if value < 0 then "-" + Canonical(-value, d) else Canonical(value, d))
  {
    hide FormatUsdc, Canonical, FormatFixed, Print, FormatMicro;
    UsdcIsCanonical(x);
    FixedIsCanonical(x, 6);
    var m := if value < 0 then -value else value;
    UsdcIsCanonical(m);
    FixedIsCanonical(m, 6);
    FixedIsCanonical(m, d);
    NegativeFixed(m, d);
    NegativeFixed(m, 6);
    MicroIsFixed(value);
  }

  lemma MicroIsFixed(value: int)
    ensures FormatMicro(value) == FormatSignedFixed(value, 6)
  {
    hide Print, TrimZeros;
  }

  lemma NegativeFixed(m: nat, d: nat)
    ensures FormatFixed(Print(m), d, true) == "-" + FormatFixed(Print(m), d, false)
  {
  }

  // ---- round trip ----

  /** The texts the parser's claim is about: digits, with an optional point and up to six more digits. */
  predicate Plain(whole: string, frac: string) { whole != "" && AllDigits(whole) && AllDigits(frac) && |frac| <= 6 }

  function PlainText(whole: string, frac: string, point: bool): string
  {
    if point then whole + "." + frac else whole
  }

  function PlainValue(whole: string, frac: string): nat
    requires Plain(whole, frac)
  {
    Value(whole) * MICRO + Value(PadRight(frac, 6))
  }

  lemma NotBlank(s: string)
    requires s != "" && !Blank(s[0]) && !Blank(s[|s| - 1])
    ensures TrimEnd(TrimStart(s)) == s
  {
  }

  lemma FindPoint(whole: string, rest: string)
    requires AllDigits(whole)
    ensures First(whole + "." + rest, '.') == |whole|
    ensures First(whole, '.') == -1
  {
    var t := whole + "." + rest;
    assert t[|whole|] == '.';
    assert forall j :: 0 <= j < |whole| ==> t[j] == whole[j];
  }

  lemma PaddedInRange(frac: string)
    requires AllDigits(frac) && |frac| <= 6
    ensures AllDigits(PadRight(frac, 6)) && |PadRight(frac, 6)| == 6 && Value(PadRight(frac, 6)) < MICRO
    ensures ParseUnsigned(PadRight(frac, 6), U128_MAX) == Some(Value(PadRight(frac, 6)))
  {
    var p := PadRight(frac, 6);
    FixedOfValue(p);
    SixDecimals();
    assert IsDigit(p[0]);
  }

  /** Every plain amount in range parses to its value, whatever its leading and trailing zeros. */
  lemma ParsePlain(whole: string, frac: string, point: bool)
    requires Plain(whole, frac) && (point || frac == "") && PlainValue(whole, frac) <= U128_MAX
    ensures ParseUsdc(PlainText(whole, frac, point)) == Some(PlainValue(whole, frac))
  {
    hide TrimEnd, TrimStart, ParseUnsigned, ParseUsdc, Value, PadRight, AllDigits, PlainValue;
    TrimsToItself(whole, frac, point);
    WholeParses(whole, frac);
    if point {
      ParsePointed(whole, frac);
    } else {
      ParseUnpointed(whole, frac);
    }
  }

  lemma ParsePointed(whole: string, frac: string)
    requires Plain(whole, frac) && PlainValue(whole, frac) <= U128_MAX
    requires var t := PlainText(whole, frac, true); t != "" && TrimEnd(TrimStart(t)) == t
    requires ParseUnsigned(whole, U128_MAX) == Some(Value(whole))
    ensures ParseUsdc(PlainText(whole, frac, true)) == Some(PlainValue(whole, frac))
  {
    hide ParseUnsigned, TrimStart, TrimEnd, First, Value, PadRight, AllDigits;
    var t := PlainText(whole, frac, true);
    FindPoint(whole, frac);
    PaddedInRange(frac);
    assert t[..|whole|] == whole && t[|whole| + 1..] == frac;
  }

  lemma ParseUnpointed(whole: string, frac: string)
    requires Plain(whole, frac) && frac == "" && PlainValue(whole, frac) <= U128_MAX
    requires TrimEnd(TrimStart(whole)) == whole
    requires ParseUnsigned(whole, U128_MAX) == Some(Value(whole)) && Value(PadRight(frac, 6)) == 0
    ensures ParseUsdc(PlainText(whole, frac, false)) == Some(PlainValue(whole, frac))
  {
    hide ParseUnsigned, TrimStart, TrimEnd, First, Value, PadRight, AllDigits;
    FindPoint(whole, "");
  }

  lemma TrimsToItself(whole: string, frac: string, point: bool)
    requires Plain(whole, frac) && (point || frac == "")
    ensures var t := PlainText(whole, frac, point); t != "" && TrimEnd(TrimStart(t)) == t
  {
    var t := PlainText(whole, frac, point);
    assert IsDigit(whole[0]);
    assert t[0] == whole[0];
    assert t[|t| - 1] == if !point then whole[|whole| - 1] else if frac == "" then '.' else frac[|frac| - 1];
    NotBlank(t);
  }

  lemma WholeParses(whole: string, frac: string)
    requires Plain(whole, frac) && PlainValue(whole, frac) <= U128_MAX
    ensures ParseUnsigned(whole, U128_MAX) == Some(Value(whole))
    ensures frac == "" ==> Value(PadRight(frac, 6)) == 0
  {
    assert IsDigit(whole[0]);
    FixedZero(6);
    ValueOfFixed(0, 6);
    assert "" + Zeros(6) == Zeros(6);
  }

  /** What is printed, parsed back. */
  lemma UsdcRoundTrip(x: nat)
    requires x <= U128_MAX
    ensures ParseUsdc(FormatUsdc(x)) == Some(x)
  {
    hide *;
    UsdcIsCanonical(x);
    CanonicalIsPlain(x);
    var whole, t := Print(Quotient(x, 6)), TrimZeros(Fixed(x % Pow10(6), 6));
    ParsePlain(whole, t, t != "");
  }

  lemma CanonicalIsPlain(x: nat)
    ensures var whole, t := Print(Quotient(x, 6)), TrimZeros(Fixed(x % Pow10(6), 6));
            Plain(whole, t) && PlainValue(whole, t) == x && PlainText(whole, t, t != "") == Canonical(x, 6)
  {
    hide Print, Fixed, Value, TrimZeros, Pow10, PadRight, Quotient;
    SixDecimals();
    var f := Fixed(x % Pow10(6), 6);
    ValueOfPrint(Quotient(x, 6));
    ValueOfFixed(x % Pow10(6), 6);
    PadUndoesTrim(f);
  }

  lemma PadUndoesTrim(f: string)
    ensures PadRight(TrimZeros(f), |f|) == f
  {
    TrimmedZeros(f);
    if |TrimZeros(f)| == |f| { assert TrimZeros(f) + Zeros(0) == TrimZeros(f); }
  }

  /** Printing a parsed plain amount gives its canonical text: no leading zeros, no trailing zeros, no bare point. */
  lemma ParseThenPrint(whole: string, frac: string, point: bool)
    requires Plain(whole, frac) && (point || frac == "") && PlainValue(whole, frac) <= U128_MAX
    ensures var v := ParseUsdc(PlainText(whole, frac, point));
            v.Some? && FormatUsdc(v.value) == Joined(StripZeros(whole), frac)
  {
    ParsePlain(whole, frac, point);
    var v, p := PlainValue(whole, frac), PadRight(frac, 6);
    SixDecimals();
    PaddedInRange(frac);
    DivModUnique(v, MICRO, Value(whole), Value(p));
    UsdcIsCanonical(v);
    PrintOfValue(whole);
    FixedOfValue(p);
    TrimOfPad(frac);
    hide Print, Fixed, Value, TrimZeros, ParseUsdc, Pow10, FormatUsdc, PadRight, StripZeros;
  }

  lemma TrimOfPad(frac: string)
    ensures TrimZeros(PadRight(frac, 6)) == TrimZeros(frac)
  {
    if |frac| < 6 { TrimOfZeros(frac, 6 - |frac|); }
  }

  /** Two plain amounts in range are the same money exactly when their canonical texts are the same. */
  lemma SameMoneyExactly(w: string, f: string, p: bool, w': string, f': string, p': bool)
    requires Plain(w, f) && (p || f == "") && PlainValue(w, f) <= U128_MAX
    requires Plain(w', f') && (p' || f' == "") && PlainValue(w', f') <= U128_MAX
    ensures ParseUsdc(PlainText(w, f, p)) == ParseUsdc(PlainText(w', f', p'))
            <==> Joined(StripZeros(w), f) == Joined(StripZeros(w'), f')
  {
    ParseThenPrint(w, f, p);
    ParseThenPrint(w', f', p');
    var v, v' := ParseUsdc(PlainText(w, f, p)).value, ParseUsdc(PlainText(w', f', p')).value;
    ParsePlain(w, f, p);
    ParsePlain(w', f', p');
    UsdcRoundTrip(v);
    UsdcRoundTrip(v');
  }
}
