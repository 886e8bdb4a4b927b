/** Decimal text: printing and parsing naturals as Rust's integer formatting and `str::parse` do. */
module Digits {
  import opened Wrappers

  predicate IsDigit(c: char) { '0' <= c <= '9' }

  predicate AllDigits(s: string) { forall i :: 0 <= i < |s| ==> IsDigit(s[i]) }

  function DigitChar(d: nat): (c: char)
    requires d < 10
    ensures IsDigit(c) && DigitValue(c) == d
  {
    '0' + d as char
  }

  function DigitValue(c: char): (d: nat)
    requires IsDigit(c)
    ensures d < 10
  {
    (c - '0') as int
  }

  function Print(n: nat): (s: string)
    ensures s != [] && AllDigits(s)
  {
    if n < 10 then [DigitChar(n)] else Print(n / 10) + [DigitChar(n % 10)]
  }

  function Value(s: string): nat
    requires AllDigits(s)
    decreases |s|
  {
    if s == [] then 0 else Value(s[..|s| - 1]) * 10 + DigitValue(s[|s| - 1])
  }

  /** `str::parse` of an unsigned type with the given largest value: an optional plus sign, then digits. */
  function ParseUnsigned(s: string, max: nat): Option<nat>
  {
    var body := if |s| > 1 && s[0] == '+' then s[1..] else s;
    if body != [] && AllDigits(body) && Value(body) <= max then Some(Value(body)) else None
  }

  lemma ValueSnoc(s: string, c: char)
    requires AllDigits(s) && IsDigit(c)
    ensures AllDigits(s + [c]) && Value(s + [c]) == Value(s) * 10 + DigitValue(c)
  {
    assert (s + [c])[..|s|] == s;
  }

  lemma {:induction false} ValueOfPrint(n: nat)
    ensures Value(Print(n)) == n
  {
    if n < 10 {
      assert Print(n)[..0] == [];
    } else {
      ValueOfPrint(n / 10);
      ValueSnoc(Print(n / 10), DigitChar(n % 10));
    }
  }

  /** Parsing what was printed gives the number back exactly when it fits. */
  lemma ParsePrint(n: nat, max: nat)
    ensures ParseUnsigned(Print(n), max) == if n <= max then Some(n) else None
  {
    ValueOfPrint(n);
    assert IsDigit(Print(n)[0]);
  }

  // ---- searching ----

  /** The index of the first `c`, or -1. */
  function First(s: string, c: char): (i: int)
    ensures -1 <= i < |s|
    ensures i >= 0 ==> s[i] == c && forall j :: 0 <= j < i ==> s[j] != c
    ensures i < 0 ==> forall j :: 0 <= j < |s| ==> s[j] != c
  {
    if s == [] then -1
    else if s[0] == c then 0
    else if First(s[1..], c) < 0 then -1 else 1 + First(s[1..], c)
  }

  // ---- white space around text (`str::trim`, ASCII only) ----

  predicate Blank(c: char) { c == ' ' || '\t' <= c <= '\r' }

  function TrimStart(s: string): string { if s != [] && Blank(s[0]) then TrimStart(s[1..]) else s }

  function TrimEnd(s: string): string
    decreases |s|
  {
    if s != [] && Blank(s[|s| - 1]) then TrimEnd(s[..|s| - 1]) else s
  }

  // ---- fixed width ----

  function Pow10(k: nat): (p: nat)
    ensures p > 0
  {
    if k == 0 then 1 else 10 * Pow10(k - 1)
  }

  function Zeros(k: nat): (s: string)
    ensures |s| == k && AllDigits(s)
  {
    seq(k, _ => '0')
  }

  lemma ZerosSnoc(k: nat)
    ensures Zeros(k + 1) == Zeros(k) + ['0'] == ['0'] + Zeros(k)
  {
  }

  /** The last `k` decimal digits of `n`. */
  function Fixed(n: nat, k: nat): (s: string)
    ensures |s| == k && AllDigits(s)
  {
    if k == 0 then [] else Fixed(n / 10, k - 1) + [DigitChar(n % 10)]
  }

  /** `format!("{:0k}", n)`: zeros in front up to width `k`. */
  function PadLeft(n: nat, k: nat): (s: string)
    ensures AllDigits(s)
  {
    (if |Print(n)| < k then Zeros(k - |Print(n)|) else []) + Print(n)
  }

  lemma {:induction false} PrintShort(n: nat, k: nat)
    requires n < Pow10(k) && k > 0
    ensures |Print(n)| <= k
    ensures Zeros(k - |Print(n)|) + Print(n) == Fixed(n, k)
    decreases k
  {
    if n < 10 {
      FixedZero(k - 1);
      assert Fixed(n, k) == Fixed(0, k - 1) + [DigitChar(n)];
    } else {
      assert k > 1;
      PrintShort(n / 10, k - 1);
      assert Zeros(k - |Print(n)|) + (Print(n / 10) + [DigitChar(n % 10)])
          == (Zeros(k - |Print(n)|) + Print(n / 10)) + [DigitChar(n % 10)];
    }
  }

  lemma {:induction false} FixedZero(k: nat)
    ensures Fixed(0, k) == Zeros(k)
  {
    if k > 0 {
      FixedZero(k - 1);
      assert Zeros(k) == Zeros(k - 1) + ['0'];
    }
  }

  /** The digits before the last `k`, as a number. */
  function Quotient(x: nat, k: nat): (q: nat)
    ensures q == x / Pow10(k)
  {
    QuotientNonnegative(x, Pow10(k));
    x / Pow10(k)
  }

  lemma QuotientNonnegative(x: nat, p: nat)
    requires p > 0
    ensures x / p >= 0
  {
    var q := x / p;
    assert x == q * p + x % p;
    AtLeastOnce(-q, p);
    assert (-q) * p == -(q * p);
  }

  lemma DivModStep(x: nat, p: nat)
    requires p > 0
    ensures (x / 10) / p == x / (10 * p)
    ensures (x / 10) % p == (x % (10 * p)) / 10
    ensures (x % (10 * p)) % 10 == x % 10
  {
    var q, r := x / (10 * p), x % (10 * p);
    assert x == 10 * (q * p) + r by { assert x == (10 * p) * q + r; assert (10 * p) * q == 10 * (q * p); }
    var a, b := r / 10, r % 10;
    assert x == 10 * (q * p + a) + b;
    assert x / 10 == q * p + a;
    assert 0 <= a < p;
    DivModUnique(q * p + a, p, q, a);
  }

  lemma DivModUnique(y: nat, p: nat, q: nat, a: nat)
    requires p > 0 && y == q * p + a && a < p
    ensures y / p == q && y % p == a
  {
    var q', a' := y / p, y % p;
    var d := q' - q;
    assert q' * p + a' == q * p + a;
    assert d * p == a - a' by { assert d * p == q' * p - q * p; }
    AtLeastOnce(d, p);
    AtLeastOnce(-d, p);
    assert (-d) * p == -(d * p);
  }

  lemma AtLeastOnce(d: int, p: nat)
    ensures d >= 1 ==> d * p >= p
  {
    if d >= 1 { assert (d - 1) * p >= 0; }
  }

  /** Long division in text: the digits of `x` are those of its quotient by a power of ten followed by the
      remainder at full width. */
  lemma {:induction false} PrintSplit(x: nat, k: nat)
    requires x >= Pow10(k)
    ensures Print(x) == Print(Quotient(x, k)) + Fixed(x % Pow10(k), k)
    decreases k
  {
    if k == 0 {
      assert x / 1 == x;
      assert Fixed(x % 1, 0) == [];
    } else {
      var p := Pow10(k - 1);
      assert x >= 10;
      PrintSplit(x / 10, k - 1);
      DivModStep(x, p);
      var whole, rest := Print(Quotient(x, k)), Fixed((x / 10) % p, k - 1);
      assert Print(x) == (whole + rest) + [DigitChar(x % 10)];
      assert Fixed(x % Pow10(k), k) == rest + [DigitChar(x % 10)];
    }
  }

  lemma {:induction false} ValueOfFixed(n: nat, k: nat)
    requires n < Pow10(k)
    ensures Value(Fixed(n, k)) == n
    decreases k
  {
    if k > 0 {
      ValueOfFixed(n / 10, k - 1);
      ValueSnoc(Fixed(n / 10, k - 1), DigitChar(n % 10));
    }
  }

  /** A digit string is the fixed-width print of its own value. */
  lemma {:induction false} FixedOfValue(s: string)
    requires AllDigits(s)
    ensures Value(s) < Pow10(|s|) && Fixed(Value(s), |s|) == s
    decreases |s|
  {
    if s != [] {
      FixedOfValue(s[..|s| - 1]);
      assert s == s[..|s| - 1] + [s[|s| - 1]];
      var v, d := Value(s[..|s| - 1]), DigitValue(s[|s| - 1]);
      assert Value(s) / 10 == v && Value(s) % 10 == d;
      assert DigitChar(d) == s[|s| - 1];
    }
  }

  // ---- zeros that do not count ----

  /** Without trailing zeros (`trim_end_matches('0')`). */
  function TrimZeros(s: string): (t: string)
    ensures |t| <= |s| && t == s[..|t|]
    decreases |s|
  {
    if s != [] && s[|s| - 1] == '0' then TrimZeros(s[..|s| - 1]) else s
  }

  /** Without leading zeros, but never empty. */
  function StripZeros(s: string): string
    decreases |s|
  {
    if |s| > 1 && s[0] == '0' then StripZeros(s[1..]) else s
  }

  /** What trimming removed is zeros. */
  lemma {:induction false} TrimmedZeros(s: string)
    ensures s == TrimZeros(s) + Zeros(|s| - |TrimZeros(s)|)
    decreases |s|
  {
    if s != [] && s[|s| - 1] == '0' {
      TrimmedZeros(s[..|s| - 1]);
      assert s == s[..|s| - 1] + ['0'];
      var t := TrimZeros(s);
      assert Zeros(|s| - |t|) == Zeros(|s| - 1 - |t|) + ['0'];
    }
  }

  lemma {:induction false} TrimOfZeros(s: string, k: nat)
    ensures TrimZeros(s + Zeros(k)) == TrimZeros(s)
    decreases k
  {
    if k == 0 {
      assert s + Zeros(0) == s;
    } else {
      TrimOfZeros(s, k - 1);
      ZerosSnoc(k - 1);
      var init := s + Zeros(k - 1);
      hide Zeros;
      var t := s + Zeros(k);
      assert t == init + ['0'];
      assert t[..|t| - 1] == init;
    }
  }

  lemma {:induction false} LeadingZero(s: string)
    requires AllDigits(s) && s != [] && s[0] == '0'
    ensures Value(s[1..]) == Value(s)
    decreases |s|
  {
    if |s| == 1 {
      assert s[1..] == [] && s[..0] == [];
    } else {
      var init := s[..|s| - 1];
      LeadingZero(init);
      assert s[1..][..|s| - 2] == init[1..];
    }
  }

  lemma {:induction false} FirstDigit(s: string)
    requires AllDigits(s) && s != [] && (s[0] != '0' || |s| == 1)
    ensures Print(Value(s)) == s
    decreases |s|
  {
    var init, c := s[..|s| - 1], s[|s| - 1];
    assert s == init + [c];
    assert DigitChar(DigitValue(c)) == c;
    if |s| == 1 {
      assert Value(init) == 0;
    } else {
      if |init| == 1 { assert Value(init) == DigitValue(init[0]) by { assert init[..0] == []; } }
      FirstDigit(init);
      ValuePositive(init);
      assert Value(s) / 10 == Value(init) && Value(s) % 10 == DigitValue(c);
    }
  }

  lemma {:induction false} ValuePositive(s: string)
    requires AllDigits(s) && s != [] && s[0] != '0'
    ensures Value(s) > 0
    decreases |s|
  {
    if |s| > 1 { ValuePositive(s[..|s| - 1]); }
  }

  /** The canonical print of a digit string's value is the string without its leading zeros. */
  lemma {:induction false} PrintOfValue(s: string)
    requires AllDigits(s) && s != []
    ensures Print(Value(s)) == StripZeros(s)
    decreases |s|
  {
    if |s| > 1 && s[0] == '0' {
      LeadingZero(s);
      PrintOfValue(s[1..]);
    } else {
      FirstDigit(s);
    }
  }
}
