/** Amounts (`src/amounts/mod.rs`): an unsigned 128-bit number of smallest units, stored as two signed
    64-bit columns and printed as a decimal at the scale of its asset. */
module Amounts {
  import opened Basics

  const DIVISOR: nat := 1_000_000_000_000_000_000
  const I64_MAX: nat := 9_223_372_036_854_775_807
  const U128_MAX: nat := 340_282_366_920_938_463_463_374_607_431_768_211_455

  type U128 = n: nat | n <= U128_MAX
  type I64 = n: int | -(I64_MAX as int) - 1 <= n <= I64_MAX

  datatype Parts = Parts(hi: I64, lo: I64)

  datatype AmountError = InvalidSplitHi | InvalidSplitLo | Overflow

  // ----- splitting -----

  function EncodeUnsigned(amount: U128): Result<Parts, AmountError> {
    var hi, lo := amount / DIVISOR, amount % DIVISOR;
    if hi > I64_MAX then Err(Overflow)
    else if lo > I64_MAX then Err(Overflow)
    else Ok(Parts(hi, lo))
  }

  function CheckedMul(a: U128, b: U128): Option<U128> {
    if a * b <= U128_MAX then Some(a * b) else None
  }

  function CheckedAdd(a: U128, b: U128): Option<U128> {
    if a + b <= U128_MAX then Some(a + b) else None
  }

  function DecodeUnsigned(hi: I64, lo: I64): Result<U128, AmountError> {
    if hi < 0 then Err(InvalidSplitHi)
    else if !(0 <= lo < DIVISOR) then Err(InvalidSplitLo)
    else
      var base := CheckedMul(hi, DIVISOR);
      var value := if base.Some? then CheckedAdd(base.value, lo) else None;
      if value.Some? then Ok(value.value) else Err(Overflow)
  }

  lemma Division(amount: nat, hi: nat, lo: nat)
    requires lo < DIVISOR
    ensures amount / DIVISOR == hi && amount % DIVISOR == lo <==> amount == hi * DIVISOR + lo
  {
  }

  /** Encoding succeeds exactly below 2^63 * 10^18, and then decoding gives the amount back. */
  lemma EncodeThenDecode(amount: U128)
    ensures EncodeUnsigned(amount).Ok? <==> amount < (I64_MAX + 1) * DIVISOR
    ensures EncodeUnsigned(amount) == Err(Overflow) <==> amount >= (I64_MAX + 1) * DIVISOR
    ensures EncodeUnsigned(amount).Ok? ==>
              DecodeUnsigned(EncodeUnsigned(amount).value.hi, EncodeUnsigned(amount).value.lo) == Ok(amount)
  {
    Division(amount, amount / DIVISOR, amount % DIVISOR);
  }

  /** Decoding accepts exactly a non-negative high part with a low part below the divisor, never
      overflows, and encoding gives the two parts back. */
  lemma DecodeThenEncode(hi: I64, lo: I64)
    ensures DecodeUnsigned(hi, lo).Ok? <==> hi >= 0 && 0 <= lo < DIVISOR
    ensures DecodeUnsigned(hi, lo) != Err(Overflow)
    ensures DecodeUnsigned(hi, lo) == Err(InvalidSplitHi) <==> hi < 0
    ensures DecodeUnsigned(hi, lo) == Err(InvalidSplitLo) <==> hi >= 0 && !(0 <= lo < DIVISOR)
    ensures DecodeUnsigned(hi, lo).Ok? ==> EncodeUnsigned(DecodeUnsigned(hi, lo).value) == Ok(Parts(hi, lo))
  {
    if hi >= 0 && 0 <= lo < DIVISOR {
      Division(hi * DIVISOR + lo, hi, lo);
    }
  }

  /** The two columns compare, high part first, as the amounts do. */
  lemma SplitOrder(a: U128, b: U128)
    requires EncodeUnsigned(a).Ok? && EncodeUnsigned(b).Ok?
    ensures var p, q := EncodeUnsigned(a).value, EncodeUnsigned(b).value;
            a < b <==> p.hi < q.hi || (p.hi == q.hi && p.lo < q.lo)
  {
    Division(a, a / DIVISOR, a % DIVISOR);
    Division(b, b / DIVISOR, b % DIVISOR);
  }

  // ----- decimal digits -----

  function Digit(d: nat): char
    requires d < 10
  {
    '0' + d as char
  }

  predicate IsDigit(c: char) { '0' <= c <= '9' }

  predicate AllDigits(s: string) { forall i :: 0 <= i < |s| ==> IsDigit(s[i]) }

  function RawString(n: nat): string {
    if n < 10 then [Digit(n)] else RawString(n / 10) + [Digit(n % 10)]
  }

  function Value(s: string): nat
    requires AllDigits(s)
    decreases |s|
  {
    if s == "" then 0 else Value(s[..|s| - 1]) * 10 + (s[|s| - 1] - '0') as nat
  }

  function Pow10(k: nat): nat {
    if k == 0 then 1 else 10 * Pow10(k - 1)
  }

  function Zeros(n: nat): (s: string)
    ensures |s| == n && AllDigits(s)
  {
    seq(n, _ => '0')
  }

  function TrimZeros(s: string): string
    decreases |s|
  {
    if s != "" && s[|s| - 1] == '0' then TrimZeros(s[..|s| - 1]) else s
  }

  lemma {:induction false} PowPositive(k: nat)
    ensures Pow10(k) > 0
  {
    if k > 0 { PowPositive(k - 1); }
  }

  lemma {:induction false} PowAdds(a: nat, b: nat)
    ensures Pow10(a + b) == Pow10(a) * Pow10(b)
  {
    if a > 0 { PowAdds(a - 1, b); }
  }

  lemma ValueSnoc(s: string, c: char)
    requires AllDigits(s) && IsDigit(c)
    ensures AllDigits(s + [c]) && Value(s + [c]) == Value(s) * 10 + (c - '0') as nat
  {
    assert (s + [c])[..|s|] == s;
  }

  lemma TimesTen(x: nat, p: nat)
    ensures x * (10 * p) == x * p * 10
  {
  }

  lemma ConcatStep(a: string, b: string, c: char)
    requires AllDigits(a) && AllDigits(b) && AllDigits(a + b) && IsDigit(c)
    requires Value(a + b) == Value(a) * Pow10(|b|) + Value(b)
    ensures AllDigits(b + [c]) && AllDigits(a + b + [c])
    ensures Value(a + b + [c]) == Value(a) * Pow10(|b| + 1) + Value(b + [c])
  {
    hide Value;
    ValueSnoc(a + b, c);
    ValueSnoc(b, c);
    TimesTen(Value(a), Pow10(|b|));
  }

  lemma {:induction false} ValueConcat(a: string, b: string)
    requires AllDigits(a) && AllDigits(b)
    ensures AllDigits(a + b) && Value(a + b) == Value(a) * Pow10(|b|) + Value(b)
    decreases |b|
  {
    hide Value;
    if b == "" {
      assert a + b == a;
      EmptyValue();
    } else {
      var init, last := b[..|b| - 1], b[|b| - 1];
      ValueConcat(a, init);
      ConcatStep(a, init, last);
      assert a + b == a + init + [last] && b == init + [last];
    }
  }

  lemma EmptyValue()
    ensures Value("") == 0
  {
  }

  /** A number without leading zeros. */
  predicate Whole(s: string) {
    s != "" && AllDigits(s) && (s[0] == '0' ==> |s| == 1)
  }

  lemma {:induction false} RawStringReads(n: nat)
    ensures Whole(RawString(n)) && Value(RawString(n)) == n
    ensures n > 0 ==> RawString(n)[0] != '0'
  {
    if n < 10 {
      ValueSnoc("", Digit(n));
      assert "" + [Digit(n)] == RawString(n);
    } else {
      RawStringReads(n / 10);
      ValueSnoc(RawString(n / 10), Digit(n % 10));
    }
  }

  lemma RawSnoc(n: nat, c: char)
    requires n > 0 && IsDigit(c)
    ensures RawString(n * 10 + (c - '0') as nat) == RawString(n) + [c]
  {
    var d := (c - '0') as nat;
    assert (n * 10 + d) / 10 == n && (n * 10 + d) % 10 == d;
    assert Digit(d) == c;
  }

  lemma OneDigit(c: char)
    requires IsDigit(c)
    ensures Value([c]) == (c - '0') as nat && RawString(Value([c])) == [c]
  {
    hide Value, RawString;
    EmptyValue();
    ValueSnoc("", c);
    assert "" + [c] == [c];
    RawDigit((c - '0') as nat);
  }

  lemma RawDigit(d: nat)
    requires d < 10
    ensures RawString(d) == [Digit(d)]
  {
  }

  lemma {:induction false} WholeIsRaw(s: string)
    requires Whole(s)
    ensures s == RawString(Value(s)) && (s[0] != '0' ==> Value(s) > 0)
    decreases |s|
  {
    hide Value, RawString;
    var init, last := s[..|s| - 1], s[|s| - 1];
    assert s == init + [last];
    if init == "" {
      OneDigit(last);
      assert s == [last];
    } else {
      assert init[0] == s[0];
      WholeIsRaw(init);
      RawSnoc(Value(init), last);
      ValueSnoc(init, last);
    }
  }

  lemma {:induction false} SameLengthSameValue(a: string, b: string)
    requires AllDigits(a) && AllDigits(b) && |a| == |b| && Value(a) == Value(b)
    ensures a == b
    decreases |a|
  {
    if a != "" {
      SameLengthSameValue(a[..|a| - 1], b[..|b| - 1]);
      assert a == a[..|a| - 1] + [a[|a| - 1]] && b == b[..|b| - 1] + [b[|b| - 1]];
    }
  }

  lemma {:induction false} ValueBound(s: string)
    requires AllDigits(s)
    ensures Value(s) < Pow10(|s|)
    decreases |s|
  {
    if s != "" { ValueBound(s[..|s| - 1]); }
  }

  lemma {:induction false} ZerosAreNothing(n: nat)
    ensures Value(Zeros(n)) == 0
  {
    if n > 0 {
      ZerosAreNothing(n - 1);
      assert Zeros(n)[..n - 1] == Zeros(n - 1);
    }
  }

  /** Trimming divides by the power of ten it removes, and leaves no zero at the end. */
  lemma {:induction false} TrimReads(s: string)
    requires AllDigits(s)
    ensures var t := TrimZeros(s);
            && AllDigits(t) && |t| <= |s| && t == s[..|t|]
            && Value(s) == Value(t) * Pow10(|s| - |t|)
            && (t != "" ==> t[|t| - 1] != '0')
    decreases |s|
  {
    hide Value;
    if s != "" && s[|s| - 1] == '0' {
      var init := s[..|s| - 1];
      TrimReads(init);
      ValueSnoc(init, '0');
      assert s == init + ['0'];
      TimesTen(Value(TrimZeros(init)), Pow10(|init| - |TrimZeros(init)|));
    }
  }

  // ----- printing -----

  function FormatUnsigned(value: nat, scale: nat): string {
    if value == 0 then "0"
    else if scale == 0 then RawString(value)
    else
      var raw := RawString(value);
      if |raw| <= scale then
        var trimmed := TrimZeros(Zeros(scale - |raw|) + raw);
        if trimmed == "" then "0" else "0." + trimmed
      else
        var whole, trimmed := raw[..|raw| - scale], TrimZeros(raw[|raw| - scale..]);
        if trimmed == "" then whole else whole + "." + trimmed
  }

  function FormatUnsignedFixed(value: nat, scale: nat): string {
    if scale == 0 then RawString(value)
    else
      var raw := RawString(value);
      if |raw| <= scale then "0." + (Zeros(scale - |raw|) + raw)
      else raw[..|raw| - scale] + "." + raw[|raw| - scale..]
  }

  // ----- reading a decimal -----

  function Point(text: string): (p: nat)
    ensures p <= |text|
  {
    if text == "" || text[0] == '.' then 0 else 1 + Point(text[1..])
  }

  function WholePart(text: string): string { text[..Point(text)] }

  function FractionPart(text: string): string {
    if Point(text) == |text| then "" else text[Point(text) + 1..]
  }

  predicate Decimal(text: string) { AllDigits(WholePart(text) + FractionPart(text)) }

  function Numerator(text: string): nat
    requires Decimal(text)
  {
    Value(WholePart(text) + FractionPart(text))
  }

  /** The text is a decimal equal to value / 10^scale. */
  predicate Denotes(text: string, value: nat, scale: nat) {
    Decimal(text) && Numerator(text) * Pow10(scale) == value * Pow10(|FractionPart(text)|)
  }

  /** No superfluous zero and no bare point. */
  predicate Canonical(text: string) {
    && Whole(WholePart(text)) && AllDigits(FractionPart(text))
    && (Point(text) < |text| ==> FractionPart(text) != "" && text[|text| - 1] != '0')
  }

  function Join(whole: string, fraction: string): string {
    if fraction == "" then whole else whole + "." + fraction
  }

  lemma {:induction false} PointAfter(whole: string, rest: string)
    requires AllDigits(whole) && (rest == "" || rest[0] == '.')
    ensures Point(whole + rest) == |whole|
    decreases |whole|
  {
    if whole == "" {
      assert whole + rest == rest;
    } else {
      assert (whole + rest)[1..] == whole[1..] + rest;
      PointAfter(whole[1..], rest);
    }
  }

  lemma JoinReads(whole: string, fraction: string)
    requires AllDigits(whole)
    ensures WholePart(Join(whole, fraction)) == whole && FractionPart(Join(whole, fraction)) == fraction
    ensures Point(Join(whole, fraction)) == |whole|
  {
    PointAfter(whole, "");
    PointAfter(whole, "." + fraction);
    assert whole + "" == whole && whole + ("." + fraction) == whole + "." + fraction;
  }

  lemma CanonicalJoins(text: string)
    requires Canonical(text)
    ensures text == Join(WholePart(text), FractionPart(text))
  {
    PointFound(text);
  }

  lemma {:induction false} PointFound(text: string)
    ensures Point(text) < |text| ==> text[Point(text)] == '.'
  {
    if text != "" && text[0] != '.' { PointFound(text[1..]); }
  }

  // ----- what is printed -----

  function WholeOf(value: nat, scale: nat): string {
    var raw := RawString(value);
    if |raw| <= scale then "0" else raw[..|raw| - scale]
  }

  function FractionOf(value: nat, scale: nat): string {
    var raw := RawString(value);
    if |raw| <= scale then Zeros(scale - |raw|) + raw else raw[|raw| - scale..]
  }

  lemma PartsRead(value: nat, scale: nat)
    ensures var whole, fraction := WholeOf(value, scale), FractionOf(value, scale);
            && Whole(whole) && AllDigits(fraction) && |fraction| == scale
            && AllDigits(whole + fraction) && Value(whole + fraction) == value
  {
    hide Value, RawString;
    RawStringReads(value);
    var raw := RawString(value);
    if |raw| <= scale {
      var pad := Zeros(scale - |raw|);
      ZerosAreNothing(scale - |raw|);
      OneDigit('0');
      ValueConcat(pad, raw);
      ValueConcat("0", pad + raw);
    } else {
      assert raw[..|raw| - scale] + raw[|raw| - scale..] == raw;
    }
  }

  lemma {:induction false} TrimAllZeros(n: nat)
    ensures TrimZeros(Zeros(n)) == ""
  {
    if n > 0 {
      assert Zeros(n)[..n - 1] == Zeros(n - 1);
      TrimAllZeros(n - 1);
    }
  }

  lemma TrimPadded(scale: nat)
    requires scale > 0
    ensures RawString(0) == "0" && TrimZeros(Zeros(scale - 1) + "0") == ""
  {
    assert Zeros(scale - 1) + "0" == Zeros(scale);
    TrimAllZeros(scale);
  }

  /** Both printers join the same two parts, one of them trimmed. */
  lemma FormatJoins(value: nat, scale: nat)
    ensures FormatUnsigned(value, scale) == Join(WholeOf(value, scale), TrimZeros(FractionOf(value, scale)))
    ensures FormatUnsignedFixed(value, scale) == Join(WholeOf(value, scale), FractionOf(value, scale))
  {
    RawStringReads(value);
    hide Value, RawString, TrimZeros;
    var raw := RawString(value);
    if scale == 0 {
      assert raw[..|raw|] == raw && TrimZeros("") == "" by { EmptyTrim(); }
      if value == 0 { TrimPadded(1); }
    } else if value == 0 {
      TrimPadded(scale);
    }
    forall x: string ensures "0." + x == "0" + "." + x { }
  }

  lemma EmptyTrim()
    ensures TrimZeros("") == ""
  {
  }

  lemma Reassociate(n: nat, a: nat, b: nat, v: nat)
    requires n * a == v
    ensures n * (a * b) == v * b
  {
  }

  lemma Distribute(w: nat, t: nat, p: nat, q: nat)
    ensures (w * p + t) * q == w * (p * q) + t * q
  {
  }

  /** Dropping zeros at the end of the fraction divides the digits by the same power of ten. */
  lemma TrimmedValue(whole: string, fraction: string)
    requires AllDigits(whole) && AllDigits(fraction)
    ensures var t := TrimZeros(fraction);
            && AllDigits(t) && |t| <= |fraction| && AllDigits(whole + t) && AllDigits(whole + fraction)
            && Value(whole + t) * Pow10(|fraction| - |t|) == Value(whole + fraction)
  {
    hide Value, Pow10, TrimZeros;
    TrimReads(fraction);
    var t := TrimZeros(fraction);
    ValueConcat(whole, t);
    ValueConcat(whole, fraction);
    PowAdds(|t|, |fraction| - |t|);
    Distribute(Value(whole), Value(t), Pow10(|t|), Pow10(|fraction| - |t|));
  }

  lemma FormatDenotes(value: nat, scale: nat)
    ensures Canonical(FormatUnsigned(value, scale)) && Denotes(FormatUnsigned(value, scale), value, scale)
  {
    hide Value, Pow10, TrimZeros, RawString, FormatUnsigned, WholeOf, FractionOf, Point;
    var whole, fraction := WholeOf(value, scale), FractionOf(value, scale);
    var t, text := TrimZeros(fraction), FormatUnsigned(value, scale);
    PartsRead(value, scale);
    FormatJoins(value, scale);
    TrimReads(fraction);
    JoinReads(whole, t);
    TrimmedValue(whole, fraction);
    PowAdds(scale - |t|, |t|);
    Reassociate(Value(whole + t), Pow10(scale - |t|), Pow10(|t|), value);
  }

  // ----- the canonical decimal is unique -----

  lemma Cancel(n: nat, m: nat, p: nat)
    requires p > 0 && n * p == m * p
    ensures n == m
  {
  }

  lemma LastDigit(s: string)
    requires s != "" && AllDigits(s)
    ensures Value(s) % 10 == (s[|s| - 1] - '0') as nat
  {
  }

  lemma DivisibleByTen(n: nat, m: nat, j: nat, k: nat)
    requires j < k && n * Pow10(k) == m * Pow10(j)
    ensures m % 10 == 0
  {
    PowPositive(j);
    PowAdds(k - j, j);
    assert Pow10(k - j) == 10 * Pow10(k - j - 1);
    hide Pow10;
    var p, q := Pow10(j), Pow10(k - j);
    Reassociate(n, q, p, n * q);
    Cancel(n * q, m, p);
    TimesTen(n, Pow10(k - j - 1));
  }

  lemma EndsInDigit(text: string)
    requires Canonical(text) && Decimal(text) && FractionPart(text) != ""
    ensures Numerator(text) % 10 != 0
  {
    hide Value, Whole, Point;
    CanonicalJoins(text);
    LastDigit(WholePart(text) + FractionPart(text));
  }

  /** A shorter fraction would make the longer one end in zero. */
  lemma NotShorter(a: string, b: string)
    requires Canonical(a) && Canonical(b) && Decimal(a) && Decimal(b)
    requires Numerator(a) * Pow10(|FractionPart(b)|) == Numerator(b) * Pow10(|FractionPart(a)|)
    ensures |FractionPart(a)| >= |FractionPart(b)|
  {
    hide Canonical, Decimal, Numerator, FractionPart, Pow10;
    if |FractionPart(a)| < |FractionPart(b)| {
      DivisibleByTen(Numerator(a), Numerator(b), |FractionPart(a)|, |FractionPart(b)|);
      EndsInDigit(b);
    }
  }

  lemma OneStepUp(w: nat, w': nat, p: nat)
    ensures w < w' ==> w * p + p <= w' * p
  {
    if w < w' { assert (w + 1) * p <= w' * p; }
  }

  lemma SplitValue(w: nat, f: nat, w': nat, f': nat, p: nat)
    requires f < p && f' < p && w * p + f == w' * p + f'
    ensures w == w' && f == f'
  {
    OneStepUp(w, w', p);
    OneStepUp(w', w, p);
  }

  lemma SameDigits(a: string, b: string)
    requires Canonical(a) && Canonical(b) && Decimal(a) && Decimal(b)
    requires |FractionPart(a)| == |FractionPart(b)| && Numerator(a) == Numerator(b)
    ensures a == b
  {
    CanonicalJoins(a);
    CanonicalJoins(b);
    hide Value, Pow10, Point, RawString;
    var u, v, f, g := WholePart(a), WholePart(b), FractionPart(a), FractionPart(b);
    ValueConcat(u, f);
    ValueConcat(v, g);
    ValueBound(f);
    ValueBound(g);
    SplitValue(Value(u), Value(f), Value(v), Value(g), Pow10(|f|));
    WholeIsRaw(u);
    WholeIsRaw(v);
    SameLengthSameValue(f, g);
  }

  lemma CrossMultiply(n: nat, m: nat, j: nat, k: nat, v: nat, p: nat)
    requires p > 0 && n * p == v * j && m * p == v * k
    ensures n * k == m * j
  {
    assert n * k * p == v * j * k by { assert n * k * p == n * p * k; }
    assert m * j * p == v * j * k by { assert m * j * p == m * p * j; assert v * k * j == v * j * k; }
    Cancel(n * k, m * j, p);
  }

  lemma CanonicalUnique(a: string, b: string, value: nat, scale: nat)
    requires Canonical(a) && Canonical(b) && Denotes(a, value, scale) && Denotes(b, value, scale)
    ensures a == b
  {
    hide Value, Pow10, Point, Canonical;
    var j, k := Pow10(|FractionPart(a)|), Pow10(|FractionPart(b)|);
    PowPositive(scale);
    CrossMultiply(Numerator(a), Numerator(b), j, k, value, Pow10(scale));
    NotShorter(a, b);
    NotShorter(b, a);
    PowPositive(|FractionPart(a)|);
    Cancel(Numerator(a), Numerator(b), j);
    SameDigits(a, b);
  }

  /** What is printed is the canonical decimal equal to value / 10^scale, and the only one. */
  lemma FormatIsTheCanonicalDecimal(text: string, value: nat, scale: nat)
    ensures Canonical(text) && Denotes(text, value, scale) <==> text == FormatUnsigned(value, scale)
  {
    hide FormatUnsigned, Canonical, Denotes;
    FormatDenotes(value, scale);
    if Canonical(text) && Denotes(text, value, scale) {
      CanonicalUnique(text, FormatUnsigned(value, scale), value, scale);
    }
  }

  /** At one scale, different amounts print differently. */
  lemma FormatInjective(a: nat, b: nat, scale: nat)
    requires FormatUnsigned(a, scale) == FormatUnsigned(b, scale)
    ensures a == b
  {
    hide FormatUnsigned, Canonical, Numerator, FractionPart, Decimal, Pow10;
    var text := FormatUnsigned(a, scale);
    FormatDenotes(a, scale);
    FormatDenotes(b, scale);
    PowPositive(|FractionPart(text)|);
    Cancel(a, b, Pow10(|FractionPart(text)|));
  }

  // ----- the fixed-scale form -----

  /** Removes zeros from the end of the fraction, and then a bare point. */
  function TrimFixed(text: string): string {
    if Point(text) == |text| then text
    else Join(WholePart(text), TrimZeros(FractionPart(text)))
  }

  /** The fixed form denotes the same number with exactly `scale` fraction digits, and the trimmed form
      is the fixed form with the zeros at the end of its fraction, and a bare point, removed. */
  lemma FixedForm(value: nat, scale: nat)
    ensures var fixed := FormatUnsignedFixed(value, scale);
            && Whole(WholePart(fixed)) && |FractionPart(fixed)| == scale && Denotes(fixed, value, scale)
            && FormatUnsigned(value, scale) == TrimFixed(fixed)
  {
    hide Value, Pow10, TrimZeros, RawString, FormatUnsigned, FormatUnsignedFixed, WholeOf, FractionOf;
    var whole, fraction := WholeOf(value, scale), FractionOf(value, scale);
    PartsRead(value, scale);
    FormatJoins(value, scale);
    JoinReads(whole, fraction);
    TrimReads(fraction);
    hide Point;
  }
}
