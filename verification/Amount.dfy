// Human decimal amounts and raw base units: the parser, the printer, and the limit price arithmetic
// whose results must meet on chain.
module Amount {
  import opened Wrappers
  import opened Text
  import Lots

  datatype AmountError = InvalidAmount | TooManyDecimals | DivisionByZero

  // ----- Digit strings -------------------------------------------------------------------------

  predicate IsDigit(c: char) {
    '0' <= c <= '9'
  }

  predicate AllDigits(s: string) {
    forall i :: 0 <= i < |s| ==> IsDigit(s[i])
  }

  function DigitValue(c: char): (d: nat)
    requires IsDigit(c)
    ensures d < 10
  {
    c as int - '0' as int
  }

  function DigitChar(d: nat): (c: char)
    requires d < 10
    ensures IsDigit(c) && DigitValue(c) == d
  {
    ('0' as int + d) as char
  }

  // The integer a digit string spells; nothing spells zero.
  function Val(s: string): nat
    requires AllDigits(s)
  {
    if s == "" then 0 else Val(s[..|s| - 1]) * 10 + DigitValue(s[|s| - 1])
  }

  function Digits(n: nat): (s: string)
    ensures s != "" && AllDigits(s)
  {
    if n < 10 then [DigitChar(n)] else Digits(n / 10) + [DigitChar(n % 10)]
  }

  function Pow10(n: nat): (p: nat)
    ensures 0 < p
  {
    if n == 0 then 1 else 10 * Pow10(n - 1)
  }

  function Zeros(n: nat): (s: string)
    ensures |s| == n && AllDigits(s)
    ensures forall i :: 0 <= i < n ==> s[i] == '0'
  {
    seq(n, _ => '0')
  }

  function PadStart(s: string, width: nat): string {
    if |s| >= width then s else Zeros(width - |s|) + s
  }

  function PadEnd(s: string, width: nat): string {
    if |s| >= width then s else s + Zeros(width - |s|)
  }

  function StripZeros(s: string): (r: string)
    ensures |r| <= |s| && r == s[..|r|]
    ensures r != "" ==> r[|r| - 1] != '0'
    ensures forall i :: |r| <= i < |s| ==> s[i] == '0'
  {
    if s != "" && s[|s| - 1] == '0' then StripZeros(s[..|s| - 1]) else s
  }

  lemma {:induction false} ValDigits(n: nat)
    ensures Val(Digits(n)) == n
  {
    if n < 10 {
      assert Digits(n)[..0] == "";
    } else {
      ValDigits(n / 10);
      assert Digits(n)[..|Digits(n)| - 1] == Digits(n / 10);
    }
  }

  lemma {:induction false} TenTimes(x: int, p: int, v: int, d: int)
    ensures (x * p + v) * 10 + d == x * (10 * p) + (v * 10 + d)
  {
  }

  lemma {:induction false} Assoc(x: int, p: int, q: int)
    ensures x * p * q == x * (p * q)
  {
  }

  lemma {:induction false} ValConcat(a: string, b: string)
    requires AllDigits(a) && AllDigits(b)
    ensures AllDigits(a + b) && Val(a + b) == Val(a) * Pow10(|b|) + Val(b)
  {
    if b == "" {
      assert a + b == a;
    } else {
      var front := b[..|b| - 1];
      ValConcat(a, front);
      assert (a + b)[..|a + b| - 1] == a + front;
      TenTimes(Val(a), Pow10(|front|), Val(front), DigitValue(b[|b| - 1]));
    }
  }

  lemma {:induction false} ValBound(s: string)
    requires AllDigits(s)
    ensures Val(s) < Pow10(|s|)
  {
    if s != "" {
      ValBound(s[..|s| - 1]);
    }
  }

  lemma {:induction false} ValZeros(n: nat)
    ensures Val(Zeros(n)) == 0
  {
    if n > 0 {
      ValZeros(n - 1);
      assert Zeros(n)[..n - 1] == Zeros(n - 1);
    }
  }

  lemma {:induction false} DigitsFit(n: nat, width: nat)
    requires 0 < width && n < Pow10(width)
    ensures |Digits(n)| <= width
  {
    if n >= 10 {
      assert width > 1 by {
        assert Pow10(1) == 10 * Pow10(0);
      }
      DigitsFit(n / 10, width - 1);
    }
  }

  // Padding a number on the left keeps its value; stripping zeros on the right and padding them
  // back changes nothing.
  lemma {:induction false} PadStartKeepsValue(n: nat, width: nat)
    requires 0 < width && n < Pow10(width)
    ensures |PadStart(Digits(n), width)| == width && AllDigits(PadStart(Digits(n), width))
    ensures Val(PadStart(Digits(n), width)) == n
  {
    DigitsFit(n, width);
    ValDigits(n);
    LeadingZeros(width - |Digits(n)|, Digits(n));
  }

  lemma {:induction false} LeadingZeros(k: nat, s: string)
    requires AllDigits(s)
    ensures AllDigits(Zeros(k) + s) && Val(Zeros(k) + s) == Val(s)
  {
    ValConcat(Zeros(k), s);
    ValZeros(k);
    assert 0 * Pow10(|s|) == 0;
  }

  lemma {:induction false} StripThenPad(s: string)
    ensures PadEnd(StripZeros(s), |s|) == s
  {
    var r := StripZeros(s);
    var p := PadEnd(r, |s|);
    forall i | 0 <= i < |s|
      ensures |p| == |s| && p[i] == s[i]
    {
      assert i < |r| ==> r[i] == s[..|r|][i];
    }
  }

  // ----- Decimal texts -------------------------------------------------------------------------

  function DotAt(s: string, i: nat): (k: nat)
    requires i <= |s|
    ensures i <= k <= |s|
    ensures forall j :: i <= j < k ==> s[j] != '.'
    ensures k < |s| ==> s[k] == '.'
    decreases |s| - i
  {
    if i == |s| || s[i] == '.' then i else DotAt(s, i + 1)
  }

  function IntPart(s: string): string {
    s[..DotAt(s, 0)]
  }

  function FracPart(s: string): string {
    var k := DotAt(s, 0);
    if k == |s| then "" else s[k + 1..]
  }

  // Digits with at most one dot among them, and at least one character that is not a lone dot.
  predicate IsDecimal(s: string) {
    s != "" && s != "." && AllDigits(IntPart(s)) && AllDigits(FracPart(s))
  }

  function OrZero(s: string): string {
    if s == "" then "0" else s
  }

  function ParseAmount(human: string, decimals: nat): Result<nat, AmountError> {
    var s := Trim(human);
    if !IsDecimal(s) then Err(InvalidAmount)
    else if |FracPart(s)| > decimals then Err(TooManyDecimals)
    else
      var frac := PadEnd(FracPart(s), decimals);
      Ok(RawUnits(Val(OrZero(IntPart(s))), Pow10(decimals), Val(OrZero(frac))))
  }

  function RawUnits(whole: nat, unit: nat, frac: nat): nat {
    whole * unit + frac
  }

  function Fraction(f: nat, decimals: nat): string {
    StripZeros(PadStart(Digits(f), decimals))
  }

  function Printed(whole: string, frac: string): string {
    if frac != "" then whole + "." + frac else whole
  }

  lemma {:induction false} DivisionSplits(n: nat, d: nat)
    requires 0 < d
    ensures RawUnits(n / d, d, n % d) == n && n % d < d
  {
  }

  function FormatParts(whole: nat, frac: nat, decimals: nat): string {
    Printed(Digits(whole), Fraction(frac, decimals))
  }

  function FormatOver(n: nat, base: nat, decimals: nat): string
    requires 0 < base
  {
    FormatParts(n / base, n % base, decimals)
  }

  function FormatMagnitude(n: nat, decimals: nat): string {
    FormatOver(n, Pow10(decimals), decimals)
  }

  function FormatAmount(n: int, decimals: nat): string {
    if n < 0 then "-" + FormatMagnitude(-n, decimals) else FormatMagnitude(n, decimals)
  }

  // ----- What the parser accepts, and what it returns ------------------------------------------

  // Digits and dots, at most one dot, at least one digit.
  ghost predicate Spelling(s: string) {
    && (forall i :: 0 <= i < |s| ==> IsDigit(s[i]) || s[i] == '.')
    && (forall i, j :: 0 <= i < j < |s| ==> s[i] != '.' || s[j] != '.')
    && (exists i :: 0 <= i < |s| && IsDigit(s[i]))
  }

  lemma {:induction false} AcceptedSpellings(s: string)
    ensures IsDecimal(s) <==> Spelling(s)
  {
    if IsDecimal(s) {
      DecimalIsSpelling(s);
    }
    if Spelling(s) {
      SpellingIsDecimal(s);
    }
  }

  lemma {:induction false} DecimalIsSpelling(s: string)
    requires IsDecimal(s)
    ensures Spelling(s)
  {
    var k := DotAt(s, 0);
    forall i | 0 <= i < |s|
      ensures if i == k then s[i] == '.' else IsDigit(s[i])
    {
      assert s[i] == if i < k then IntPart(s)[i] else if i == k then '.' else FracPart(s)[i - k - 1];
    }
    assert IsDigit(s[if k == 0 then |s| - 1 else 0]);
  }

  lemma {:induction false} SpellingIsDecimal(s: string)
    requires Spelling(s)
    ensures IsDecimal(s)
  {
    var k := DotAt(s, 0);
    var i :| 0 <= i < |s| && IsDigit(s[i]);
    assert s[i] != '.';
  }

  // The rational a spelling denotes, read left to right: its digits as one integer, over ten to the
  // number of digits that follow the dot.
  function Numeral(s: string): nat {
    if s == "" then 0
    else if IsDigit(s[|s| - 1]) then Numeral(s[..|s| - 1]) * 10 + DigitValue(s[|s| - 1])
    else Numeral(s[..|s| - 1])
  }

  function Places(s: string): nat {
    if s == "" || '.' !in s || s[|s| - 1] == '.' then 0 else Places(s[..|s| - 1]) + 1
  }

  lemma {:induction false} NumeralOfParts(a: string, b: string)
    requires AllDigits(a) && AllDigits(b)
    ensures Numeral(a + "." + b) == Val(a) * Pow10(|b|) + Val(b) && Places(a + "." + b) == |b|
    decreases |b|
  {
    var s := a + "." + b;
    assert s[|a|] == '.';
    if b == "" {
      assert s[..|s| - 1] == a;
      NumeralOfDigits(a);
    } else {
      var front := b[..|b| - 1];
      assert s[..|s| - 1] == a + "." + front;
      NumeralOfParts(a, front);
      TenTimes(Val(a), Pow10(|front|), Val(front), DigitValue(b[|b| - 1]));
    }
  }

  lemma {:induction false} NumeralOfDigits(a: string)
    requires AllDigits(a)
    ensures Numeral(a) == Val(a) && Places(a) == 0
  {
    if a != "" {
      NumeralOfDigits(a[..|a| - 1]);
    }
  }

  lemma {:induction false} NumeralOfDecimal(s: string)
    requires IsDecimal(s)
    ensures Places(s) == |FracPart(s)|
    ensures Numeral(s) == Val(IntPart(s)) * Pow10(|FracPart(s)|) + Val(FracPart(s))
  {
    var k := DotAt(s, 0);
    if k == |s| {
      assert IntPart(s) == s;
      NumeralOfDigits(s);
    } else {
      assert s == IntPart(s) + "." + FracPart(s);
      NumeralOfParts(IntPart(s), FracPart(s));
    }
  }

  lemma {:induction false} Pow10Sum(a: nat, b: nat)
    ensures Pow10(a + b) == Pow10(a) * Pow10(b)
  {
    if a > 0 {
      Pow10Sum(a - 1, b);
    }
  }

  lemma {:induction false} ValPadEnd(s: string, width: nat)
    requires AllDigits(s) && |s| <= width
    ensures AllDigits(PadEnd(s, width)) && Val(PadEnd(s, width)) * Pow10(|s|) == Val(s) * Pow10(width)
  {
    var k := width - |s|;
    ValConcat(s, Zeros(k));
    ValZeros(k);
    Pow10Sum(k, |s|);
    assert PadEnd(s, width) == s + Zeros(k);
    Assoc(Val(s), Pow10(k), Pow10(|s|));
  }

  lemma {:induction false} ValOrZero(s: string)
    requires AllDigits(s)
    ensures AllDigits(OrZero(s)) && Val(OrZero(s)) == Val(s)
  {
    if s == "" {
      ValDigits(0);
    }
  }

  // Parsing is exact: it fails exactly on texts that are not decimal spellings or that are finer
  // than the asset, and otherwise returns the denoted rational scaled by ten to the decimals.
  lemma {:induction false} ParseIsExact(human: string, decimals: nat)
    ensures
      var s := Trim(human);
      match ParseAmount(human, decimals)
      case Ok(v) => Spelling(s) && Places(s) <= decimals && v * Pow10(Places(s)) == Numeral(s) * Pow10(decimals)
      case Err(InvalidAmount) => !Spelling(s)
      case Err(e) => e == TooManyDecimals && Spelling(s) && decimals < Places(s)
  {
    var s := Trim(human);
    AcceptedSpellings(s);
    if IsDecimal(s) {
      NumeralOfDecimal(s);
      if |FracPart(s)| <= decimals {
        ParsedValue(IntPart(s), FracPart(s), decimals, ParseAmount(human, decimals).value, Numeral(s));
      }
    }
  }

  lemma {:induction false} ParsedValue(a: string, b: string, decimals: nat, v: nat, n: nat)
    requires AllDigits(a) && AllDigits(b) && |b| <= decimals && AllDigits(OrZero(a))
      && AllDigits(OrZero(PadEnd(b, decimals)))
    requires v == Val(OrZero(a)) * Pow10(decimals) + Val(OrZero(PadEnd(b, decimals)))
    requires n == Val(a) * Pow10(|b|) + Val(b)
    ensures v * Pow10(|b|) == n * Pow10(decimals)
  {
    var frac := PadEnd(b, decimals);
    ValPadEnd(b, decimals);
    ValOrZero(a);
    ValOrZero(frac);
    Rescale(Val(a), Val(frac), Val(b), Pow10(decimals), Pow10(|b|), v, n);
  }

  lemma {:induction false} Rescale(x: int, y: int, z: int, p: int, q: int, v: int, n: int)
    requires y * q == z * p && v == x * p + y && n == x * q + z
    ensures v * q == n * p
  {
    assert v * q == x * p * q + y * q;
    assert n * p == x * q * p + z * p;
    assert x * p * q == x * q * p;
  }

  lemma {:induction false} PaddedIsDigits(a: string, b: string, decimals: nat)
    requires AllDigits(a) && AllDigits(b)
    ensures AllDigits(OrZero(a)) && AllDigits(OrZero(PadEnd(b, decimals)))
  {
  }

  // ----- Round trips ---------------------------------------------------------------------------

  lemma {:induction false} DotBetween(a: string, b: string)
    requires AllDigits(a) && AllDigits(b)
    ensures IntPart(a + "." + b) == a && FracPart(a + "." + b) == b
    ensures IntPart(a) == a && FracPart(a) == ""
  {
    var s := a + "." + b;
    assert s[|a|] == '.';
    assert forall i :: 0 <= i < |a| ==> s[i] == a[i];
    assert DotAt(s, 0) == |a|;
    assert DotAt(a, 0) == |a|;
  }

  lemma {:induction false} PrintedParts(whole: string, frac: string)
    requires whole != "" && AllDigits(whole) && AllDigits(frac)
    ensures var s := Printed(whole, frac);
      Trim(s) == s && IsDecimal(s) && IntPart(s) == whole && FracPart(s) == frac
  {
    var s := Printed(whole, frac);
    DotBetween(whole, frac);
    assert s[0] == whole[0];
    assert s[|s| - 1] == if frac != "" then frac[|frac| - 1] else whole[|whole| - 1];
    NoSpace(s);
  }

  // What a whole part and a fraction parse to.
  lemma {:induction false} ParsePrinted(whole: string, frac: string, decimals: nat)
    requires whole != "" && AllDigits(whole) && AllDigits(frac) && |frac| <= decimals
    ensures AllDigits(OrZero(PadEnd(frac, decimals)))
    ensures ParseAmount(Printed(whole, frac), decimals)
         == Ok(RawUnits(Val(whole), Pow10(decimals), Val(OrZero(PadEnd(frac, decimals)))))
  {
    PrintedParts(whole, frac);
    PaddedIsDigits(whole, frac, decimals);
    assert OrZero(whole) == whole;
  }

  // The printed fraction fits, and padding it back gives the fraction's value.
  lemma {:induction false} FractionText(f: nat, decimals: nat)
    requires f < Pow10(decimals)
    ensures var frac := Fraction(f, decimals);
      && |frac| <= decimals && AllDigits(frac) && AllDigits(OrZero(PadEnd(frac, decimals)))
      && Val(OrZero(PadEnd(frac, decimals))) == f
  {
    if decimals == 0 {
      assert PadStart(Digits(0), 0) == "0";
      assert StripZeros("0") == StripZeros("0"[..0]) == "";
      ValDigits(0);
    } else {
      PadStartKeepsValue(f, decimals);
      StripThenPad(PadStart(Digits(f), decimals));
    }
  }

  // A magnitude prints as its quotient and its remainder by ten to the decimals.
  lemma {:induction false} MagnitudeParts(n: nat, decimals: nat) returns (q: nat, f: nat)
    ensures f < Pow10(decimals) && RawUnits(q, Pow10(decimals), f) == n
    ensures FormatMagnitude(n, decimals) == FormatParts(q, f, decimals)
  {
    q, f := PartsOver(n, Pow10(decimals), decimals);
  }

  lemma {:induction false} PartsOver(n: nat, base: nat, decimals: nat) returns (q: nat, f: nat)
    requires 0 < base
    ensures f < base && RawUnits(q, base, f) == n && FormatOver(n, base, decimals) == FormatParts(q, f, decimals)
  {
    q, f := n / base, n % base;
    DivisionSplits(n, base);
  }

  // Printing and parsing back is the identity on amounts; a negative number's text is refused.
  lemma {:induction false} ParseInvertsFormat(n: int, decimals: nat)
    ensures ParseAmount(FormatAmount(n, decimals), decimals) == if n < 0 then Err(InvalidAmount) else Ok(n)
  {
    if n < 0 {
      MinusIsRefused(FormatMagnitude(-n, decimals), decimals);
    } else {
      var q, f := MagnitudeParts(n, decimals);
      PrintedRoundTrip(q, f, decimals);
    }
  }

  lemma {:induction false} PrintedRoundTrip(q: nat, f: nat, decimals: nat)
    requires f < Pow10(decimals)
    ensures ParseAmount(Printed(Digits(q), Fraction(f, decimals)), decimals) == Ok(RawUnits(q, Pow10(decimals), f))
  {
    FractionText(f, decimals);
    ParsePrinted(Digits(q), Fraction(f, decimals), decimals);
    ValDigits(q);
  }

  lemma {:induction false} MinusIsRefused(s: string, decimals: nat)
    ensures ParseAmount("-" + s, decimals) == Err(InvalidAmount)
  {
    var t := Trim("-" + s);
    TrimKeepsFirst("-" + s);
    AcceptedSpellings(t);
    assert t[0] == '-';
  }

  // One canonical text per value: two accepted spellings print alike exactly when they denote the
  // same rational.
  lemma {:induction false} FormatIsCanonical(s: string, t: string, decimals: nat)
    requires ParseAmount(s, decimals).Ok? && ParseAmount(t, decimals).Ok?
    ensures FormatAmount(ParseAmount(s, decimals).value, decimals) == FormatAmount(ParseAmount(t, decimals).value,
      decimals)
       <==> Numeral(Trim(s)) * Pow10(Places(Trim(t))) == Numeral(Trim(t)) * Pow10(Places(Trim(s)))
  {
    var v, w := ParseAmount(s, decimals).value, ParseAmount(t, decimals).value;
    ParseIsExact(s, decimals);
    ParseIsExact(t, decimals);
    ParseInvertsFormat(v, decimals);
    ParseInvertsFormat(w, decimals);
    SameRatio(v, w, Numeral(Trim(s)), Numeral(Trim(t)), Pow10(Places(Trim(s))), Pow10(Places(Trim(t))),
      Pow10(decimals));
  }

  lemma {:induction false} SameRatio(v: nat, w: nat, x: nat, y: nat, p: nat, q: nat, d: nat)
    requires 0 < p && 0 < q && 0 < d && v * p == x * d && w * q == y * d
    ensures v == w <==> x * q == y * p
  {
    Swap(x, d, q);
    Swap(y, d, p);
    Swap(w, q, p);
    assert v * p * q == x * q * d && w * p * q == y * p * d;
    if x * q == y * p {
      Cancel(v * p, w * p, q);
      Cancel(v, w, p);
    } else if v == w {
      Cancel(x * q, y * p, d);
    }
  }

  lemma {:induction false} Swap(a: int, b: int, c: int)
    ensures a * b * c == a * c * b
  {
  }

  lemma {:induction false} Cancel(a: int, b: int, g: int)
    requires 0 < g && a * g == b * g
    ensures a == b
  {
    Lots.MulOrder(a, b, g);
    Lots.MulOrder(b, a, g);
  }

  // No redundant zero and no lone dot: what the printer produces.
  predicate Canonical(s: string) {
    && IsDecimal(s)
    && IntPart(s) != "" && (IntPart(s)[0] == '0' ==> IntPart(s) == "0")
    && (FracPart(s) == "" ==> '.' !in s)
    && (FracPart(s) != "" ==> FracPart(s)[|FracPart(s)| - 1] != '0')
  }

  lemma {:induction false} DigitsHaveNoLeadingZero(n: nat)
    ensures Digits(n)[0] == '0' ==> Digits(n) == "0"
    ensures 0 < n ==> Digits(n)[0] != '0'
  {
    if n >= 10 {
      DigitsHaveNoLeadingZero(n / 10);
    }
  }

  // A digit string without a leading zero is the printed form of its value.
  lemma {:induction false} DigitsOfVal(s: string)
    requires s != "" && AllDigits(s) && (s[0] == '0' ==> s == "0")
    ensures Digits(Val(s)) == s
    ensures s != "0" ==> 0 < Val(s)
  {
    var front := s[..|s| - 1];
    if front == "" {
      assert s == [s[0]];
    } else {
      assert front[0] == s[0];
      DigitsOfVal(front);
      assert Val(s) / 10 == Val(front) && Val(s) % 10 == DigitValue(s[|s| - 1]);
      assert s == front + [s[|s| - 1]];
    }
  }

  // Digit strings of one length are determined by their value.
  lemma {:induction false} SameValueSameDigits(s: string, t: string)
    requires AllDigits(s) && AllDigits(t) && |s| == |t| && Val(s) == Val(t)
    ensures s == t
  {
    if s != "" {
      SameValueSameDigits(s[..|s| - 1], t[..|t| - 1]);
      assert s == s[..|s| - 1] + [s[|s| - 1]];
      assert t == t[..|t| - 1] + [t[|t| - 1]];
    }
  }

  lemma {:induction false} StripPadded(frac: string, k: nat)
    requires frac != "" ==> frac[|frac| - 1] != '0'
    ensures StripZeros(frac + Zeros(k)) == frac
    decreases k
  {
    if k == 0 {
      assert frac + Zeros(0) == frac;
    } else {
      assert (frac + Zeros(k))[..|frac| + k - 1] == frac + Zeros(k - 1);
      StripPadded(frac, k - 1);
    }
  }

  // A fraction text without trailing zeros is printed back from its padded value.
  lemma {:induction false} FractionOfVal(frac: string, decimals: nat)
    requires AllDigits(frac) && |frac| <= decimals && (frac != "" ==> frac[|frac| - 1] != '0')
    ensures AllDigits(OrZero(PadEnd(frac, decimals)))
    ensures Val(OrZero(PadEnd(frac, decimals))) < Pow10(decimals)
    ensures Fraction(Val(OrZero(PadEnd(frac, decimals))), decimals) == frac
  {
    var padded := PadEnd(frac, decimals);
    PaddedIsDigits("", frac, decimals);
    ValOrZero(padded);
    ValBound(padded);
    if decimals == 0 {
      FractionText(0, 0);
    } else {
      PaddedFraction(frac, padded, decimals);
    }
  }

  lemma {:induction false} PaddedFraction(frac: string, padded: string, decimals: nat)
    requires AllDigits(frac) && |frac| <= decimals && (frac != "" ==> frac[|frac| - 1] != '0')
    requires padded == PadEnd(frac, decimals) && AllDigits(padded) && 0 < decimals && Val(padded) < Pow10(decimals)
    ensures Fraction(Val(padded), decimals) == frac
  {
    PadStartKeepsValue(Val(padded), decimals);
    SameValueSameDigits(PadStart(Digits(Val(padded)), decimals), padded);
    StripPadded(frac, decimals - |frac|);
    assert padded == frac + Zeros(decimals - |frac|);
  }

  lemma {:induction false} DivisionUnique(q: nat, d: nat, r: nat)
    requires r < d
    ensures RawUnits(q, d, r) / d == q && RawUnits(q, d, r) % d == r
  {
    Lots.ResidueUnique(RawUnits(q, d, r), d, q, r);
  }

  // The printer's texts are exactly the canonical ones: it prints nothing else, and parsing a
  // canonical text prints back as that text.
  lemma {:induction false} PrintsExactlyCanonical(s: string, decimals: nat)
    ensures (exists n: nat :: FormatAmount(n, decimals) == s) <==> Canonical(s) && |FracPart(s)| <= decimals
  {
    if n: nat :| FormatAmount(n, decimals) == s {
      PrintsCanonical(n, decimals);
    }
    if Canonical(s) && |FracPart(s)| <= decimals {
      var n := CanonicalIsPrinted(s, decimals);
    }
  }

  lemma {:induction false} PrintsCanonical(n: nat, decimals: nat)
    ensures var s := FormatAmount(n, decimals); Canonical(s) && |FracPart(s)| <= decimals
  {
    var q, f := MagnitudeParts(n, decimals);
    FractionText(f, decimals);
    PrintedParts(Digits(q), Fraction(f, decimals));
    DigitsHaveNoLeadingZero(q);
  }

  lemma {:induction false} CanonicalIsPrinted(s: string, decimals: nat) returns (n: nat)
    requires Canonical(s) && |FracPart(s)| <= decimals
    ensures FormatAmount(n, decimals) == s
  {
    var whole, frac := IntPart(s), FracPart(s);
    FractionOfVal(frac, decimals);
    DigitsOfVal(whole);
    PartsPrint(s);
    n := PrintedFrom(Val(whole), Val(OrZero(PadEnd(frac, decimals))), decimals);
  }

  lemma {:induction false} PrintedFrom(q: nat, f: nat, decimals: nat) returns (n: nat)
    requires f < Pow10(decimals)
    ensures FormatAmount(n, decimals) == Printed(Digits(q), Fraction(f, decimals))
  {
    n := RawUnits(q, Pow10(decimals), f);
    DivisionUnique(q, Pow10(decimals), f);
  }

  lemma {:induction false} PartsPrint(s: string)
    requires FracPart(s) == "" ==> '.' !in s
    ensures s == Printed(IntPart(s), FracPart(s))
  {
    var k := DotAt(s, 0);
    if k < |s| {
      assert s[k] in s;
      assert s == s[..k] + "." + s[k + 1..];
    }
  }

  // ----- Limit prices --------------------------------------------------------------------------

  datatype Ratio = Ratio(num: nat, den: nat)

  function ParseRatio(s: string): Result<Ratio, AmountError> {
    var t := Trim(s);
    if !IsDecimal(t) then Err(InvalidAmount)
    else
      Digitwise(OrZero(IntPart(t)), FracPart(t));
      Ok(Ratio(Val(OrZero(IntPart(t)) + FracPart(t)), Pow10(|FracPart(t)|)))
  }

  lemma {:induction false} Digitwise(a: string, b: string)
    requires AllDigits(a) && AllDigits(b)
    ensures AllDigits(a + b)
  {
  }

  // The parsed fraction is the denoted rational.
  lemma {:induction false} RatioIsExact(s: string)
    ensures
      match ParseRatio(s)
      case Ok(r) => Spelling(Trim(s)) && 0 < r.den && r.num == Numeral(Trim(s)) && r.den == Pow10(Places(Trim(s)))
      case Err(e) => !Spelling(Trim(s))
  {
    var t := Trim(s);
    AcceptedSpellings(t);
    if IsDecimal(t) {
      NumeralOfDecimal(t);
      ValOrZero(IntPart(t));
      ValConcat(OrZero(IntPart(t)), FracPart(t));
    }
  }

  // Big-integer division truncates toward zero.
  function TruncDiv(a: int, b: int): int
    requires b > 0
  {
    if a >= 0 then a / b else -((-a) / b)
  }

  // Quote for offered base: multiply by the price num / den.
  function SellMinOut(amountIn: int, r: Ratio, base: nat, quote: nat): int
    requires 0 < r.den && 0 < base
  {
    PositiveProduct(r.den, base);
    TruncDiv(amountIn * r.num * quote, r.den * base)
  }

  // Base for offered quote: divide by the price.
  function BuyMinOut(amountIn: int, r: Ratio, base: nat, quote: nat): int
    requires 0 < r.num && 0 < quote
  {
    PositiveProduct(r.num, quote);
    TruncDiv(amountIn * r.den * base, r.num * quote)
  }

  lemma {:induction false} PositiveProduct(a: nat, b: nat)
    requires 0 < a && 0 < b
    ensures 0 < a * b
  {
    Lots.FactorSize(a, b);
  }

  function ComputeMinOutAtPrice(amountIn: int, price: string, sell: bool, decimalsBase: nat, decimalsQuote: nat)
    : Result<int, AmountError>
  {
    var r :- ParseRatio(price);
    if sell then Ok(SellMinOut(amountIn, r, Pow10(decimalsBase), Pow10(decimalsQuote)))
    else if r.num == 0 then Err(DivisionByZero)
    else Ok(BuyMinOut(amountIn, r, Pow10(decimalsBase), Pow10(decimalsQuote)))
  }

  lemma {:induction false} FloorIsTight(n: nat, d: nat)
    requires 0 < d
    ensures TruncDiv(n, d) >= 0 && TruncDiv(n, d) * d <= n < (TruncDiv(n, d) + 1) * d
  {
    assert n == d * (n / d) + n % d;
  }

  lemma {:induction false} SellIsTight(amountIn: nat, r: Ratio, base: nat, quote: nat)
    requires 0 < r.den && 0 < base
    ensures var m := SellMinOut(amountIn, r, base, quote);
      0 <= m && m * (r.den * base) <= amountIn * r.num * quote < (m + 1) * (r.den * base)
  {
    PositiveProduct(r.den, base);
    FloorIsTight(amountIn * r.num * quote, r.den * base);
  }

  lemma {:induction false} BuyIsTight(amountIn: nat, r: Ratio, base: nat, quote: nat)
    requires 0 < r.num && 0 < quote
    ensures var m := BuyMinOut(amountIn, r, base, quote);
      0 <= m && m * (r.num * quote) <= amountIn * r.den * base < (m + 1) * (r.num * quote)
  {
    PositiveProduct(r.num, quote);
    FloorIsTight(amountIn * r.den * base, r.num * quote);
  }

  // Each minimum is the exact rational value rounded down, less than one raw unit off; the only
  // failures are texts that spell no decimal and a buy at price zero.
  lemma {:induction false} MinOutIsWithinOneUnit(amountIn: nat, price: string, sell: bool, decimalsBase: nat,
      decimalsQuote: nat)
    ensures
      var t := Trim(price);
      var exactNum :=
        if sell then amountIn * Numeral(t) * Pow10(decimalsQuote)
        else amountIn * Pow10(Places(t)) * Pow10(decimalsBase);
      var exactDen := if sell then Pow10(Places(t)) * Pow10(decimalsBase) else Numeral(t) * Pow10(decimalsQuote);
      match ComputeMinOutAtPrice(amountIn, price, sell, decimalsBase, decimalsQuote)
      case Ok(m) => Spelling(t) && 0 <= m && m * exactDen <= exactNum < (m + 1) * exactDen
      case Err(DivisionByZero) => Spelling(t) && !sell && Numeral(t) == 0
      case Err(_) => !Spelling(t)
  {
    RatioIsExact(price);
    var r := ParseRatio(price);
    if r.Ok? {
      if sell {
        SellIsTight(amountIn, r.value, Pow10(decimalsBase), Pow10(decimalsQuote));
      } else if r.value.num != 0 {
        BuyIsTight(amountIn, r.value, Pow10(decimalsBase), Pow10(decimalsQuote));
      }
    }
  }

  // Two orders priced by the client meet on chain: a sell at price p and a buy at price q with
  // p <= q pass the contract's crossing test, whatever the amounts and the decimals.
  lemma {:induction false} PricedOrdersMeet(base: nat, quote: nat, p: string, q: string, decimalsBase: nat,
      decimalsQuote: nat)
    requires ComputeMinOutAtPrice(base, p, true, decimalsBase, decimalsQuote).Ok?
    requires ComputeMinOutAtPrice(quote, q, false, decimalsBase, decimalsQuote).Ok?
    requires Numeral(Trim(p)) * Pow10(Places(Trim(q))) <= Numeral(Trim(q)) * Pow10(Places(Trim(p)))
    ensures
      var sellMin := ComputeMinOutAtPrice(base, p, true, decimalsBase, decimalsQuote).value;
      var buyMin := ComputeMinOutAtPrice(quote, q, false, decimalsBase, decimalsQuote).value;
      0 <= sellMin && 0 <= buyMin && Lots.CrossAmounts(base, sellMin, quote, buyMin)
  {
    var s, t := ParseRatio(p).value, ParseRatio(q).value;
    var bs, qs := Pow10(decimalsBase), Pow10(decimalsQuote);
    RatioIsExact(p);
    RatioIsExact(q);
    SellIsTight(base, s, bs, qs);
    BuyIsTight(quote, t, bs, qs);
    FloorsMeet(base, quote, SellMinOut(base, s, bs, qs), BuyMinOut(quote, t, bs, qs), s, t, bs, qs);
  }

  lemma {:induction false} FloorsMeet(base: nat, quote: nat, sellMin: nat, buyMin: nat, s: Ratio, t: Ratio, bs: nat,
      qs: nat)
    requires 0 < bs && 0 < qs && 0 < s.den && 0 < t.den && 0 < t.num && s.num * t.den <= t.num * s.den
    requires sellMin * (s.den * bs) <= base * s.num * qs
    requires buyMin * (t.num * qs) <= quote * t.den * bs
    ensures sellMin * buyMin <= base * quote
  {
    var d, n := s.den * bs, t.num * qs;
    PositiveProduct(s.den, bs);
    PositiveProduct(t.num, qs);
    PositiveProduct(d, n);
    var k, e := base * quote, qs * bs;
    Product(sellMin * d, base * s.num * qs, buyMin * n, quote * t.den * bs);
    Shuffle(sellMin, d, buyMin, n);
    Shuffle(base * s.num, qs, quote * t.den, bs);
    Shuffle(base, s.num, quote, t.den);
    assert sellMin * buyMin * (d * n) <= k * (s.num * t.den) * e;
    Shuffle(s.den, bs, t.num, qs);
    assert d * n == (t.num * s.den) * e;
    Assoc(k, t.num * s.den, e);
    Lots.MulLe(s.num * t.den, t.num * s.den, k);
    Lots.MulLe(k * (s.num * t.den), k * (t.num * s.den), e);
    Lots.MulOrder(sellMin * buyMin, base * quote, d * n);
  }

  lemma {:induction false} Product(a: nat, b: nat, c: nat, d: nat)
    requires a <= b && c <= d
    ensures a * c <= b * d
  {
    Lots.MulLe(a, b, c);
    Lots.MulLe(c, d, b);
  }

  lemma {:induction false} Shuffle(a: int, b: int, c: int, d: int)
    ensures (a * b) * (c * d) == (a * c) * (b * d)
  {
  }
}
