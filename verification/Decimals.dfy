/** Exact decimal values and their printed form (internal/finance/decimal.go). A `Decimal` is an
    arbitrary-precision rational, modelled as a real; printing follows `big.Rat.FloatString`. */
module Decimals {
  import opened Text
  import opened Arithmetic

  // ---- Digit strings ---------------------------------------------------------------

  predicate IsDigit(c: char) {
    '0' <= c <= '9'
  }

  function DigitOf(c: char): (d: nat)
    requires IsDigit(c)
    ensures d < 10
  {
    c as int - '0' as int
  }

  function CharOf(d: nat): (c: char)
    requires d < 10
    ensures IsDigit(c) && DigitOf(c) == d
  {
    ('0' as int + d) as char
  }

  predicate AllDigits(s: string) {
    forall i :: 0 <= i < |s| ==> IsDigit(s[i])
  }

  /** The number a digit string denotes. */
  function Number(s: string): nat
    requires AllDigits(s)
  {
    if s == "" then 0 else 10 * Number(s[..|s| - 1]) + DigitOf(s[|s| - 1])
  }

  function Pow10(n: nat): (p: nat)
    ensures p >= 1
  {
    if n == 0 then 1 else 10 * Pow10(n - 1)
  }

  function Digits(n: nat): (s: string)
    ensures s != "" && AllDigits(s)
  {
    if n < 10 then [CharOf(n)] else Digits(n / 10) + [CharOf(n % 10)]
  }

  function Zeros(n: nat): (s: string)
    ensures |s| == n && AllDigits(s)
  {
    if n == 0 then "" else ['0'] + Zeros(n - 1)
  }

  /** At least `width` digits, padded with zeros on the left. */
  function Padded(n: nat, width: nat): (s: string)
    ensures AllDigits(s)
  {
    var d := Digits(n);
    if |d| < width then Zeros(width - |d|) + d else d
  }

  lemma {:induction false} NumberOfDigits(n: nat)
    ensures Number(Digits(n)) == n
  {
    if n < 10 {
      assert Number(Digits(n)[..0]) == 0;
    } else {
      NumberOfDigits(n / 10);
      assert Digits(n)[..|Digits(n)| - 1] == Digits(n / 10);
    }
  }

  lemma {:induction false} NumberOfZeros(k: nat)
    ensures Number(Zeros(k)) == 0
  {
    if k > 0 {
      ZerosSnoc(k - 1);
      NumberOfZeros(k - 1);
      assert Zeros(k)[..k - 1] == Zeros(k - 1);
    }
  }

  lemma {:induction false} ZerosSnoc(k: nat)
    ensures Zeros(k + 1) == Zeros(k) + ['0']
  {
    if k > 0 { ZerosSnoc(k - 1); }
  }

  lemma {:induction false} LeadingZeros(k: nat, s: string)
    requires AllDigits(s)
    ensures Number(Zeros(k) + s) == Number(s)
  {
    var t := Zeros(k) + s;
    if s == "" {
      assert t == Zeros(k);
      NumberOfZeros(k);
    } else {
      LeadingZeros(k, s[..|s| - 1]);
      assert t[..|t| - 1] == Zeros(k) + s[..|s| - 1];
    }
  }

  lemma {:induction false} DigitsFit(n: nat, width: nat)
    requires width >= 1 && n < Pow10(width)
    ensures |Digits(n)| <= width
  {
    if n >= 10 {
      assert Pow10(1) == 10 * Pow10(0);
      DigitsFit(n / 10, width - 1);
    }
  }

  lemma {:induction false} PaddedDenotes(n: nat, width: nat)
    requires width >= 1 && n < Pow10(width)
    ensures |Padded(n, width)| == width && Number(Padded(n, width)) == n
  {
    NumberOfDigits(n);
    DigitsFit(n, width);
    LeadingZeros(width - |Digits(n)|, Digits(n));
  }

  // ---- Parsing ---------------------------------------------------------------------

  function Unsigned(s: string): string {
    if s != "" && (s[0] == '+' || s[0] == '-') then s[1..] else s
  }

  /** The index of the first '.', or the length. */
  function Dot(s: string): (i: nat)
    ensures i <= |s| && (i < |s| ==> s[i] == '.') && forall k :: 0 <= k < i ==> s[k] != '.'
  {
    if s == "" || s[0] == '.' then 0 else 1 + Dot(s[1..])
  }

  function Whole(s: string): string {
    var b := Unsigned(s);
    b[..Dot(b)]
  }

  function Fraction(s: string): string {
    var b := Unsigned(s);
    if Dot(b) < |b| then b[Dot(b) + 1..] else ""
  }

  /** An optional sign, digits, and optionally a '.' with more digits. */
  predicate Plain(s: string) {
    var b := Unsigned(s);
    && Whole(s) != "" && AllDigits(Whole(s)) && AllDigits(Fraction(s))
    && (Dot(b) < |b| ==> Fraction(s) != "")
  }

  function Magnitude(s: string): (m: real)
    requires Plain(s)
    ensures m >= 0.0
  {
    QuotientSign(Number(Fraction(s)) as real, Pow10(|Fraction(s)|) as real);
    Number(Whole(s)) as real + Number(Fraction(s)) as real / Pow10(|Fraction(s)|) as real
  }

  function ParseDecimal(raw: string, maxScale: nat): Option<real> {
    var s := TrimSpace(raw);
    if !Plain(s) || |Fraction(s)| > maxScale then None
    else Some(if s[0] == '-' then -Magnitude(s) else Magnitude(s))
  }

  // ---- Printing --------------------------------------------------------------------

  function Scaled(f: real, p: real): (x: real)
    requires 0.0 <= f < 1.0 && p >= 1.0
    ensures 0.0 <= x < p
  {
    ScaleBelow(f, p);
    f * p
  }

  /** The fractional part of |v|, scaled. */
  function Remainder(v: real, p: nat): (x: real)
    requires p >= 1
    ensures 0.0 <= x < p as real
  {
    Scaled(Abs(v) - Abs(v).Floor as real, p as real)
  }

  /** `FloatString`'s quotient and scaled remainder: the remainder is rounded half up, and may carry. */
  function Parts(v: real, p: nat): (nat, nat)
    requires p >= 1
  {
    var q := Abs(v).Floor;
    var x := Remainder(v, p);
    var r := x.Floor;
    if 2.0 * (x - r as real) < 1.0 then (q, r)
    else if r + 1 >= p then (q + 1, r + 1 - p)
    else (q, r + 1)
  }

  function Sign(v: real): string {
    if v < 0.0 then "-" else ""
  }

  /** `Decimal.String`. */
  function Print(v: real, scale: nat): string {
    var (q, r) := Parts(v, Pow10(scale));
    Sign(v) + Digits(q) + (if scale > 0 then "." + Padded(r, scale) else "")
  }

  // ---- What printing means ----------------------------------------------------------

  /** The nearest integer, halves away from zero. */
  function Nearest(y: real): int {
    if y < 0.0 then -((0.5 - y).Floor) else (y + 0.5).Floor
  }

  /** How many units of 1/p the value `v` rounds to. */
  function UnitsBy(v: real, p: nat): int {
    Nearest(v * p as real)
  }

  function RoundedBy(v: real, p: nat): real
    requires p >= 1
  {
    UnitsBy(v, p) as real / p as real
  }

  predicate MultipleBy(v: real, p: nat) {
    v * p as real == UnitsBy(v, p) as real
  }

  /** Off by at most half of 1/p. */
  predicate WithinHalf(a: real, v: real, p: nat) {
    Abs(a - v) * p as real <= 0.5
  }

  /** The multiple of 10^-scale nearest to `v`, halves away from zero. */
  function Rounded(v: real, scale: nat): real {
    RoundedBy(v, Pow10(scale))
  }

  /** `v` has at most `scale` decimals. */
  predicate OnGrid(v: real, scale: nat) {
    MultipleBy(v, Pow10(scale))
  }

  lemma {:induction false} Pow10Sum(a: nat, b: nat)
    ensures Pow10(a + b) == Pow10(a) * Pow10(b)
  {
    if a > 0 {
      Pow10Sum(a - 1, b);
      Associate(10, Pow10(a - 1), Pow10(b));
    }
  }

  lemma PowersOfTen()
    ensures Pow10(6) == 1000000 && Pow10(10) == 10000000000
  {
    assert Pow10(3) == 1000;
    Pow10Sum(3, 3);
    Pow10Sum(6, 3);
    Pow10Sum(9, 1);
  }

  lemma NearestNear(y: real)
    ensures Abs(Nearest(y) as real - y) <= 0.5
  {
  }

  lemma NearestMonotone(y: real, z: real)
    requires y <= z
    ensures Nearest(y) <= Nearest(z)
  {
  }

  lemma NearestInteger(y: real, n: int)
    requires y == n as real
    ensures Nearest(y) == n
  {
  }

  // ---- Rounding --------------------------------------------------------------------

  lemma RoundedScaled(v: real, p: nat)
    requires p >= 1
    ensures RoundedBy(v, p) * p as real == UnitsBy(v, p) as real
  {
    Quotient(UnitsBy(v, p) as real, p as real);
  }

  lemma MultipleIntro(v: real, n: int, p: nat)
    requires v * p as real == n as real
    ensures MultipleBy(v, p) && UnitsBy(v, p) == n
  {
    NearestInteger(v * p as real, n);
  }

  /** Halves away from zero: never off by more than half a unit. */
  lemma RoundedNear(v: real, p: nat)
    requires p >= 1
    ensures WithinHalf(RoundedBy(v, p), v, p)
  {
    RoundedScaled(v, p);
    NearFromScaled(RoundedBy(v, p), v, p);
  }

  lemma NearFromScaled(a: real, v: real, p: nat)
    requires p >= 1 && a * p as real == UnitsBy(v, p) as real
    ensures WithinHalf(a, v, p)
  {
    NearestNear(v * p as real);
    ScaleSign(a - v, p as real);
    Distribute(a, v, p as real);
  }

  lemma RoundedMultiple(v: real, p: nat)
    requires p >= 1 && MultipleBy(v, p)
    ensures RoundedBy(v, p) == v
  {
    RoundedScaled(v, p);
    CancelEqual(RoundedBy(v, p), v, p as real);
  }

  lemma RoundedMonotone(v: real, w: real, p: nat)
    requires v <= w && p >= 1
    ensures RoundedBy(v, p) <= RoundedBy(w, p)
  {
    RoundedScaled(v, p);
    RoundedScaled(w, p);
    OrderFromScaled(RoundedBy(v, p), RoundedBy(w, p), v, w, p);
  }

  lemma UnitsMonotone(v: real, w: real, p: nat)
    requires p >= 1 && v <= w
    ensures UnitsBy(v, p) <= UnitsBy(w, p)
  {
    ScaleLess(v, w, p as real);
    NearestMonotone(v * p as real, w * p as real);
  }

  lemma OrderFromScaled(a: real, b: real, v: real, w: real, p: nat)
    requires p >= 1 && v <= w && a * p as real == UnitsBy(v, p) as real && b * p as real == UnitsBy(w, p) as real
    ensures a <= b
  {
    UnitsMonotone(v, w, p);
    CancelLess(a, b, p as real);
  }

  lemma RoundedNonNegative(v: real, p: nat)
    requires v >= 0.0 && p >= 1
    ensures UnitsBy(v, p) >= 0 && RoundedBy(v, p) >= 0.0
  {
    ScaleSign(v, p as real);
    RoundedScaled(v, p);
    ScaleSign(RoundedBy(v, p), p as real);
  }

  lemma RoundedDetermines(v: real, w: real, p: nat)
    requires p >= 1 && RoundedBy(v, p) == RoundedBy(w, p)
    ensures UnitsBy(v, p) == UnitsBy(w, p)
  {
    RoundedScaled(v, p);
    RoundedScaled(w, p);
  }

  // ---- The quotient and remainder ----------------------------------------------------

  lemma ScaledSplit(v: real, p: nat)
    requires p >= 1
    ensures Abs(v) * p as real == (Abs(v).Floor * p) as real + Remainder(v, p)
  {
    var q := Abs(v).Floor;
    ProductAsReal(q, p);
    Distribute(Abs(v), q as real, p as real);
  }

  lemma PartsOf(q: nat, x: real, p: nat, y: real)
    requires 0.0 <= x < p as real && y == (q * p) as real + x
    ensures var r := x.Floor;
            (2.0 * (x - r as real) < 1.0 ==> q * p + r == Nearest(y))
            && (2.0 * (x - r as real) >= 1.0 ==> q * p + r + 1 == Nearest(y))
  {
  }

  lemma NearestAbs(y: real)
    ensures Nearest(Abs(y)) == if y < 0.0 then -Nearest(y) else Nearest(y)
  {
  }

  lemma UnitsOfAbs(v: real, p: nat)
    requires p >= 1
    ensures Nearest(Abs(v) * p as real) == if v < 0.0 then -UnitsBy(v, p) else UnitsBy(v, p)
  {
    ScaleSign(v, p as real);
    NearestAbs(v * p as real);
  }

  /** Together they are the nearest number of units, up to sign. */
  lemma PartsAreUnits(v: real, p: nat)
    requires p >= 1
    ensures Parts(v, p).1 < p
    ensures Parts(v, p).0 * p + Parts(v, p).1 == if v < 0.0 then -UnitsBy(v, p) else UnitsBy(v, p)
  {
    ScaledSplit(v, p);
    UnitsOfAbs(v, p);
    PartsOf(Abs(v).Floor, Remainder(v, p), p, Abs(v) * p as real);
    DistributeInt(Abs(v).Floor, 1, p);
  }

  lemma QuotientOfParts(q: nat, r: nat, p: nat)
    requires p >= 1
    ensures q as real + r as real / p as real == (q * p + r) as real / p as real
  {
    ProductAsReal(q, p);
    AddedQuotient(q as real, r as real, p as real);
  }

  // ---- Reading back ----------------------------------------------------------------

  lemma DotAfter(w: string, tail: string)
    requires AllDigits(w) && (tail == "" || tail[0] == '.')
    ensures Dot(w + tail) == |w|
  {
    var b := w + tail;
    assert forall k :: 0 <= k < |w| ==> b[k] == w[k] && IsDigit(w[k]);
    assert tail != "" ==> b[|w|] == '.';
  }

  lemma TrimIdle(sign: string, w: string, f: string)
    requires sign == "" || sign == "-"
    requires w != "" && AllDigits(w) && AllDigits(f)
    ensures var t := sign + w + (if f == "" then "" else "." + f); TrimSpace(t) == t
  {
    var t := sign + w + (if f == "" then "" else "." + f);
    assert t[0] == if sign == "-" then '-' else w[0];
    assert t[|t| - 1] == if f == "" then w[|w| - 1] else f[|f| - 1];
    TrimSpaceIdle(t);
  }

  lemma SplitAt(w: string, f: string)
    requires AllDigits(w)
    ensures var b := w + (if f == "" then "" else "." + f);
            Dot(b) == |w| && b[..|w|] == w && (|w| < |b| <==> f != "") && (f != "" ==> b[|w| + 1..] == f)
  {
    var tail := if f == "" then "" else "." + f;
    DotAfter(w, tail);
    assert (w + tail)[|w|..] == tail;
    if f != "" { assert (w + tail)[|w| + 1..] == tail[1..] == f; }
  }

  /** A sign or none, digits, and optionally a point with digits. */
  function Spelled(sign: string, w: string, f: string): string {
    sign + w + (if f == "" then "" else "." + f)
  }

  predicate IsSign(sign: string) {
    sign == "" || sign == "+" || sign == "-"
  }

  /** How the parser takes a number apart. */
  lemma Shape(sign: string, w: string, f: string)
    requires IsSign(sign) && w != "" && AllDigits(w) && AllDigits(f)
    ensures var t := Spelled(sign, w, f);
            Plain(t) && Whole(t) == w && Fraction(t) == f && (t[0] == '-' <==> sign == "-")
  {
    var tail := if f == "" then "" else "." + f;
    var t := Spelled(sign, w, f);
    assert t[0] == if sign == "" then w[0] else sign[0];
    assert Unsigned(t) == w + tail;
    SplitAt(w, f);
  }

  /** Every text of that shape is read as the number it spells, unless it has too many decimals. */
  lemma ParseSpelled(raw: string, sign: string, w: string, f: string, maxScale: nat)
    requires IsSign(sign) && w != "" && AllDigits(w) && AllDigits(f) && TrimSpace(raw) == Spelled(sign, w, f)
    ensures var m := Number(w) as real + Number(f) as real / Pow10(|f|) as real;
      ParseDecimal(raw, maxScale) == if |f| > maxScale then None else Some(if sign == "-" then -m else m)
  {
    Shape(sign, w, f);
    ParsePlain(raw, Spelled(sign, w, f), w, f, maxScale);
  }

  lemma ParsePlain(raw: string, s: string, w: string, f: string, maxScale: nat)
    requires TrimSpace(raw) == s && s != "" && Plain(s) && Whole(s) == w && Fraction(s) == f
    ensures var m := Number(w) as real + Number(f) as real / Pow10(|f|) as real;
      ParseDecimal(raw, maxScale) == if |f| > maxScale then None else Some(if s[0] == '-' then -m else m)
  {
  }

  /** And no other text is read. */
  lemma ParseOnlySpelled(raw: string, maxScale: nat) returns (sign: string, w: string, f: string)
    requires ParseDecimal(raw, maxScale).Some?
    ensures IsSign(sign) && w != "" && AllDigits(w) && AllDigits(f) && TrimSpace(raw) == Spelled(sign, w, f)
  {
    var s := TrimSpace(raw);
    sign, w, f := PlainSpelled(s);
  }

  lemma PlainSpelled(s: string) returns (sign: string, w: string, f: string)
    requires Plain(s)
    ensures IsSign(sign) && w != "" && AllDigits(w) && AllDigits(f) && s == Spelled(sign, w, f)
  {
    var b := Unsigned(s);
    sign, w, f := s[..|s| - |b|], Whole(s), Fraction(s);
    assert s == sign + b;
    PointSplits(b);
    assert b == w + (if f == "" then "" else "." + f);
    assert s == sign + w + (if f == "" then "" else "." + f);
  }

  lemma PointSplits(b: string)
    ensures b == b[..Dot(b)] + (if Dot(b) < |b| then "." + b[Dot(b) + 1..] else "")
  {
    SplitPoint(b, Dot(b));
  }

  lemma SplitPoint(b: string, d: nat)
    requires d <= |b| && (d < |b| ==> b[d] == '.')
    ensures b == b[..d] + (if d < |b| then "." + b[d + 1..] else "")
  {
    if d < |b| { assert b[d..] == "." + b[d + 1..]; }
  }

  lemma PrintShape(v: real, scale: nat)
    ensures var t := Print(v, scale); var (q, r) := Parts(v, Pow10(scale));
            TrimSpace(t) == t && Plain(t) && Number(Whole(t)) == q && Number(Fraction(t)) == r && |Fraction(t)| == scale
            && (t[0] == '-' <==> v < 0.0)
  {
    PartsAreUnits(v, Pow10(scale));
    var (q, r) := Parts(v, Pow10(scale));
    ShapeOf(Sign(v), q, r, scale);
  }

  lemma ShapeOf(sign: string, q: nat, r: nat, scale: nat)
    requires r < Pow10(scale) && (sign == "" || sign == "-")
    ensures var t := sign + Digits(q) + (if scale > 0 then "." + Padded(r, scale) else "");
            TrimSpace(t) == t && Plain(t) && Number(Whole(t)) == q && Number(Fraction(t)) == r && |Fraction(t)| == scale
            && (t[0] == '-' <==> sign == "-")
  {
    var f := if scale > 0 then Padded(r, scale) else "";
    if scale > 0 { PaddedDenotes(r, scale); }
    assert sign + Digits(q) + (if scale > 0 then "." + Padded(r, scale) else "") == Spelled(sign, Digits(q), f);
    Shape(sign, Digits(q), f);
    TrimIdle(sign, Digits(q), f);
    NumberOfDigits(q);
  }

  lemma SignedQuotient(v: real, q: nat, r: nat, p: nat)
    requires p >= 1 && q * p + r == if v < 0.0 then -UnitsBy(v, p) else UnitsBy(v, p)
    ensures RoundedBy(v, p) == var m := q as real + r as real / p as real; if v < 0.0 then -m else m
  {
    QuotientOfParts(q, r, p);
    NegatedQuotient((q * p + r) as real, p as real);
  }

  /** Printing and reading back gives the nearest multiple of 10^-scale. */
  lemma PrintParses(v: real, scale: nat, maxScale: nat)
    requires scale <= maxScale
    ensures ParseDecimal(Print(v, scale), maxScale) == Some(Rounded(v, scale))
  {
    var p := Pow10(scale);
    var (q, r) := Parts(v, p);
    PrintShape(v, scale);
    ParseShape(Print(v, scale), q, r, scale, maxScale);
    PartsAreUnits(v, p);
    SignedQuotient(v, q, r, p);
  }

  lemma ParseShape(t: string, q: nat, r: nat, scale: nat, maxScale: nat)
    requires scale <= maxScale && TrimSpace(t) == t && Plain(t) && t != ""
    requires Number(Whole(t)) == q && Number(Fraction(t)) == r && |Fraction(t)| == scale
    ensures var m := q as real + r as real / Pow10(scale) as real;
            ParseDecimal(t, maxScale) == Some(if t[0] == '-' then -m else m)
  {
  }

  lemma MagnitudeScaled(m: real, w: nat, f: nat, p: nat, k: nat)
    requires p >= 1 && m == w as real + f as real / p as real
    ensures m * (p * k) as real == ((w * p + f) * k) as real
  {
    var n := w * p + f;
    QuotientOfParts(w, f, p);
    ProductAsReal(p, k);
    ProductAsReal(n, k);
    Regroup(n as real, p as real, k as real);
  }

  lemma MagnitudeMultiple(m: real, w: nat, f: nat, scale: nat, maxScale: nat)
    requires scale <= maxScale && m == w as real + f as real / Pow10(scale) as real
    ensures MultipleBy(m, Pow10(maxScale)) && MultipleBy(-m, Pow10(maxScale))
  {
    var p, k := Pow10(scale), Pow10(maxScale - scale);
    Pow10Sum(scale, maxScale - scale);
    ScaledMultiple(m, w, f, p, k);
  }

  lemma ScaledMultiple(m: real, w: nat, f: nat, p: nat, k: nat)
    requires p >= 1 && m == w as real + f as real / p as real
    ensures MultipleBy(m, p * k) && MultipleBy(-m, p * k)
  {
    MagnitudeScaled(m, w, f, p, k);
    SignedMultiple(m, (w * p + f) * k, p * k);
  }

  lemma SignedMultiple(m: real, n: int, p: nat)
    requires m * p as real == n as real
    ensures MultipleBy(m, p) && MultipleBy(-m, p)
  {
    MultipleIntro(m, n, p);
    Distribute(m, 0.0, p as real);
    MultipleIntro(-m, -n, p);
  }

  lemma ParsedOnGrid(raw: string, maxScale: nat)
    requires ParseDecimal(raw, maxScale).Some?
    ensures OnGrid(ParseDecimal(raw, maxScale).value, maxScale)
  {
    var s := TrimSpace(raw);
    MagnitudeMultiple(Magnitude(s), Number(Whole(s)), Number(Fraction(s)), |Fraction(s)|, maxScale);
  }

  // ---- Round trip and canonical form -------------------------------------------------

  /** Reading an accepted decimal, printing it at its scale and reading again preserves the value. */
  lemma RoundTrip(raw: string, scale: nat)
    requires ParseDecimal(raw, scale).Some?
    ensures ParseDecimal(Print(ParseDecimal(raw, scale).value, scale), scale) == ParseDecimal(raw, scale)
  {
    var v := ParseDecimal(raw, scale).value;
    ParsedOnGrid(raw, scale);
    RoundedMultiple(v, Pow10(scale));
    PrintParses(v, scale, scale);
  }

  lemma PartsFromUnits(v: real, w: real, p: nat)
    requires p >= 1 && UnitsBy(v, p) == UnitsBy(w, p) && (v < 0.0 <==> w < 0.0)
    ensures Parts(v, p) == Parts(w, p)
  {
    PartsAreUnits(v, p);
    PartsAreUnits(w, p);
    UniqueDivision(Parts(v, p).0, Parts(v, p).1, Parts(w, p).0, Parts(w, p).1, p);
  }

  /** Two printed decimals are the same text exactly when they round to the same multiple and agree in
      sign: a value just below zero prints a minus sign even when it rounds to zero. */
  lemma PrintCanonical(v: real, w: real, scale: nat)
    ensures Print(v, scale) == Print(w, scale) <==> Rounded(v, scale) == Rounded(w, scale) && (v < 0.0 <==> w < 0.0)
  {
    if Print(v, scale) == Print(w, scale) {
      PrintParses(v, scale, scale);
      PrintParses(w, scale, scale);
      PrintSign(v, scale);
      PrintSign(w, scale);
    }
    if Rounded(v, scale) == Rounded(w, scale) && (v < 0.0 <==> w < 0.0) {
      RoundedDetermines(v, w, Pow10(scale));
      PartsFromUnits(v, w, Pow10(scale));
    }
  }

  lemma PrintSign(v: real, scale: nat)
    ensures Print(v, scale) != "" && (Print(v, scale)[0] == '-' <==> v < 0.0)
  {
  }

  /** On values the parser accepts at that scale, equal texts mean equal values. */
  lemma AcceptedCanonical(a: string, b: string, scale: nat)
    requires ParseDecimal(a, scale).Some? && ParseDecimal(b, scale).Some?
    ensures Print(ParseDecimal(a, scale).value, scale) == Print(ParseDecimal(b, scale).value, scale)
            <==> ParseDecimal(a, scale) == ParseDecimal(b, scale)
  {
    RoundTrip(a, scale);
    RoundTrip(b, scale);
  }

  /** The sign is not redundant. */
  lemma NegativeZero()
    ensures Print(-0.0000001, 6) == "-0.000000" && Print(0.0, 6) == "0.000000"
    ensures Rounded(-0.0000001, 6) == Rounded(0.0, 6)
  {
    PowersOfTen();
    assert Parts(-0.0000001, 1000000) == (0, 0);
    assert Parts(0.0, 1000000) == (0, 0);
    assert Padded(0, 6) == "000000" by { assert Zeros(5) == "00000"; }
  }

  // ---- The spreadsheet's textual rate limit --------------------------------------------

  /** Byte-wise string order, as Go's `>` on strings. */
  predicate Above(a: string, b: string) {
    if a == "" then false
    else if b == "" then true
    else if a[0] != b[0] then a[0] > b[0]
    else Above(a[1..], b[1..])
  }

  lemma {:induction false} AboveAfter(prefix: string, a: string, b: string)
    ensures Above(prefix + a, prefix + b) <==> Above(a, b)
  {
    if prefix == "" {
      assert prefix + a == a && prefix + b == b;
    } else {
      assert (prefix + a)[1..] == prefix[1..] + a && (prefix + b)[1..] == prefix[1..] + b;
      AboveAfter(prefix[1..], a, b);
    }
  }

  lemma {:induction false} AboveZeros(a: string)
    requires AllDigits(a)
    ensures Above(a, Zeros(|a|)) <==> a != Zeros(|a|)
  {
    if a != "" {
      AboveZeros(a[1..]);
      assert a == [a[0]] + a[1..];
    }
  }

  lemma {:induction false} LeadingDigit(n: nat)
    requires n >= 1
    ensures Digits(n)[0] != '0'
    ensures n >= 10 ==> |Digits(n)| >= 2
  {
    if n >= 10 { LeadingDigit(n / 10); }
  }

  lemma FractionAbove(r: nat, scale: nat)
    requires scale >= 1 && r < Pow10(scale)
    ensures Above(Padded(r, scale), Zeros(scale)) <==> r > 0
  {
    PaddedDenotes(r, scale);
    AboveZeros(Padded(r, scale));
    NumberOfZeros(scale);
    if r == 0 { PaddedZero(scale); }
  }

  lemma WholeAbove(q: nat, f: string, z: string)
    requires q > 1
    ensures Above(Digits(q) + ("." + f), "1." + z)
  {
    var t, one := Digits(q) + ("." + f), "1." + z;
    LeadingDigit(q);
    assert one[0] == '1' && one[1..][0] == '.';
    assert t[0] == Digits(q)[0];
    if q >= 10 { assert t[1..][0] == Digits(q)[1]; }
  }

  lemma TextAboveOne(q: nat, r: nat, scale: nat)
    requires scale >= 1 && r < Pow10(scale)
    ensures Above(Digits(q) + ("." + Padded(r, scale)), "1." + Zeros(scale)) <==> q > 1 || (q == 1 && r > 0)
  {
    var f := Padded(r, scale);
    var t := Digits(q) + ("." + f);
    if q == 0 {
      assert t[0] == '0' && ("1." + Zeros(scale))[0] == '1';
    } else if q == 1 {
      assert t == "1." + f;
      AboveAfter("1.", f, Zeros(scale));
      FractionAbove(r, scale);
    } else {
      WholeAbove(q, f, Zeros(scale));
    }
  }

  lemma UnitsAboveOne(v: real, p: nat)
    requires p >= 1 && MultipleBy(v, p)
    ensures UnitsBy(v, p) > p <==> v > 1.0
  {
    var x := v * p as real;
    AboveScaled(v, p as real);
    assert x == UnitsBy(v, p) as real;
  }

  lemma {:induction false} PaddedZero(scale: nat)
    requires scale >= 1
    ensures Padded(0, scale) == Zeros(scale)
  {
    assert Digits(0) == ['0'];
    ZerosSnoc(scale - 1);
    if scale == 1 { assert Zeros(0) == ""; }
  }

  lemma RateLimit(v: real, scale: nat)
    requires scale >= 1 && v >= 0.0 && OnGrid(v, scale)
    ensures Above(Print(v, scale), "1." + Zeros(scale)) <==> v > 1.0
  {
    var p := Pow10(scale);
    var (q, r) := Parts(v, p);
    UnitsAboveOne(v, p);
    PartsAreUnits(v, p);
    AboveOnce(q, r, p);
    TextAboveOne(q, r, scale);
    assert Print(v, scale) == Digits(q) + ("." + Padded(r, scale));
  }

  /** The sheet rejects a rate by comparing text; for accepted rates that is comparing values. */
  lemma SheetRateLimit(raw: string, scale: nat)
    requires scale >= 1 && ParseDecimal(raw, scale).Some? && ParseDecimal(raw, scale).value >= 0.0
    ensures Above(Print(ParseDecimal(raw, scale).value, scale), "1." + Zeros(scale)) <==>
              ParseDecimal(raw, scale).value > 1.0
  {
    ParsedOnGrid(raw, scale);
    RateLimit(ParseDecimal(raw, scale).value, scale);
  }

  /** At the sheet's scale of ten the limit is the text the source compares with. */
  lemma LimitText()
    ensures "1." + Zeros(10) == "1.0000000000"
  {
    assert Zeros(5) == "00000";
    assert Zeros(6) == "000000";
    assert Zeros(7) == "0000000";
    assert Zeros(8) == "00000000";
    assert Zeros(9) == "000000000";
  }
}
