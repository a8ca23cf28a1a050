/**
 * Exact decimal money arithmetic: the string parser and printer over integer
 * minor units, and currency conversion with a truncated quotient.
 */
module Decimal {
  import opened Folds

  datatype Parsed = Units(value: int) | Invalid

  // ---------- Digit strings ----------

  predicate IsDigit(c: char) { '0' <= c <= '9' }

  predicate AllDigits(s: string) { forall i :: 0 <= i < |s| ==> IsDigit(s[i]) }

  function DigitValue(c: char): (d: nat)
    requires IsDigit(c)
    ensures d < 10
  {
    c as int - '0' as int
  }

  function DigitChar(d: nat): (c: char)
    requires d < 10
    ensures IsDigit(c) && DigitValue(c) == d
  {
    (d + '0' as int) as char
  }

  /** The number a digit string denotes, leading zeros allowed; 0 for the empty string. */
  function DigitsValue(s: string): nat
    requires AllDigits(s)
  {
    if s == "" then 0 else 10 * DigitsValue(s[..|s| - 1]) + DigitValue(s[|s| - 1])
  }

  /** Decimal text of a natural number, no leading zeros. */
  function NatText(n: nat): (s: string)
    ensures s != "" && AllDigits(s)
    ensures |s| > 1 ==> s[0] != '0'
    ensures n == 0 ==> s == "0"
    ensures n > 0 ==> s[0] != '0'
    decreases n
  {
    if n < 10 then [DigitChar(n)] else NatText(n / 10) + [DigitChar(n % 10)]
  }

  function Zeros(n: nat): (s: string)
    ensures |s| == n && AllDigits(s) && forall i :: 0 <= i < n ==> s[i] == '0'
  {
    seq(n, i => '0')
  }

  function PadStart(s: string, width: nat): string {
    if |s| < width then Zeros(width - |s|) + s else s
  }

  function Pow10(n: nat): (p: nat)
    ensures p > 0
  {
    if n == 0 then 1 else 10 * Pow10(n - 1)
  }

  // ---------- Parsing and printing ----------

  /** White space and line terminators, as String.prototype.trim removes them. */
  predicate IsSpace(c: char) {
    || c in "\t\n\r \U{000B}\U{000C}\U{00A0}\U{1680}\U{202F}\U{205F}\U{3000}\U{2028}\U{2029}\U{FEFF}"
    || '\U{2000}' <= c <= '\U{200A}'
  }

  function TrimStart(s: string): string {
    if s != "" && IsSpace(s[0]) then TrimStart(s[1..]) else s
  }

  function TrimEnd(s: string): string {
    if s != "" && IsSpace(s[|s| - 1]) then TrimEnd(s[..|s| - 1]) else s
  }

  function Trim(s: string): string { TrimEnd(TrimStart(s)) }

  /** Splits at every '.'; the result has at least one part. */
  function SplitDots(s: string): (parts: seq<string>)
    ensures |parts| >= 1
  {
    if s == "" then [""]
    else
      var rest := SplitDots(s[1..]);
      if s[0] == '.' then [""] + rest else [[s[0]] + rest[0]] + rest[1..]
  }

  function ToScaledUnits(value: string, decimals: nat): Parsed {
    var normalized := Trim(value);
    var negative := normalized != "" && normalized[0] == '-';
    var unsigned := if negative then normalized[1..] else normalized;
    var parts := SplitDots(unsigned);
    if |parts| > 2 then Invalid
    else
      var wholePart := parts[0];
      var fractionRaw := if |parts| == 2 then parts[1] else "";
      if wholePart == "" || !AllDigits(wholePart) || !AllDigits(fractionRaw) then Invalid
      else
        var fraction := (fractionRaw + Zeros(decimals))[..decimals];
        var units := DigitsValue(wholePart) * Pow10(decimals) + DigitsValue(fraction);
        Units(if negative then -units else units)
  }

  function ToMinorUnits(value: string): Parsed { ToScaledUnits(value, 2) }

  function FromMinorUnits(value: int): string {
    var negative := value < 0;
    var magnitude: nat := if negative then -value else value;
    var whole := magnitude / 100;
    var fraction := magnitude % 100;
    var sign := if negative && (whole != 0 || fraction != 0) then "-" else "";
    sign + (NatText(whole) + ("." + PadStart(NatText(fraction), 2)))
  }

  /** Left fold; one malformed amount makes the whole sum fail. */
  function SumMinorUnits(values: seq<string>): Parsed {
    if values == [] then Units(0)
    else
      match (SumMinorUnits(values[..|values| - 1]), ToMinorUnits(values[|values| - 1]))
      case (Units(acc), Units(v)) => Units(acc + v)
      case _ => Invalid
  }

  datatype Printed = Text(text: string) | Failed

  function AddDecimal(a: string, b: string): Printed {
    match (ToMinorUnits(a), ToMinorUnits(b))
    case (Units(x), Units(y)) => Text(FromMinorUnits(x + y))
    case _ => Failed
  }

  function SubtractDecimal(a: string, b: string): Printed {
    match (ToMinorUnits(a), ToMinorUnits(b))
    case (Units(x), Units(y)) => Text(FromMinorUnits(x - y))
    case _ => Failed
  }

  /** -1, 0 or 1; both arguments must parse. */
  function CompareDecimal(a: string, b: string): int
    requires ToMinorUnits(a).Units? && ToMinorUnits(b).Units?
  {
    var diff := ToMinorUnits(a).value - ToMinorUnits(b).value;
    if diff == 0 then 0 else if diff > 0 then 1 else -1
  }

  // ---------- Reference meaning of a numeral ----------

  datatype Fraction = NoPoint | Point(digits: string)

  datatype Numeral = Numeral(negative: bool, whole: string, fraction: Fraction) {
    predicate WellFormed() {
      && whole != "" && AllDigits(whole)
      && (fraction.Point? ==> AllDigits(fraction.digits))
    }

    function FractionDigits(): string {
      if fraction.Point? then fraction.digits else ""
    }

    function Body(): string {
      if fraction.Point? then whole + ("." + fraction.digits) else whole
    }

    function Render(): string {
      if negative then "-" + Body() else Body()
    }

    /** All digits read as one integer; the numeral's magnitude is this over 10^|FractionDigits()|. */
    function Significand(): nat
      requires WellFormed()
    {
      DigitsValue(whole + FractionDigits())
    }

    /** The numeral times 10^decimals, truncated toward zero. */
    function Truncated(decimals: nat): int
      requires WellFormed()
    {
      var magnitude := Significand() * Pow10(decimals) / Pow10(|FractionDigits()|);
      if negative then -magnitude else magnitude
    }
  }

  /** Canonical money text: no needless sign or zeros, exactly two fraction digits. */
  predicate Canonical(n: Numeral) {
    && n.WellFormed()
    && n.fraction.Point? && |n.fraction.digits| == 2
    && (|n.whole| > 1 ==> n.whole[0] != '0')
    && (n.negative ==> n.whole != "0" || n.fraction.digits != "00")
  }

  // ---------- Digit arithmetic ----------

  lemma {:induction false} NatTextValue(n: nat)
    ensures DigitsValue(NatText(n)) == n
    decreases n
  {
    if n >= 10 {
      NatTextValue(n / 10);
      var s := NatText(n);
      assert s[..|s| - 1] == NatText(n / 10);
    } else {
      assert NatText(n)[..0] == "";
    }
  }

  lemma MulTen(x: int, p: int)
    ensures 10 * (x * p) == x * (10 * p)
  {
  }

  lemma TenTimes(x: int, p: int, y: int, d: int)
    ensures 10 * (x * p + y) + d == x * (10 * p) + (10 * y + d)
  {
    MulTen(x, p);
  }

  lemma {:induction false} DigitsValueConcat(a: string, b: string)
    requires AllDigits(a) && AllDigits(b)
    ensures AllDigits(a + b)
    ensures DigitsValue(a + b) == DigitsValue(a) * Pow10(|b|) + DigitsValue(b)
  {
    if b == "" {
      assert a + b == a;
    } else {
      var c := b[..|b| - 1];
      assert (a + b)[..|a + b| - 1] == a + c;
      DigitsValueConcat(a, c);
      TenTimes(DigitsValue(a), Pow10(|c|), DigitsValue(c), DigitValue(b[|b| - 1]));
    }
  }

  lemma {:induction false} DigitsValueBound(s: string)
    requires AllDigits(s)
    ensures DigitsValue(s) < Pow10(|s|)
  {
    if s != "" {
      DigitsValueBound(s[..|s| - 1]);
    }
  }

  lemma {:induction false} ZerosValue(n: nat)
    ensures DigitsValue(Zeros(n)) == 0
  {
    if n > 0 {
      assert Zeros(n)[..n - 1] == Zeros(n - 1);
      ZerosValue(n - 1);
    }
  }

  lemma {:induction false} Pow10Sum(a: nat, b: nat)
    ensures Pow10(a + b) == Pow10(a) * Pow10(b)
  {
    if a > 0 {
      Pow10Sum(a - 1, b);
      MulTen(Pow10(b), Pow10(a - 1));
    }
  }

  lemma Distribute(x: int, y: int, d: int)
    ensures (x + y) * d == x * d + y * d
  {
  }

  lemma NonNegativeProduct(x: int, y: int)
    requires x >= 0 && y >= 0
    ensures x * y >= 0
  {
  }

  lemma MulGap(a: int, b: int, d: int)
    requires a > b && d > 0
    ensures a * d >= b * d + d
  {
    Distribute(b + 1, a - b - 1, d);
    Distribute(b, 1, d);
    NonNegativeProduct(a - b - 1, d);
  }

  lemma DivisionUnique(d: int, q: int, r: int, q': int, r': int)
    requires d > 0 && 0 <= r < d && 0 <= r' < d && q * d + r == q' * d + r'
    ensures q == q'
  {
    if q > q' {
      MulGap(q, q', d);
    } else if q < q' {
      MulGap(q', q, d);
    }
  }

  lemma QuotientUnique(n: int, d: int, q: int, r: int)
    requires d > 0 && 0 <= r < d && n == q * d + r
    ensures n / d == q
  {
    DivisionUnique(d, q, r, n / d, n % d);
  }

  lemma MulAssoc(a: int, b: int, c: int)
    ensures (a * b) * c == a * (b * c)
  {
  }

  /** a * t over p is a * k when t is k * p. */
  lemma ExactQuotient(a: nat, k: nat, p: nat, t: nat)
    requires p > 0 && t == k * p
    ensures a * t / p == a * k
  {
    MulAssoc(a, k, p);
    QuotientUnique(a * t, p, a * k, 0);
  }

  lemma PaddedFraction(f: string, decimals: nat)
    requires AllDigits(f) && |f| <= decimals
    ensures DigitsValue(f + Zeros(decimals - |f|)) == DigitsValue(f) * Pow10(decimals) / Pow10(|f|)
  {
    hide DigitsValue;
    hide Pow10;
    var k := decimals - |f|;
    DigitsValueConcat(f, Zeros(k));
    ZerosValue(k);
    Pow10Sum(k, |f|);
    ExactQuotient(DigitsValue(f), Pow10(k), Pow10(|f|), Pow10(decimals));
  }

  /** (g * P + r) * D, with r < P, has quotient g by P * D. */
  lemma CutQuotient(g: nat, P: nat, r: nat, D: nat)
    requires r < P && D > 0
    ensures P * D > 0 && ((g * P + r) * D) / (P * D) == g
  {
    assert (g * P + r) * D == g * (P * D) + r * D by {
      MulAssoc(g, P, D);
    }
    assert (P - r) * D > 0;
    assert P * D == (P - r) * D + r * D;
    QuotientUnique((g * P + r) * D, P * D, g, r * D);
  }

  lemma CutFraction(g: string, rest: string)
    requires AllDigits(g) && AllDigits(rest)
    ensures AllDigits(g + rest)
    ensures DigitsValue(g) == DigitsValue(g + rest) * Pow10(|g|) / Pow10(|g + rest|)
  {
    DigitsValueConcat(g, rest);
    DigitsValueBound(rest);
    Pow10Sum(|rest|, |g|);
    CutQuotient(DigitsValue(g), Pow10(|rest|), DigitsValue(rest), Pow10(|g|));
  }

  /** Padding or cutting the fraction to `decimals` digits multiplies by 10^decimals and truncates. */
  lemma FixedFraction(f: string, decimals: nat)
    requires AllDigits(f)
    ensures var g := (f + Zeros(decimals))[..decimals];
      AllDigits(g) && DigitsValue(g) == DigitsValue(f) * Pow10(decimals) / Pow10(|f|)
  {
    hide DigitsValue;
    hide Pow10;
    var g := (f + Zeros(decimals))[..decimals];
    if |f| <= decimals {
      assert g == f + Zeros(decimals - |f|);
      PaddedFraction(f, decimals);
    } else {
      assert g == f[..decimals] && f == g + f[decimals..];
      CutFraction(g, f[decimals..]);
    }
  }

  /** Adding a whole number of multiples of the divisor adds to the quotient. */
  lemma AddMultiples(w: int, p: int, f: int, d: int)
    requires p > 0
    ensures (w * p + f) * d / p == w * d + f * d / p
  {
    var t := f * d;
    assert (w * p + f) * d == (w * d) * p + t by {
      MulAssoc(w, p, d);
      MulAssoc(w, d, p);
    }
    assert (w * d + t / p) * p == (w * d) * p + (t / p) * p;
    QuotientUnique((w * p + f) * d, p, w * d + t / p, t % p);
  }

  lemma TruncatedMagnitude(n: Numeral, decimals: nat)
    requires n.WellFormed()
    ensures var g := (n.FractionDigits() + Zeros(decimals))[..decimals];
      && AllDigits(g)
      && n.Significand() * Pow10(decimals) / Pow10(|n.FractionDigits()|)
         == DigitsValue(n.whole) * Pow10(decimals) + DigitsValue(g)
  {
    var f := n.FractionDigits();
    DigitsValueConcat(n.whole, f);
    FixedFraction(f, decimals);
    AddMultiples(DigitsValue(n.whole), Pow10(|f|), DigitsValue(f), Pow10(decimals));
  }

  // ---------- Text structure ----------

  predicate DotFree(s: string) { forall i :: 0 <= i < |s| ==> s[i] != '.' }

  lemma {:induction false} SplitAtDot(w: string, tail: string)
    requires DotFree(w)
    ensures SplitDots(w) == [w]
    ensures SplitDots(w + ("." + tail)) == [w] + SplitDots(tail)
  {
    var s := w + ("." + tail);
    if w == "" {
      assert s[1..] == tail;
    } else {
      assert s[1..] == w[1..] + ("." + tail);
      SplitAtDot(w[1..], tail);
      assert [w[0]] + w[1..] == w;
    }
  }

  /** The inverse: the parts, joined with dots, are the string. */
  lemma {:induction false} SplitJoins(s: string)
    ensures var parts := SplitDots(s);
      && (forall i :: 0 <= i < |parts| ==> DotFree(parts[i]))
      && (|parts| == 1 ==> s == parts[0])
      && (|parts| == 2 ==> s == parts[0] + ("." + parts[1]))
  {
    if s != "" {
      var rest := SplitDots(s[1..]);
      SplitJoins(s[1..]);
      assert s == [s[0]] + s[1..];
      if s[0] == '.' && |rest| == 1 {
        assert s == "" + ("." + rest[0]);
      } else if s[0] != '.' && |rest| == 2 {
        assert s == ([s[0]] + rest[0]) + ("." + rest[1]);
      }
    }
  }

  lemma TrimKeeps(s: string)
    requires s != "" && !IsSpace(s[0]) && !IsSpace(s[|s| - 1])
    ensures Trim(s) == s
  {
  }

  predicate NumeralChar(c: char) { IsDigit(c) || c == '.' || c == '-' }

  lemma NumeralCharNotSpace(c: char)
    requires NumeralChar(c)
    ensures !IsSpace(c)
  {
  }

  lemma RenderEdges(n: Numeral)
    requires n.WellFormed()
    ensures var s := n.Render();
      s != "" && NumeralChar(s[0]) && NumeralChar(s[|s| - 1])
  {
    var body := n.Body();
    assert IsDigit(n.whole[|n.whole| - 1]) && IsDigit(n.whole[0]);
    assert body[0] == n.whole[0];
    if n.fraction.Point? {
      var point := "." + n.fraction.digits;
      assert body[|body| - 1] == point[|point| - 1];
    }
    assert n.Render()[|n.Render()| - 1] == body[|body| - 1];
  }

  lemma RenderIsTrimmed(n: Numeral)
    requires n.WellFormed()
    ensures Trim(n.Render()) == n.Render()
  {
    var s := n.Render();
    RenderEdges(n);
    NumeralCharNotSpace(s[0]);
    NumeralCharNotSpace(s[|s| - 1]);
    TrimKeeps(s);
  }

  /** The code points of white space: tab to carriage return, the spaces, and the line and byte order marks. */
  lemma WhiteSpace(c: char)
    ensures var n := c as int;
      IsSpace(c) <==> 9 <= n <= 13 || n == 32 || n == 160 || n == 0x1680 || 0x2000 <= n <= 0x200A
                      || n in {0x2028, 0x2029, 0x202F, 0x205F, 0x3000, 0xFEFF}
  {
  }

  predicate AllSpace(s: string) { forall i :: 0 <= i < |s| ==> IsSpace(s[i]) }

  lemma {:induction false} TrimsStart(before: string, s: string)
    requires AllSpace(before)
    ensures TrimStart(before + s) == TrimStart(s)
  {
    if before == "" {
      assert before + s == s;
    } else {
      assert (before + s)[1..] == before[1..] + s;
      TrimsStart(before[1..], s);
    }
  }

  lemma {:induction false} TrimsEnd(s: string, after: string)
    requires AllSpace(after)
    ensures TrimEnd(s + after) == TrimEnd(s)
  {
    if after == "" {
      assert s + after == s;
    } else {
      var k := |after| - 1;
      assert (s + after)[..|s + after| - 1] == s + after[..k];
      TrimsEnd(s, after[..k]);
    }
  }

  /** White space around a numeral, however much, is ignored. */
  lemma SpaceIsIgnored(before: string, n: Numeral, after: string, decimals: nat)
    requires n.WellFormed() && AllSpace(before) && AllSpace(after)
    ensures ToScaledUnits(before + n.Render() + after, decimals) == Units(n.Truncated(decimals))
  {
    var s := n.Render();
    RenderEdges(n);
    NumeralCharNotSpace(s[0]);
    assert before + s + after == before + (s + after) && (s + after)[0] == s[0];
    TrimsStart(before, s + after);
    TrimsEnd(s, after);
    RenderIsTrimmed(n);
    ParseTruncates(before + s + after, n, decimals);
  }

  // ---------- Main results ----------

  lemma RenderParts(n: Numeral)
    requires n.WellFormed()
    ensures var s := n.Render();
      && s != "" && (s[0] == '-' <==> n.negative)
      && SplitDots(if n.negative then s[1..] else s)
         == if n.fraction.Point? then [n.whole, n.fraction.digits] else [n.whole]
  {
    var s := n.Render();
    assert IsDigit(n.whole[0]);
    SplitAtDot(n.whole, n.FractionDigits());
    assert (if n.negative then s[1..] else s) == n.Body();
    if n.fraction.Point? {
      SplitAtDot(n.fraction.digits, "");
    }
  }

  /** Every string that trims to a well-formed numeral is accepted, as the numeral truncated toward zero. */
  lemma ParseTruncates(value: string, n: Numeral, decimals: nat)
    requires n.WellFormed() && Trim(value) == n.Render()
    ensures ToScaledUnits(value, decimals) == Units(n.Truncated(decimals))
  {
    RenderParts(n);
    TruncatedMagnitude(n, decimals);
    var fraction := (n.FractionDigits() + Zeros(decimals))[..decimals];
    var units := DigitsValue(n.whole) * Pow10(decimals) + DigitsValue(fraction);
    assert ToScaledUnits(value, decimals) == Units(if n.negative then -units else units);
  }

  /** Nothing else is accepted. */
  lemma ParseAcceptsOnlyNumerals(value: string, decimals: nat) returns (n: Numeral)
    requires ToScaledUnits(value, decimals).Units?
    ensures n.WellFormed() && Trim(value) == n.Render()
  {
    var normalized := Trim(value);
    n := NumeralOf(normalized);
    RenderedNumeral(normalized);
  }

  /** The numeral that the parser reads off a trimmed text. */
  function NumeralOf(normalized: string): Numeral {
    var negative := normalized != "" && normalized[0] == '-';
    var parts := SplitDots(if negative then normalized[1..] else normalized);
    Numeral(negative, parts[0], if |parts| == 2 then Point(parts[1]) else NoPoint)
  }

  lemma RenderedNumeral(normalized: string)
    requires var negative := normalized != "" && normalized[0] == '-';
      |SplitDots(if negative then normalized[1..] else normalized)| <= 2
    ensures NumeralOf(normalized).Render() == normalized
  {
    var negative := normalized != "" && normalized[0] == '-';
    var unsigned := if negative then normalized[1..] else normalized;
    SplitJoins(unsigned);
    assert NumeralOf(normalized).Body() == unsigned;
    if negative {
      assert normalized == "-" + unsigned;
    }
  }

  /** The numeral that FromMinorUnits prints. */
  function PrintedNumeral(value: int): Numeral {
    var magnitude: nat := if value < 0 then -value else value;
    Numeral(value < 0, NatText(magnitude / 100), Point(PadStart(NatText(magnitude % 100), 2)))
  }

  lemma PadTwo(k: nat)
    requires k < 100
    ensures var p := PadStart(NatText(k), 2);
      |p| == 2 && AllDigits(p) && DigitsValue(p) == k
  {
    NatTextValue(k);
    var t := NatText(k);
    if k < 10 {
      assert |t| == 1;
      DigitsValueConcat(Zeros(1), t);
      ZerosValue(1);
    } else {
      assert t == NatText(k / 10) + [DigitChar(k % 10)];
    }
  }

  /** A two-digit numeral is worth its whole part in hundreds plus its fraction. */
  lemma TwoDigitValue(n: Numeral)
    requires n.WellFormed() && n.fraction.Point? && |n.fraction.digits| == 2
    ensures var units := DigitsValue(n.whole) * 100 + DigitsValue(n.fraction.digits);
      n.Truncated(2) == if n.negative then -units else units
  {
    TruncatedMagnitude(n, 2);
    assert (n.fraction.digits + Zeros(2))[..2] == n.fraction.digits;
    assert Pow10(2) == 100 by { assert Pow10(1) == 10; }
  }

  lemma PrintIsRender(value: int)
    ensures FromMinorUnits(value) == PrintedNumeral(value).Render()
  {
    var body := PrintedNumeral(value).Body();
    assert "" + body == body;
  }

  lemma PrintIsCanonical(value: int)
    ensures Canonical(PrintedNumeral(value))
    ensures PrintedNumeral(value).Truncated(2) == value
  {
    var magnitude: nat := if value < 0 then -value else value;
    PadTwo(magnitude % 100);
    NatTextValue(magnitude / 100);
    TwoDigitValue(PrintedNumeral(value));
  }

  /** Printing then parsing returns every integer. */
  lemma RoundTrip(value: int)
    ensures ToMinorUnits(FromMinorUnits(value)) == Units(value)
  {
    PrintIsCanonical(value);
    PrintIsRender(value);
    var n := PrintedNumeral(value);
    RenderIsTrimmed(n);
    ParseTruncates(FromMinorUnits(value), n, 2);
  }

  /** Two canonical numerals of the same value are the same text. */
  lemma CanonicalUnique(a: Numeral, b: Numeral)
    requires Canonical(a) && Canonical(b) && a.Truncated(2) == b.Truncated(2)
    ensures a == b
  {
    CanonicalParts(a);
    CanonicalParts(b);
    var wa, wb := DigitsValue(a.whole), DigitsValue(b.whole);
    var fa, fb := DigitsValue(a.fraction.digits), DigitsValue(b.fraction.digits);
    assert wa * 100 + fa == wb * 100 + fb;
    assert wa == wb && fa == fb;
    SameDigits(a.whole, b.whole);
    SameLength(a.fraction.digits, b.fraction.digits);
  }

  lemma CanonicalParts(n: Numeral)
    requires Canonical(n)
    ensures var w, f := DigitsValue(n.whole), DigitsValue(n.fraction.digits);
      && f < 100
      && n.Truncated(2) == (if n.negative then -(w * 100 + f) else w * 100 + f)
      && (n.negative ==> w * 100 + f > 0)
  {
    TwoDigitValue(n);
    assert Pow10(2) == 100 by { assert Pow10(1) == 10; }
    DigitsValueBound(n.fraction.digits);
    if n.negative && DigitsValue(n.whole) == 0 {
      if |n.whole| > 1 {
        LeadingDigit(n.whole);
      }
      assert n.whole == "0" by { SameLength(n.whole, "0"); }
      if DigitsValue(n.fraction.digits) == 0 {
        ZerosValue(2);
        SameLength(n.fraction.digits, Zeros(2));
      }
    }
  }

  /** A string with a nonzero leading digit is worth at least its top power of ten. */
  lemma {:induction false} LeadingDigit(s: string)
    requires s != "" && AllDigits(s) && s[0] != '0'
    ensures DigitsValue(s) >= Pow10(|s| - 1)
  {
    if |s| > 1 {
      LeadingDigit(s[..|s| - 1]);
    } else {
      assert s[..0] == "";
    }
  }

  lemma SameQuotient(x: nat, d: nat, y: nat, e: nat)
    requires d < 10 && e < 10 && 10 * x + d == 10 * y + e
    ensures x == y && d == e
  {
  }

  lemma LastDigit(s: string)
    requires s != "" && AllDigits(s)
    ensures DigitsValue(s) == 10 * DigitsValue(s[..|s| - 1]) + DigitValue(s[|s| - 1])
  {
  }

  lemma SameDigit(c: char, d: char)
    requires IsDigit(c) && IsDigit(d) && DigitValue(c) == DigitValue(d)
    ensures c == d
  {
  }

  lemma {:induction false} SameLength(a: string, b: string)
    requires AllDigits(a) && AllDigits(b) && |a| == |b| && DigitsValue(a) == DigitsValue(b)
    ensures a == b
  {
    hide DigitsValue;
    hide DigitValue;
    if a != "" {
      var k := |a| - 1;
      LastDigit(a);
      LastDigit(b);
      SameQuotient(DigitsValue(a[..k]), DigitValue(a[k]), DigitsValue(b[..k]), DigitValue(b[k]));
      SameLength(a[..k], b[..k]);
      SameDigit(a[k], b[k]);
      assert a == a[..k] + [a[k]] && b == b[..k] + [b[k]];
    }
  }

  lemma SameDigits(a: string, b: string)
    requires a != "" && b != "" && AllDigits(a) && AllDigits(b)
    requires |a| > 1 ==> a[0] != '0'
    requires |b| > 1 ==> b[0] != '0'
    requires DigitsValue(a) == DigitsValue(b)
    ensures a == b
  {
    if |a| == |b| {
      SameLength(a, b);
    } else if |a| < |b| {
      LongerIsLarger(a, b);
    } else {
      LongerIsLarger(b, a);
    }
  }

  lemma LongerIsLarger(a: string, b: string)
    requires AllDigits(a) && AllDigits(b) && a != "" && |a| < |b| && b[0] != '0'
    ensures DigitsValue(a) < DigitsValue(b)
  {
    DigitsValueBound(a);
    LeadingDigit(b);
    Pow10Sum(|a|, |b| - 1 - |a|);
    var k := Pow10(|b| - 1 - |a|);
    Distribute(1, k - 1, Pow10(|a|));
    NonNegativeProduct(k - 1, Pow10(|a|));
  }

  /** Re-printing any accepted string gives the one canonical text of its two-digit truncation. */
  lemma ReprintCanonical(value: string, n: Numeral, c: Numeral)
    requires n.WellFormed() && Trim(value) == n.Render()
    requires Canonical(c)
    ensures ToMinorUnits(value).Units?
    ensures FromMinorUnits(ToMinorUnits(value).value) == c.Render() <==> c.Truncated(2) == n.Truncated(2)
  {
    ParseTruncates(value, n, 2);
    var units := n.Truncated(2);
    PrintIsCanonical(units);
    PrintIsRender(units);
    if c.Truncated(2) == units {
      CanonicalUnique(c, PrintedNumeral(units));
    }
    if FromMinorUnits(units) == c.Render() {
      RenderIsTrimmed(c);
      RoundTrip(units);
      ParseTruncates(c.Render(), c, 2);
    }
  }

  lemma OperationsOnUnits(a: string, b: string, x: int, y: int)
    requires ToMinorUnits(a) == Units(x) && ToMinorUnits(b) == Units(y)
    ensures AddDecimal(a, b) == Text(FromMinorUnits(x + y)) && SubtractDecimal(a, b) == Text(FromMinorUnits(x - y))
    ensures CompareDecimal(a, b) == if x < y then -1 else if x == y then 0 else 1
  {
    hide ToMinorUnits;
    hide FromMinorUnits;
  }

  /** For any accepted operands, canonical or not, the printed sum and difference re-parse exactly. */
  lemma ArithmeticExact(a: string, b: string)
    requires ToMinorUnits(a).Units? && ToMinorUnits(b).Units?
    ensures var x, y := ToMinorUnits(a).value, ToMinorUnits(b).value;
      && AddDecimal(a, b) == Text(FromMinorUnits(x + y))
      && ToMinorUnits(FromMinorUnits(x + y)) == Units(x + y)
      && SubtractDecimal(a, b) == Text(FromMinorUnits(x - y))
      && ToMinorUnits(FromMinorUnits(x - y)) == Units(x - y)
      && CompareDecimal(a, b) == if x < y then -1 else if x == y then 0 else 1
  {
    hide *;
    var x, y := ToMinorUnits(a).value, ToMinorUnits(b).value;
    OperationsOnUnits(a, b, x, y);
    RoundTrip(x + y);
    RoundTrip(x - y);
  }

  predicate AllAccepted(values: seq<string>) { forall i :: 0 <= i < |values| ==> ToMinorUnits(values[i]).Units? }

  /** The integer sum of amounts that are all accepted. */
  function Total(values: seq<string>): int
    requires AllAccepted(values)
  {
    if values == [] then 0 else Total(values[..|values| - 1]) + ToMinorUnits(values[|values| - 1]).value
  }

  lemma AcceptedSplit(init: seq<string>, last: string)
    ensures AllAccepted(init + [last]) <==> AllAccepted(init) && ToMinorUnits(last).Units?
  {
    hide ToMinorUnits;
    var values := init + [last];
    assert values[|init|] == last;
    if AllAccepted(values) {
      forall i | 0 <= i < |init| ensures ToMinorUnits(init[i]).Units? {
        assert values[i] == init[i];
      }
    }
  }

  /** A sum fails exactly when one of the texts is no amount; otherwise it is the integer sum, with no drift. */
  lemma {:induction false} SumExact(values: seq<string>)
    ensures SumMinorUnits(values) == if AllAccepted(values) then Units(Total(values)) else Invalid
  {
    hide ToMinorUnits;
    if values != [] {
      var init, last := values[..|values| - 1], values[|values| - 1];
      SumExact(init);
      AcceptedSplit(init, last);
      assert values == init + [last];
    }
  }

  // ---------- Conversion ----------

  const RATE_SCALE := 1_000_000

  /** BigInt division: the quotient truncated toward zero. */
  function DivTrunc(n: int, d: int): int
    requires d > 0
  {
    if n >= 0 then n / d else -((-n) / d)
  }

  /** A money amount in minor units at a rate in millionths. */
  function Convert(amount: int, rate: int): int {
    if amount == 0 then 0 else DivTrunc(amount * rate, RATE_SCALE)
  }

  function ConvertWithRate(amount: string, rate: string): Printed {
    match ToMinorUnits(amount)
    case Invalid => Failed
    case Units(a) =>
      if a == 0 then Text("0.00")
      else
        match ToScaledUnits(rate, 6)
        case Invalid => Failed
        case Units(r) => Text(FromMinorUnits(DivTrunc(a * r, RATE_SCALE)))
  }

  /** The text conversion is the integer conversion; an unparsable rate only matters for a nonzero amount. */
  lemma ConvertText(amount: string, rate: string)
    ensures ConvertWithRate(amount, rate).Text? <==>
            ToMinorUnits(amount).Units? && (ToMinorUnits(amount).value == 0 || ToScaledUnits(rate, 6).Units?)
    ensures ToMinorUnits(amount).Units? && ToScaledUnits(rate, 6).Units? ==>
            ConvertWithRate(amount, rate)
            == Text(FromMinorUnits(Convert(ToMinorUnits(amount).value, ToScaledUnits(rate, 6).value)))
  {
    assert NatText(0) == "0";
    assert PadStart("0", 2) == Zeros(1) + "0" == "00";
    assert FromMinorUnits(0) == "0.00";
  }

  /** Conversion is odd, never overshoots the exact product and misses it by less than one minor unit. */
  lemma ConvertError(amount: int, rate: int)
    ensures Convert(-amount, rate) == -Convert(amount, rate)
    ensures amount * rate >= 0 ==> 0 <= amount * rate - Convert(amount, rate) * RATE_SCALE < RATE_SCALE
    ensures amount * rate <= 0 ==> -RATE_SCALE < amount * rate - Convert(amount, rate) * RATE_SCALE <= 0
  {
    assert (-amount) * rate == -(amount * rate);
  }
}
