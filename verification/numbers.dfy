/** The JavaScript number operations the medical pipeline leans on: `parseFloat`
    of a range bound or a captured value, the `<`/`>` comparisons (false when
    either side is NaN) and `${value}` interpolation. Numbers are exact
    decimals `units / 10^places`; binary rounding and exponent notation are
    not part of this model. */
module Numbers {
  import opened Text

  datatype Number = NaN | Dec(units: int, places: nat)

  function Pow10(n: nat): (r: nat)
    ensures r >= 1
  {
    if n == 0 then 1 else 10 * Pow10(n - 1)
  }

  /** JavaScript `a < b`: false as soon as either operand is NaN. */
  predicate Less(a: Number, b: Number) {
    a.Dec? && b.Dec? && a.units * Pow10(b.places) < b.units * Pow10(a.places)
  }

  /** Both are numbers and denote the same rational value. */
  predicate SameValue(a: Number, b: Number) {
    a.Dec? && b.Dec? && a.units * Pow10(b.places) == b.units * Pow10(a.places)
  }

  /** `a` shifted left by `k` decimal places. */
  function Scale(a: nat, k: nat): nat {
    a * Pow10(k)
  }

  /** Euclidean division by a positive divisor, spelled out for the solver. */
  lemma DivMod(u: nat, d: nat)
    requires d >= 1
    ensures u / d >= 0 && 0 <= u % d < d && (u / d) * d + u % d == u
  {
  }

  /** A decimal with no trailing zero in its fraction. */
  predicate Canonical(n: Number) {
    n.Dec? && (n.places == 0 || n.units % 10 != 0)
  }

  /** The same value with trailing fractional zeros dropped. */
  function Normalize(n: Number): (m: Number)
    requires n.Dec?
    ensures Canonical(m) && SameValue(m, n)
    decreases n.places
  {
    if n.places > 0 && n.units % 10 == 0 then
      var m := Normalize(Dec(n.units / 10, n.places - 1));
      assert n.units == (n.units / 10) * 10;
      m
    else n
  }

  // ---------------------------------------------------------------- parsing

  /** The longest run of digits at the front of `s`. */
  function DigitPrefix(s: string): (r: string)
    ensures |r| <= |s| && r == s[..|r|] && AllDigits(r)
    ensures |r| == |s| || !IsDigit(s[|r|])
    decreases |s|
  {
    if |s| > 0 && IsDigit(s[0]) then [s[0]] + DigitPrefix(s[1..]) else []
  }

  /** The text after leading white space and an optional sign. */
  function Unsigned(s: string): string {
    var t := TrimStart(s);
    if |t| > 0 && (t[0] == '-' || t[0] == '+') then t[1..] else t
  }

  predicate Negated(s: string) {
    var t := TrimStart(s);
    |t| > 0 && t[0] == '-'
  }

  /** The text begins with a decimal numeral: a digit, or a point followed by one. */
  predicate StartsNumeral(t: string) {
    |t| > 0 && (IsDigit(t[0]) || (|t| > 1 && t[0] == '.' && IsDigit(t[1])))
  }

  /** The integer digits and the fraction digits at the front of `body`. */
  function Numeral(body: string): (p: (string, string))
    ensures AllDigits(p.0) && AllDigits(p.1)
    ensures p.0 == [] && p.1 == [] <==> !StartsNumeral(body)
  {
    var whole := DigitPrefix(body);
    var rest := body[|whole|..];
    (whole, if |rest| > 0 && rest[0] == '.' then DigitPrefix(rest[1..]) else [])
  }

  /** The number written by a sign and the two digit runs; NaN when both runs are empty. */
  function NumeralValue(negative: bool, whole: string, fraction: string): (n: Number)
    requires AllDigits(whole) && AllDigits(fraction)
    ensures n.NaN? <==> whole == [] && fraction == []
    ensures n.Dec? ==> n.places == |fraction| && (n.units < 0 ==> negative)
  {
    if whole == [] && fraction == [] then NaN
    else
      var magnitude := Scale(ParseNat(whole), |fraction|) + ParseNat(fraction);
      Dec(if negative then -magnitude else magnitude, |fraction|)
  }

  /** JavaScript `parseFloat`: leading white space is skipped, then the longest
      prefix of the form [sign] digits [. digits] is read; without a single
      digit the result is NaN. An exponent and `Infinity` are not read. */
  function ParseFloat(s: string): (n: Number)
    ensures n.NaN? <==> !StartsNumeral(Unsigned(s))
    ensures n.Dec? && n.units < 0 ==> Negated(s)
  {
    var p := Numeral(Unsigned(s));
    NumeralValue(Negated(s), p.0, p.1)
  }

  // -------------------------------------------------------------- rendering

  function Zeros(k: nat): (z: string)
    ensures |z| == k && AllDigits(z)
  {
    if k == 0 then [] else "0" + Zeros(k - 1)
  }

  /** `digits` left-padded with zeros to width `w`. */
  function PadLeft(digits: string, w: nat): (r: string)
    ensures |r| == if |digits| < w then w else |digits|
  {
    if |digits| < w then Zeros(w - |digits|) + digits else digits
  }

  /** A non-negative canonical decimal as digits, a point and exactly `places` fraction digits. */
  function RenderMagnitude(u: nat, places: nat): string {
    if places == 0 then NatToString(u)
    else
      var P := Pow10(places);
      DivMod(u, P);
      NatToString(u / P) + "." + PadLeft(NatToString(u % P), places)
  }

  /** `${n}` for a number that JavaScript prints without an exponent. */
  function Render(n: Number): (s: string)
    ensures n.NaN? ==> s == "NaN"
    ensures n.Dec? ==> |s| > 0 && (s[0] == '-' <==> Normalize(n).units < 0)
  {
    match n
    case NaN => "NaN"
    case Dec(_, _) =>
      var m := Normalize(n);
      if m.units < 0 then "-" + RenderMagnitude(-m.units, m.places)
      else RenderMagnitude(m.units, m.places)
  }

  // --------------------------------------------------------------- lemmas

  lemma TrimStartKeeps(s: string)
    requires s == [] || !IsWhitespace(s[0])
    ensures TrimStart(s) == s
  {
  }

  lemma {:induction false} DigitPrefixAppend(a: string, b: string)
    requires AllDigits(a)
    requires b == [] || !IsDigit(b[0])
    ensures DigitPrefix(a + b) == a
    decreases |a|
  {
    if a != [] {
      assert (a + b)[1..] == a[1..] + b;
      DigitPrefixAppend(a[1..], b);
    } else {
      assert a + b == b;
    }
  }

  lemma {:induction false} ParseNatZeros(k: nat)
    ensures ParseNat(Zeros(k)) == 0
    decreases k
  {
    if k > 0 {
      assert Zeros(k)[..k - 1] == Zeros(k - 1) by {
        ZerosSplit(k);
      }
      ParseNatZeros(k - 1);
    }
  }

  lemma {:induction false} ZerosSplit(k: nat)
    requires k > 0
    ensures Zeros(k) == Zeros(k - 1) + "0"
    decreases k
  {
    if k > 1 {
      ZerosSplit(k - 1);
      assert Zeros(k) == "0" + (Zeros(k - 2) + "0");
    }
  }

  /** Leading zeros do not change the value of a digit string. */
  lemma {:induction false} ParseNatLeadingZeros(k: nat, s: string)
    requires AllDigits(s)
    ensures ParseNat(Zeros(k) + s) == ParseNat(s)
    decreases |s|
  {
    if s == [] {
      assert Zeros(k) + s == Zeros(k);
      ParseNatZeros(k);
    } else {
      var t := Zeros(k) + s;
      assert t[..|t| - 1] == Zeros(k) + s[..|s| - 1];
      ParseNatLeadingZeros(k, s[..|s| - 1]);
    }
  }

  /** A number below 10^k takes at most k digits. */
  lemma {:induction false} NatToStringLength(n: nat, k: nat)
    requires k >= 1 && n < Pow10(k)
    ensures |NatToString(n)| <= k
    decreases k
  {
    if n >= 10 {
      NatToStringLength(n / 10, k - 1);
    }
  }

  /** The digit runs of a rendered magnitude are the ones it was built from. */
  lemma NumeralOfDigits(w: string, F: string)
    requires AllDigits(w) && |w| > 0 && AllDigits(F)
    ensures Numeral(w) == (w, [])
    ensures Numeral(w + "." + F) == (w, F)
  {
    assert w == w + [];
    DigitPrefixAppend(w, []);
    var s := w + "." + F;
    assert s == w + ("." + F);
    DigitPrefixAppend(w, "." + F);
    assert s[|w|..] == "." + F;
    assert ("." + F)[1..] == F + [];
    DigitPrefixAppend(F, []);
  }

  /** Quotient and remainder by a power of ten put the number back together. */
  lemma ScaleDivMod(u: nat, places: nat)
    ensures u / Pow10(places) >= 0 && u % Pow10(places) >= 0
    ensures Scale(u / Pow10(places), places) + u % Pow10(places) == u
  {
    DivMod(u, Pow10(places));
  }

  /** A remainder below 10^places pads to exactly `places` digits that read back as itself. */
  lemma FractionDigits(v: nat, places: nat)
    requires places >= 1 && v < Pow10(places)
    ensures var F := PadLeft(NatToString(v), places);
      |F| == places && AllDigits(F) && ParseNat(F) == v
  {
    var f := NatToString(v);
    NatToStringLength(v, places);
    ParseNatToString(v);
    if |f| < places {
      var z := Zeros(places - |f|);
      assert PadLeft(f, places) == z + f;
      assert AllDigits(z + f);
      ParseNatLeadingZeros(places - |f|, f);
    } else {
      assert PadLeft(f, places) == f;
    }
  }

  /** Reading back the rendering of a non-negative magnitude. */
  lemma ParseRenderMagnitude(u: nat, places: nat)
    ensures var s := RenderMagnitude(u, places);
      |s| > 0 && IsDigit(s[0]) && ParseFloat(s) == Dec(u, places)
  {
    var s := RenderMagnitude(u, places);
    if places == 0 {
      var w := NatToString(u);
      ParseNatToString(u);
      assert s == w;
      UnsignedDigits(s);
      NumeralOfDigits(w, []);
      assert ParseFloat(s) == NumeralValue(false, w, []);
      assert Scale(u, 0) == u;
    } else {
      var P := Pow10(places);
      ScaleDivMod(u, places);
      var w := NatToString(u / P);
      ParseNatToString(u / P);
      var F := PadLeft(NatToString(u % P), places);
      FractionDigits(u % P, places);
      assert s == w + "." + F;
      UnsignedDigits(s);
      NumeralOfDigits(w, F);
      assert ParseFloat(s) == NumeralValue(false, w, F);
    }
  }

  /** A string that starts with a digit has no white space or sign to skip. */
  lemma UnsignedDigits(r: string)
    requires |r| > 0 && IsDigit(r[0])
    ensures Unsigned(r) == r && !Negated(r)
  {
    assert !IsWhitespace(r[0]);
    TrimStartKeeps(r);
  }

  /** A leading minus sign is skipped and remembered. */
  lemma UnsignedMinus(r: string)
    ensures Unsigned("-" + r) == r && Negated("-" + r)
  {
    var s := "-" + r;
    assert !IsWhitespace(s[0]);
    TrimStartKeeps(s);
    assert s[1..] == r;
  }

  /** A minus sign in front of a numeral negates what `parseFloat` reads. */
  lemma ParseMinus(r: string)
    requires |r| > 0 && IsDigit(r[0])
    ensures ParseFloat(r).Dec? && ParseFloat("-" + r) == Dec(-ParseFloat(r).units, ParseFloat(r).places)
  {
    UnsignedDigits(r);
    UnsignedMinus(r);
    var p := Numeral(r);
    assert ParseFloat(r) == NumeralValue(false, p.0, p.1);
    assert ParseFloat("-" + r) == NumeralValue(true, p.0, p.1);
  }

  /** `parseFloat` reads back exactly what interpolation wrote, in lowest terms. */
  lemma ParseRender(n: Number)
    requires n.Dec?
    ensures ParseFloat(Render(n)) == Normalize(n)
  {
    var m := Normalize(n);
    if m.units < 0 {
      var r := RenderMagnitude(-m.units, m.places);
      assert Render(n) == "-" + r;
      ParseRenderMagnitude(-m.units, m.places);
      ParseMinus(r);
    } else {
      assert Render(n) == RenderMagnitude(m.units, m.places);
      ParseRenderMagnitude(m.units, m.places);
    }
  }

  /** Cancelling a positive common factor. */
  lemma CancelFactor(x: int, y: int, k: int)
    requires k > 0 && x * k == y * k
    ensures x == y
  {
  }

  /** Denoting the same value is transitive. */
  lemma SameValueTransitive(a: Number, m: Number, b: Number)
    requires SameValue(a, m) && SameValue(m, b)
    ensures SameValue(a, b)
  {
    var pa, pb, pm := Pow10(a.places), Pow10(b.places), Pow10(m.places);
    calc {
      (a.units * pb) * pm;
      (a.units * pm) * pb;
      (m.units * pa) * pb;
      (m.units * pb) * pa;
      (b.units * pm) * pa;
      (b.units * pa) * pm;
    }
    CancelFactor(a.units * pb, b.units * pa, pm);
  }

  /** Two numbers that print the same are the same value. */
  lemma RenderInjective(a: Number, b: Number)
    requires a.Dec? && b.Dec? && Render(a) == Render(b)
    ensures SameValue(a, b)
  {
    ParseRender(a);
    ParseRender(b);
    var m := Normalize(a);
    assert SameValue(a, m);
    SameValueTransitive(a, m, b);
  }
}
