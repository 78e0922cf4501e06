/** The local extractor used when no language model answers: reference ranges
    and the high/low/normal rule, the biomarker, medication and diagnosis
    tables, the synthesized recommendations and the summary line. The regular
    expressions themselves are not modelled: what they matched is the input. */
module Extraction {
  import opened Wrappers
  import opened Text
  import opened Seqs
  import opened Numbers
  import opened MedicalData

  // ------------------------------------------------------ reference ranges

  /** `s.split(sep)` for a one-character separator. */
  function Split(s: string, sep: char): (parts: seq<string>)
    ensures |parts| >= 1
    ensures forall i :: 0 <= i < |parts| ==> sep !in parts[i]
    decreases |s|
  {
    if s == [] then [""]
    else
      var rest := Split(s[1..], sep);
      if s[0] == sep then [""] + rest
      else [[s[0]] + rest[0]] + rest[1..]
  }

  /** Without the separator there is nothing to split. */
  lemma {:induction false} SplitNone(a: string, sep: char)
    requires sep !in a
    ensures Split(a, sep) == [a]
    decreases |a|
  {
    if a != [] {
      SplitNone(a[1..], sep);
      assert [a[0]] + a[1..] == a;
    }
  }

  /** One separator between two separator-free pieces splits into exactly those pieces. */
  lemma {:induction false} SplitOnce(a: string, sep: char, b: string)
    requires sep !in a && sep !in b
    ensures Split(a + [sep] + b, sep) == [a, b]
    decreases |a|
  {
    var s := a + [sep] + b;
    if a == [] {
      assert s[1..] == b;
      SplitNone(b, sep);
    } else {
      assert s[1..] == a[1..] + [sep] + b;
      SplitOnce(a[1..], sep, b);
      assert [a[0]] + a[1..] == a;
    }
  }

  /** `parseFloat(range.split('-')[0])`: without a dash the whole range is read. */
  function LowerBound(range: string): (n: Number)
    ensures '-' !in range ==> n == ParseFloat(range)
  {
    assert '-' !in range ==> Split(range, '-') == [range] by {
      if '-' !in range { SplitNone(range, '-'); }
    }
    ParseFloat(Split(range, '-')[0])
  }

  /** `parseFloat(range.split('-')[1] || range.split('<')[1])`: the second piece
      around a dash when it is non-empty, else the text after `<`, else NaN. */
  function UpperBound(range: string): (n: Number)
    ensures '-' !in range && '<' !in range ==> n.NaN?
  {
    var parts := Split(range, '-');
    assert '-' !in range && '<' !in range ==> parts == [range] && Split(range, '<') == [range] by {
      if '-' !in range && '<' !in range { SplitNone(range, '-'); SplitNone(range, '<'); }
    }
    if |parts| > 1 && parts[1] != "" then ParseFloat(parts[1])
    else
      var after := Split(range, '<');
      if |after| > 1 then ParseFloat(after[1]) else NaN
  }

  /** The status rule: low below the lower bound, otherwise high above the upper
      bound, otherwise normal; a NaN value is always normal. */
  function StatusOf(value: Number, range: string): (st: Status)
    ensures value.NaN? ==> st == Normal
    ensures st == Low ==> Less(value, LowerBound(range))
    ensures st == High ==> Less(UpperBound(range), value)
  {
    if Less(value, LowerBound(range)) then Low
    else if Less(UpperBound(range), value) then High
    else Normal
  }

  /** A reference range: `lo-hi` or `<hi`, written with non-negative canonical bounds. */
  datatype Bound = Span(lo: Number, hi: Number) | Under(hi: Number)

  predicate WellWritten(n: Number) {
    Canonical(n) && n.units >= 0
  }

  predicate ValidBound(b: Bound) {
    (b.Span? ==> WellWritten(b.lo)) && WellWritten(b.hi)
  }

  function BoundText(b: Bound): string
    requires ValidBound(b)
  {
    match b
    case Span(lo, hi) => Render(lo) + "-" + Render(hi)
    case Under(hi) => "<" + Render(hi)
  }

  lemma CanonicalFixed(n: Number)
    requires Canonical(n)
    ensures Normalize(n) == n
  {
  }

  lemma {:induction false} NoSignInDigits(s: string, c: char)
    requires AllDigits(s) && !IsDigit(c)
    ensures c !in s
  {
  }

  /** A non-negative rendering holds digits and at most a point: no dash, no `<`. */
  lemma RenderHasNoSeparator(n: Number)
    requires WellWritten(n)
    ensures '-' !in Render(n) && '<' !in Render(n)
    ensures |Render(n)| > 0 && IsDigit(Render(n)[0])
  {
    CanonicalFixed(n);
    ParseRenderMagnitude(n.units, n.places);
    var r := Render(n);
    assert r == RenderMagnitude(n.units, n.places);
    if n.places == 0 {
      NoSignInDigits(r, '-');
      NoSignInDigits(r, '<');
    } else {
      var P := Pow10(n.places);
      DivMod(n.units, P);
      var w := NatToString(n.units / P);
      var F := PadLeft(NatToString(n.units % P), n.places);
      FractionDigits(n.units % P, n.places);
      assert r == w + "." + F;
      NoSignInDigits(w, '-');
      NoSignInDigits(w, '<');
      NoSignInDigits(F, '-');
      NoSignInDigits(F, '<');
    }
  }

  /** Reading the bounds back out of `lo-hi`. */
  lemma SpanReadBack(lo: Number, hi: Number)
    requires WellWritten(lo) && WellWritten(hi)
    ensures LowerBound(Render(lo) + "-" + Render(hi)) == lo
    ensures UpperBound(Render(lo) + "-" + Render(hi)) == hi
  {
    RenderHasNoSeparator(lo);
    RenderHasNoSeparator(hi);
    CanonicalFixed(lo);
    CanonicalFixed(hi);
    ParseRender(lo);
    ParseRender(hi);
    SplitOnce(Render(lo), '-', Render(hi));
  }

  /** `<hi` has no dash, and `parseFloat` finds no number at its start. */
  lemma UnderHasNoLower(hi: Number)
    requires WellWritten(hi)
    ensures LowerBound("<" + Render(hi)).NaN?
  {
    RenderHasNoSeparator(hi);
    var t := "<" + Render(hi);
    assert '-' !in t;
    SplitNone(t, '-');
    TrimStartKeeps(t);
    assert Unsigned(t) == t;
  }

  /** Reading the bounds back out of `<hi`: no lower bound, the upper one as written. */
  lemma UnderReadBack(hi: Number)
    requires WellWritten(hi)
    ensures LowerBound("<" + Render(hi)).NaN?
    ensures UpperBound("<" + Render(hi)) == hi
  {
    UnderHasNoLower(hi);
    var r := Render(hi);
    var t := "<" + r;
    RenderHasNoSeparator(hi);
    UnderPieces(r);
    assert UpperBound(t) == ParseFloat(r);
    CanonicalFixed(hi);
    ParseRender(hi);
  }

  /** How `<hi` splits around a dash and around `<`. */
  lemma UnderPieces(r: string)
    requires '-' !in r && '<' !in r
    ensures Split("<" + r, '-') == ["<" + r]
    ensures Split("<" + r, '<') == ["", r]
  {
    var t := "<" + r;
    assert '-' !in t;
    SplitNone(t, '-');
    assert t == [] + ['<'] + r;
    SplitOnce([], '<', r);
  }

  /** Reading the bounds back out of a range text gives the bounds it was written from. */
  lemma BoundsReadBack(b: Bound)
    requires ValidBound(b)
    ensures b.Span? ==> LowerBound(BoundText(b)) == b.lo
    ensures b.Under? ==> LowerBound(BoundText(b)).NaN?
    ensures UpperBound(BoundText(b)) == b.hi
  {
    match b
    case Span(lo, hi) => SpanReadBack(lo, hi);
    case Under(hi) => UnderReadBack(hi);
  }

  /** For `lo-hi` the status is low iff below lo, high iff above hi; for `<hi`
      it is never low and high iff above hi. */
  lemma StatusRule(value: Number, b: Bound)
    requires ValidBound(b)
    ensures var st := StatusOf(value, BoundText(b));
      && (st == Low <==> b.Span? && Less(value, b.lo))
      && (st == High <==> !(b.Span? && Less(value, b.lo)) && Less(b.hi, value))
  {
    BoundsReadBack(b);
  }

  // ---------------------------------------------------------------- tables

  const BiomarkerNames: seq<string> := ["Hemoglobin", "Cholesterol", "Vitamin D", "Glucose", "Creatinine"]
  const BiomarkerUnits: seq<string> := ["g/dL", "mg/dL", "ng/mL", "mg/dL", "mg/dL"]
  const ReferenceRanges: seq<string> := ["12-16", "<200", "30-100", "70-100", "0.6-1.2"]

  /** The bounds the reference range texts are written from. */
  const ReferenceBounds: seq<Bound> := [
    Span(Dec(12, 0), Dec(16, 0)), Under(Dec(200, 0)), Span(Dec(30, 0), Dec(100, 0)),
    Span(Dec(70, 0), Dec(100, 0)), Span(Dec(6, 1), Dec(12, 1))]

  /** A whole number prints as its digits. */
  lemma RenderWhole(n: nat)
    ensures Render(Dec(n, 0)) == NatToString(n)
  {
    CanonicalFixed(Dec(n, 0));
  }

  /** A number with one decimal place prints as its whole part, a point and its tenths. */
  lemma RenderTenths(u: nat)
    requires u % 10 != 0
    ensures Render(Dec(u, 1)) == NatToString(u / 10) + "." + [DigitChar(u % 10)]
  {
    CanonicalFixed(Dec(u, 1));
    assert Pow10(1) == 10;
    assert NatToString(u % 10) == [DigitChar(u % 10)];
  }

  /** `lo-hi` with whole bounds prints its two numbers around a dash. */
  lemma WholeSpanText(lo: nat, hi: nat)
    ensures ValidBound(Span(Dec(lo, 0), Dec(hi, 0)))
    ensures BoundText(Span(Dec(lo, 0), Dec(hi, 0))) == NatToString(lo) + "-" + NatToString(hi)
  {
    RenderWhole(lo);
    RenderWhole(hi);
  }

  lemma HemoglobinRange()
    ensures ValidBound(ReferenceBounds[0]) && ReferenceRanges[0] == BoundText(ReferenceBounds[0])
  {
    WholeSpanText(12, 16);
    assert NatToString(12) == "12" by { assert NatToString(1) == "1"; }
    assert NatToString(16) == "16" by { assert NatToString(1) == "1"; }
  }

  lemma CholesterolRange()
    ensures ValidBound(ReferenceBounds[1]) && ReferenceRanges[1] == BoundText(ReferenceBounds[1])
  {
    RenderWhole(200);
    assert NatToString(200) == "200" by {
      assert NatToString(2) == "2";
      assert NatToString(20) == "20";
    }
  }

  lemma VitaminDRange()
    ensures ValidBound(ReferenceBounds[2]) && ReferenceRanges[2] == BoundText(ReferenceBounds[2])
  {
    WholeSpanText(30, 100);
    assert NatToString(30) == "30" by { assert NatToString(3) == "3"; }
    assert NatToString(100) == "100" by { assert NatToString(10) == "10"; }
  }

  lemma GlucoseRange()
    ensures ValidBound(ReferenceBounds[3]) && ReferenceRanges[3] == BoundText(ReferenceBounds[3])
  {
    WholeSpanText(70, 100);
    assert NatToString(70) == "70" by { assert NatToString(7) == "7"; }
    assert NatToString(100) == "100" by { assert NatToString(10) == "10"; }
  }

  lemma CreatinineRange()
    ensures ValidBound(ReferenceBounds[4]) && ReferenceRanges[4] == BoundText(ReferenceBounds[4])
  {
    RenderTenths(6);
    RenderTenths(12);
  }

  /** Each range text is the rendering of its bound, so the status rule applies to it. */
  lemma ReferenceRangesWritten(i: nat)
    requires i < 5
    ensures ValidBound(ReferenceBounds[i]) && ReferenceRanges[i] == BoundText(ReferenceBounds[i])
  {
    if i == 0 {
      HemoglobinRange();
    } else if i == 1 {
      CholesterolRange();
    } else if i == 2 {
      VitaminDRange();
    } else if i == 3 {
      GlucoseRange();
    } else {
      CreatinineRange();
    }
  }

  /** The biomarker the `index`-th pattern reports for a value, judged against that pattern's range. */
  function BiomarkerAt(index: nat, value: Number): (b: Biomarker)
    requires index < 5
    ensures b.name == BiomarkerNames[index] && b.unit == BiomarkerUnits[index]
    ensures b.referenceRange == ReferenceRanges[index] && b.value == value
  {
    Biomarker(BiomarkerNames[index], value, BiomarkerUnits[index], ReferenceRanges[index],
              StatusOf(value, ReferenceRanges[index]))
  }

  /** The status rule on the table: below the lower bound is low, above the upper
      bound high, anything else (NaN included) normal; `<200` is never low. */
  lemma BiomarkerStatus(index: nat, value: Number)
    requires index < 5
    ensures var b := BiomarkerAt(index, value);
      var bound := ReferenceBounds[index];
      && (b.status == Low <==> bound.Span? && Less(value, bound.lo))
      && (b.status == High <==> !(bound.Span? && Less(value, bound.lo)) && Less(bound.hi, value))
      && (b.status == Normal <==> !(bound.Span? && Less(value, bound.lo)) && !Less(bound.hi, value))
  {
    ReferenceRangesWritten(index);
    StatusRule(value, ReferenceBounds[index]);
  }

  /** The patterns that matched, in pattern order, each with the value it read. */
  function Readings(values: seq<Option<Number>>, from: nat): (r: seq<(nat, Number)>)
    requires from <= |values|
    ensures forall i, v :: (i, v) in r <==> from <= i < |values| && values[i] == Some(v)
    ensures forall j, k :: 0 <= j < k < |r| ==> r[j].0 < r[k].0
    ensures forall j :: 0 <= j < |r| ==> from <= r[j].0 < |values|
    ensures |r| <= |values| - from
    decreases |values| - from
  {
    if from == |values| then []
    else
      var rest := Readings(values, from + 1);
      if values[from].Some? then [(from, values[from].value)] + rest else rest
  }

  /** One biomarker per pattern that matched, in pattern order, carrying that pattern's
      name, unit, range and value. */
  function Biomarkers(values: seq<Option<Number>>): (r: seq<Biomarker>)
    requires |values| <= 5
    ensures var rs := Readings(values, 0);
      |r| == |rs| && forall j :: 0 <= j < |r| ==> r[j] == BiomarkerAt(rs[j].0, rs[j].1)
  {
    var rs := Readings(values, 0);
    seq(|rs|, j requires 0 <= j < |rs| => BiomarkerAt(rs[j].0, rs[j].1))
  }

  // --------------------------------------------- extracted values (finding)

  /** As written: `parseFloat(matches[1])` on the array a global `match` returns,
      which is the SECOND whole match, or undefined when there is only one. */
  function MatchedValueAsWritten(matches: seq<string>): (n: Number)
    ensures AllStartWithLetter(matches) ==> n.NaN?
  {
    if |matches| > 1 then
      var m := matches[1];
      assert StartsWithLetter(m) ==> ParseFloat(m).NaN? by {
        if StartsWithLetter(m) { TrimStartKeeps(m); }
      }
      ParseFloat(m)
    else NaN
  }

  /** Every whole match of a biomarker pattern begins with the biomarker's name. */
  predicate StartsWithLetter(s: string) {
    |s| > 0 && (('a' <= s[0] <= 'z') || ('A' <= s[0] <= 'Z'))
  }

  predicate AllStartWithLetter(matches: seq<string>) {
    forall k :: 0 <= k < |matches| ==> StartsWithLetter(matches[k])
  }

  /** As written, a pattern that matched yields a reading, and since every whole
      match starts with the biomarker's name, that reading is NaN. */
  function ValuesAsWritten(matches: seq<seq<string>>): (values: seq<Option<Number>>)
    ensures |values| == |matches|
    ensures forall i :: 0 <= i < |matches| ==> (values[i].Some? <==> |matches[i]| > 0)
    ensures forall i :: 0 <= i < |matches| && values[i].Some? && AllStartWithLetter(matches[i]) ==> values[i].value.NaN?
  {
    seq(|matches|, i requires 0 <= i < |matches| =>
      if |matches[i]| > 0 then Some(MatchedValueAsWritten(matches[i])) else None)
  }

  /** The extractor as written can never read a number: every value is NaN, so every status is normal. */
  lemma AsWrittenValuesAreNaN(matches: seq<seq<string>>)
    requires |matches| == 5
    requires forall i, k :: 0 <= i < 5 && 0 <= k < |matches[i]| ==> StartsWithLetter(matches[i][k])
    ensures forall j :: 0 <= j < |Biomarkers(ValuesAsWritten(matches))| ==>
      Biomarkers(ValuesAsWritten(matches))[j].value.NaN? &&
      Biomarkers(ValuesAsWritten(matches))[j].status == Normal
  {
    var values := ValuesAsWritten(matches);
    var rs := Readings(values, 0);
    forall j | 0 <= j < |rs|
      ensures rs[j].1.NaN?
    {
      var i := rs[j].0;
      assert (i, rs[j].1) in rs;
      assert AllStartWithLetter(matches[i]);
    }
  }

  /** Hence, as written, the local record never advises on vitamin D or cholesterol:
      no reading can be judged low or high. */
  lemma AsWrittenAdviceMissing(matches: seq<seq<string>>, dosages: seq<Option<string>>, matched: seq<bool>, at: string)
    requires |matches| == 5 && |dosages| == 3 && |matched| == 4
    requires forall i, k :: 0 <= i < 5 && 0 <= k < |matches[i]| ==> StartsWithLetter(matches[i][k])
    ensures var r := LocalExtraction(ValuesAsWritten(matches), dosages, matched, at);
      TakeVitaminD !in r.recommendations && CholesterolMedication !in r.recommendations
  {
    AsWrittenValuesAreNaN(matches);
    var bs := Biomarkers(ValuesAsWritten(matches));
    assert !SomeLowVitaminD(bs) && !SomeHighCholesterol(bs) by {
      forall i | 0 <= i < |bs| ensures bs[i].status == Normal { }
    }
  }

  /** Five pattern slots, all empty but one. */
  function Only<T>(index: nat, x: T, empty: T): (r: seq<T>)
    ensures |r| == 5
  {
    seq(5, i => if i == index then x else empty)
  }

  /** With a single pattern matched, the list is that pattern's one reading. */
  lemma SingleReading(values: seq<Option<Number>>, index: nat)
    requires |values| == 5 && index < 5 && values[index].Some?
    requires forall i :: 0 <= i < 5 && i != index ==> values[i].None?
    ensures Biomarkers(values) == [BiomarkerAt(index, values[index].value)]
  {
    var rs := Readings(values, 0);
    assert (index, values[index].value) in rs;
    forall j | 0 <= j < |rs| ensures rs[j] == (index, values[index].value) {
      assert (rs[j].0, rs[j].1) in rs;
    }
    assert |rs| > 1 ==> rs[0].0 < rs[1].0;
  }

  /** A pattern matched once: as written it reports a NaN reading, hence a normal one. */
  lemma SingleMatchReadsNaN(index: nat, m: string)
    requires index < 5 && StartsWithLetter(m)
    ensures Biomarkers(ValuesAsWritten(Only(index, [m], []))) == [BiomarkerAt(index, NaN)]
    ensures BiomarkerAt(index, NaN).status == Normal
  {
    var values := ValuesAsWritten(Only(index, [m], []));
    assert values[index] == Some(NaN);
    assert forall i :: 0 <= i < 5 && i != index ==> values[i].None?;
    SingleReading(values, index);
    BiomarkerStatus(index, NaN);
  }

  /** A report reading "Vitamin D: w ng/mL" with w below 30 (22, say): as written
      the deficiency goes unnoticed, the reading is judged normal. */
  lemma VitaminDDeficiencyMissed(w: nat)
    requires w < 30
    ensures var asWritten := Biomarkers(ValuesAsWritten(Only(2, ["Vitamin D: " + NatToString(w) + " ng/mL"], [])));
      |asWritten| == 1 && asWritten[0].status == Normal
  {
    var m := "Vitamin D: " + NatToString(w) + " ng/mL";
    assert m[0] == 'V';
    SingleMatchReadsNaN(2, m);
  }

  /** The same report, reading the captured number instead: the deficiency is judged low. */
  lemma VitaminDDeficiencyCaught(w: nat)
    requires w < 30
    ensures var corrected := Biomarkers(CapturedValues(Only(2, Some(NatToString(w)), None)));
      |corrected| == 1 && corrected[0].status == Low
  {
    RenderWhole(w);
    CapturedValueJudged(2, Dec(w, 0));
    BiomarkerStatus(2, Dec(w, 0));
  }

  /** Corrected: each pattern's value is `parseFloat` of its first match's captured number. */
  function CapturedValues(captures: seq<Option<string>>): (values: seq<Option<Number>>)
    ensures |values| == |captures|
    ensures forall i :: 0 <= i < |captures| ==> (values[i].Some? <==> captures[i].Some?)
  {
    seq(|captures|, i requires 0 <= i < |captures| =>
      if captures[i].Some? then Some(ParseFloat(captures[i].value)) else None)
  }

  /** With the captured number, a reading is judged by its range: a rendered value reads back. */
  lemma CapturedValueJudged(index: nat, v: Number)
    requires index < 5 && WellWritten(v)
    ensures Biomarkers(CapturedValues(Only(index, Some(Render(v)), None))) == [BiomarkerAt(index, v)]
  {
    CanonicalFixed(v);
    ParseRender(v);
    CapturedOnly(index, Render(v));
    var values := Only(index, Some(v), None);
    assert values[index] == Some(v);
    SingleReading(values, index);
  }

  /** A single capture is read by `parseFloat`, the other slots stay empty. */
  lemma CapturedOnly(index: nat, c: string)
    requires index < 5
    ensures CapturedValues(Only(index, Some(c), None)) == Only(index, Some(ParseFloat(c)), None)
  {
  }

  // ------------------------------------------------------------ medications

  const MedicationNames: seq<string> := ["Vitamin D3", "Metformin", "Atorvastatin"]

  /** The record a matched medication pattern `i` produces. */
  function Prescribed(i: nat, dosage: string): Medication
    requires i < |MedicationNames|
  {
    Medication(MedicationNames[i], dosage, "Daily", "As prescribed by doctor")
  }

  /** The position of a medication name in the pattern table. */
  function MedicationRank(name: string): nat {
    if name == MedicationNames[0] then 0
    else if name == MedicationNames[1] then 1
    else if name == MedicationNames[2] then 2
    else 3
  }

  /** One medication per pattern that matched, with the dosage text read for it,
      in pattern order, and nothing else. */
  function Medications(dosages: seq<Option<string>>, from: nat): (r: seq<Medication>)
    requires |dosages| <= 3 && from <= |dosages|
    ensures |r| <= |dosages| - from
    ensures forall i :: from <= i < |dosages| && dosages[i].Some? ==> Prescribed(i, dosages[i].value) in r
    // every entry is the record of a pattern that matched, with that pattern's dosage
    ensures forall j :: 0 <= j < |r| ==>
      var i := MedicationRank(r[j].name);
      from <= i < |dosages| && dosages[i] == Some(r[j].dosage) && r[j] == Prescribed(i, r[j].dosage)
    ensures forall j, k :: 0 <= j < k < |r| ==> MedicationRank(r[j].name) < MedicationRank(r[k].name)
    decreases |dosages| - from
  {
    if from == |dosages| then []
    else
      var rest := Medications(dosages, from + 1);
      if dosages[from].Some? then
        assert MedicationRank(MedicationNames[from]) == from;
        [Prescribed(from, dosages[from].value)] + rest
      else rest
  }

  /** The reminder to keep taking medications appears exactly when some medication pattern matched. */
  lemma MedicationAdviceIffMatched(bs: seq<Biomarker>, dosages: seq<Option<string>>)
    requires |dosages| <= 3
    ensures ContinueMedications in Recommendations(bs, Medications(dosages, 0))
      <==> exists i :: 0 <= i < |dosages| && dosages[i].Some?
  {
    var ms := Medications(dosages, 0);
    if |ms| > 0 {
      assert ms[0] in ms;
    }
  }

  // --------------------------------------------------- diagnoses (finding)

  const DiagnosisLabels: seq<string> := ["Vitamin D deficiency", "Hypercholesterolemia", "Diabetes"]

  /** As written: pattern `i` pushes label `i`, although pattern 0 is the generic
      "diagnosis: ..." pattern and the labels belong to patterns 1 to 3. */
  function DiagnosesAsWritten(matched: seq<bool>): (r: seq<string>)
    requires |matched| == 4
    ensures forall k :: 0 <= k < 3 ==> (DiagnosisLabels[k] in r <==> matched[k])
    ensures NoDuplicates(r) && forall j :: 0 <= j < |r| ==> r[j] in DiagnosisLabels
  {
    (if matched[0] then [DiagnosisLabels[0]] else [])
    + (if matched[1] then [DiagnosisLabels[1]] else [])
    + (if matched[2] then [DiagnosisLabels[2]] else [])
  }

  /** A report that only says "Vitamin D deficiency" is recorded as hypercholesterolemia,
      and one that only says "diabetic" records nothing. */
  lemma DiagnosisLabelsShifted()
    ensures DiagnosesAsWritten([false, true, false, false]) == ["Hypercholesterolemia"]
    ensures DiagnosesAsWritten([false, false, false, true]) == []
    ensures Diagnoses([false, true, false, false]) == ["Vitamin D deficiency"]
    ensures Diagnoses([false, false, false, true]) == ["Diabetes"]
  {
  }

  /** Corrected: each phrase pattern reports its own label, in pattern order. */
  function Diagnoses(matched: seq<bool>): (r: seq<string>)
    requires |matched| == 4
    ensures DiagnosisLabels[0] in r <==> matched[1]
    ensures DiagnosisLabels[1] in r <==> matched[2]
    ensures DiagnosisLabels[2] in r <==> matched[3]
    ensures NoDuplicates(r) && forall j :: 0 <= j < |r| ==> r[j] in DiagnosisLabels
  {
    (if matched[1] then [DiagnosisLabels[0]] else [])
    + (if matched[2] then [DiagnosisLabels[1]] else [])
    + (if matched[3] then [DiagnosisLabels[2]] else [])
  }

  // -------------------------------------------------------- recommendations

  const TakeVitaminD := "Take vitamin D supplements daily"
  const MoreSunlight := "Get more sunlight exposure"
  const CholesterolMedication := "Consider cholesterol medication"
  const HeartHealthyDiet := "Follow a heart-healthy diet"
  const ContinueMedications := "Continue taking prescribed medications"

  predicate LowVitaminD(b: Biomarker) { b.status == Low && Contains(b.name, "Vitamin D") }
  predicate HighCholesterol(b: Biomarker) { b.status == High && Contains(b.name, "Cholesterol") }

  predicate SomeLowVitaminD(bs: seq<Biomarker>) { exists i :: 0 <= i < |bs| && LowVitaminD(bs[i]) }
  predicate SomeHighCholesterol(bs: seq<Biomarker>) { exists i :: 0 <= i < |bs| && HighCholesterol(bs[i]) }

  /** The place of each piece of advice in the fixed order. */
  function AdviceRank(a: string): nat {
    if a == TakeVitaminD then 0
    else if a == MoreSunlight then 1
    else if a == CholesterolMedication then 2
    else if a == HeartHealthyDiet then 3
    else 4
  }

  /** Advice synthesized from the findings: vitamin D advice for a low vitamin D,
      diet advice for a high cholesterol, and a reminder when medications were found. */
  function Recommendations(bs: seq<Biomarker>, ms: seq<Medication>): (r: seq<string>)
    ensures TakeVitaminD in r <==> SomeLowVitaminD(bs)
    ensures MoreSunlight in r <==> SomeLowVitaminD(bs)
    ensures CholesterolMedication in r <==> SomeHighCholesterol(bs)
    ensures HeartHealthyDiet in r <==> SomeHighCholesterol(bs)
    ensures ContinueMedications in r <==> |ms| > 0
    ensures forall j :: 0 <= j < |r| ==> r[j] in [TakeVitaminD, MoreSunlight, CholesterolMedication, HeartHealthyDiet, ContinueMedications]
    ensures forall i, j :: 0 <= i < j < |r| ==> AdviceRank(r[i]) < AdviceRank(r[j])
  {
    (if SomeLowVitaminD(bs) then [TakeVitaminD, MoreSunlight] else [])
    + (if SomeHighCholesterol(bs) then [CholesterolMedication, HeartHealthyDiet] else [])
    + (if |ms| > 0 then [ContinueMedications] else [])
  }

  // ---------------------------------------------------------------- summary

  const SummaryOpening := "Medical document analyzed with "

  /** The summary sentence; `SummaryDeterminesCounts` shows the counts can be read back from it. */
  function SummaryText(biomarkers: nat, medications: nat, diagnoses: nat): (s: string)
    ensures StartsWith(s, SummaryOpening + NatToString(biomarkers) + " biomarkers, ")
    ensures |s| >= |" diagnoses."| && s[|s| - |" diagnoses."|..] == " diagnoses."
  {
    SummaryOpening + NatToString(biomarkers)
    + (" biomarkers, " + NatToString(medications)
       + (" medications, and " + NatToString(diagnoses) + " diagnoses."))
  }

  /** A number written between a common prefix and a text that does not start with a digit is read back. */
  lemma ReadNumberAt(pre: string, n: nat, post: string, n': nat, post': string)
    requires |post| > 0 && !IsDigit(post[0]) && |post'| > 0 && !IsDigit(post'[0])
    requires pre + NatToString(n) + post == pre + NatToString(n') + post'
    ensures n == n' && post == post'
  {
    var s := pre + NatToString(n) + post;
    assert s[|pre|..] == NatToString(n) + post;
    assert s[|pre|..] == NatToString(n') + post';
    DigitPrefixAppend(NatToString(n), post);
    DigitPrefixAppend(NatToString(n'), post');
    NatToStringInjective(n, n');
    assert post == s[|pre| + |NatToString(n)|..];
  }

  /** The summary line determines the three counts it reports. */
  lemma SummaryDeterminesCounts(b: nat, m: nat, d: nat, b': nat, m': nat, d': nat)
    requires SummaryText(b, m, d) == SummaryText(b', m', d')
    ensures b == b' && m == m' && d == d'
  {
    var rest := " medications, and " + NatToString(d) + " diagnoses.";
    var rest' := " medications, and " + NatToString(d') + " diagnoses.";
    var tail := " biomarkers, " + NatToString(m) + rest;
    var tail' := " biomarkers, " + NatToString(m') + rest';
    ReadNumberAt(SummaryOpening, b, tail, b', tail');
    ReadNumberAt(" biomarkers, ", m, rest, m', rest');
    ReadNumberAt(" medications, and ", d, " diagnoses.", d', " diagnoses.");
  }

  /** The fallback extractor's record: fixed document type, the synthesized advice,
      and a summary counting exactly the lists it carries. The diagnoses follow the
      labelling as written; `values` are the readings the caller takes from the
      matches (`ValuesAsWritten` for the code as written). */
  function LocalExtraction(values: seq<Option<Number>>, dosages: seq<Option<string>>,
                           matched: seq<bool>, extractedAt: string): (r: ExtractedMedicalData)
    requires |values| == 5 && |dosages| == 3 && |matched| == 4
    ensures r.documentType == "medical_document" && r.extractedAt == extractedAt
    ensures r.biomarkers == Biomarkers(values) && r.medications == Medications(dosages, 0)
    ensures r.diagnoses == DiagnosesAsWritten(matched)
    ensures r.summary == SummaryText(|r.biomarkers|, |r.medications|, |r.diagnoses|)
    ensures r.recommendations == Recommendations(r.biomarkers, r.medications)
    ensures |r.biomarkers| <= 5 && |r.medications| <= 3 && |r.diagnoses| <= 3
  {
    var bs := Biomarkers(values);
    var ms := Medications(dosages, 0);
    var ds := DiagnosesAsWritten(matched);
    ExtractedMedicalData("medical_document", SummaryText(|bs|, |ms|, |ds|), bs, ms, ds,
                         Recommendations(bs, ms), extractedAt)
  }
}
