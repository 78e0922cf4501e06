/** The medical insight shown on the dashboard: choosing the latest processed
    document, and composing its insight text section by section when the
    language model does not answer. */
module Composer {
  import opened Wrappers
  import opened Text
  import opened Seqs
  import opened Numbers
  import opened Records
  import opened MedicalData
  import Gamification

  /** The sections of a composed insight, in the order they are emitted. */
  datatype Section =
    | DocumentAnalysis(summary: string)
    | OutOfRange(markers: seq<Biomarker>)
    | NormalResults(count: nat)
    | MedicationsFound(medications: seq<Medication>)
    | DiagnosesFound(diagnoses: seq<string>)
    | Lifestyle(supplements: nat, goodSleep: nat)
    | DocumentRecommendations(recommendations: seq<string>)
    | Processed

  function Rank(s: Section): nat {
    match s
    case DocumentAnalysis(_) => 0
    case OutOfRange(_) => 1
    case NormalResults(_) => 2
    case MedicationsFound(_) => 3
    case DiagnosesFound(_) => 4
    case Lifestyle(_, _) => 5
    case DocumentRecommendations(_) => 6
    case Processed => 7
  }

  predicate IsNormal(b: Biomarker) { b.status == Normal }
  predicate IsAbnormal(b: Biomarker) { b.status != Normal }

  function Abnormal(bs: seq<Biomarker>): seq<Biomarker> { Filter(bs, IsAbnormal) }
  function NormalCount(bs: seq<Biomarker>): nat { Count(bs, IsNormal) }

  /** The window the lifestyle section looks at: the last seven logs. */
  function Recent(logs: seq<Log>): seq<Log> { Last(logs, 7) }
  function SupplementDays(logs: seq<Log>): nat { Count(Recent(logs), Gamification.TookSupplements) }
  function GoodSleepDays(logs: seq<Log>): nat { Count(Recent(logs), Gamification.SleptWell) }

  /** Whether each section has something to say. */
  predicate HasLifestyle(logs: seq<Log>) {
    |logs| > 0 && (SupplementDays(logs) > 0 || GoodSleepDays(logs) > 0)
  }

  predicate NothingToSay(d: ExtractedMedicalData, logs: seq<Log>) {
    && d.summary == "" && d.biomarkers == [] && d.medications == [] && d.diagnoses == []
    && d.recommendations == [] && !HasLifestyle(logs)
  }

  /** Whether a candidate section has anything to say: a non-empty summary, list or count. */
  predicate Says(s: Section) {
    match s
    case DocumentAnalysis(summary) => summary != ""
    case OutOfRange(ms) => |ms| > 0
    case NormalResults(n) => n > 0
    case MedicationsFound(ms) => |ms| > 0
    case DiagnosesFound(ds) => |ds| > 0
    case Lifestyle(supplements, sleep) => supplements > 0 || sleep > 0
    case DocumentRecommendations(rs) => |rs| > 0
    case Processed => false
  }

  /** The seven content sections the document and the logs could give, in emission order. */
  function Candidates(d: ExtractedMedicalData, logs: seq<Log>): seq<Section> {
    [ DocumentAnalysis(d.summary), OutOfRange(Abnormal(d.biomarkers)), NormalResults(NormalCount(d.biomarkers)),
      MedicationsFound(d.medications), DiagnosesFound(d.diagnoses),
      Lifestyle(SupplementDays(logs), GoodSleepDays(logs)), DocumentRecommendations(d.recommendations) ]
  }

  /** The sections `generateInsightFromDocument` emits: those candidates with something to say,
      or the fallback alone when none has. */
  function Sections(d: ExtractedMedicalData, logs: seq<Log>): (r: seq<Section>)
    ensures |r| >= 1
    ensures Processed in r ==> r == [Processed]
  {
    var found := Filter(Candidates(d, logs), Says);
    if found == [] then [Processed] else found
  }

  predicate Ordered(ss: seq<Section>) {
    forall i, j :: 0 <= i < j < |ss| ==> Rank(ss[i]) < Rank(ss[j])
  }

  predicate RanksAbove(ss: seq<Section>, k: nat) {
    forall i :: 0 <= i < |ss| ==> k < Rank(ss[i])
  }

  lemma OrderedTail(ss: seq<Section>)
    requires Ordered(ss) && ss != []
    ensures Ordered(ss[1..]) && RanksAbove(ss[1..], Rank(ss[0]))
  {
    var tail := ss[1..];
    forall i | 0 <= i < |tail| ensures Rank(ss[0]) < Rank(tail[i]) {
      assert tail[i] == ss[i + 1];
    }
    forall i, j | 0 <= i < j < |tail| ensures Rank(tail[i]) < Rank(tail[j]) {
      assert tail[i] == ss[i + 1] && tail[j] == ss[j + 1];
    }
  }

  lemma OrderedCons(x: Section, rest: seq<Section>)
    requires Ordered(rest) && RanksAbove(rest, Rank(x))
    ensures Ordered([x] + rest)
  {
    var r := [x] + rest;
    forall i, j | 0 <= i < j < |r| ensures Rank(r[i]) < Rank(r[j]) {
      assert r[j] == rest[j - 1];
      if i > 0 {
        assert r[i] == rest[i - 1];
      }
    }
  }

  lemma KeptRanksAbove(ss: seq<Section>, k: nat)
    requires RanksAbove(ss, k)
    ensures RanksAbove(Filter(ss, Says), k)
  {
    var r := Filter(ss, Says);
    forall i | 0 <= i < |r| ensures k < Rank(r[i]) {
      var m :| 0 <= m < |ss| && ss[m] == r[i];
    }
  }

  /** Keeping some sections of an ordered sequence keeps it ordered. */
  lemma {:induction false} FilterOrdered(ss: seq<Section>)
    requires Ordered(ss)
    ensures Ordered(Filter(ss, Says))
    decreases |ss|
  {
    if ss != [] {
      var tail := ss[1..];
      OrderedTail(ss);
      FilterOrdered(tail);
      KeptRanksAbove(tail, Rank(ss[0]));
      var rest := Filter(tail, Says);
      if Says(ss[0]) {
        assert Filter(ss, Says) == [ss[0]] + rest;
        OrderedCons(ss[0], rest);
      } else {
        assert Filter(ss, Says) == rest;
      }
    }
  }

  /** Sections always come in the fixed order: summary, out-of-range, normal,
      medications, diagnoses, lifestyle, recommendations; the fallback stands alone. */
  lemma SectionsOrdered(d: ExtractedMedicalData, logs: seq<Log>)
    ensures Ordered(Sections(d, logs))
  {
    var c := Candidates(d, logs);
    assert Ordered(c) by {
      assert forall i :: 0 <= i < |c| ==> Rank(c[i]) == i;
    }
    FilterOrdered(c);
  }

  /** The lifestyle counts look at the last seven logs, so they are zero without logs. */
  lemma LifestyleNeedsLogs(logs: seq<Log>)
    ensures HasLifestyle(logs) <==> Says(Lifestyle(SupplementDays(logs), GoodSleepDays(logs)))
  {
  }

  /** A candidate section is emitted exactly when it has something to say, and nothing
      but candidates and the fallback is ever emitted. */
  lemma SectionsPresent(d: ExtractedMedicalData, logs: seq<Log>, s: Section)
    ensures s in Candidates(d, logs) ==> (s in Sections(d, logs) <==> Says(s))
    ensures s in Sections(d, logs) ==> s in Candidates(d, logs) || s == Processed
  {
    var c := Candidates(d, logs);
    if s in c && Says(s) {
      var k :| 0 <= k < |c| && c[k] == s;
      assert s in Filter(c, Says);
    }
    if s in Filter(c, Says) {
      var k :| 0 <= k < |Filter(c, Says)| && Filter(c, Says)[k] == s;
      assert Says(s);
    }
  }

  /** No candidate has anything to say exactly when the document is empty and no recent log
      records a supplement or good sleep. */
  lemma SilentCandidates(d: ExtractedMedicalData, logs: seq<Log>)
    ensures NothingToSay(d, logs) <==> forall k :: 0 <= k < |Candidates(d, logs)| ==> !Says(Candidates(d, logs)[k])
  {
    var c := Candidates(d, logs);
    BiomarkerSplit(d.biomarkers);
    LifestyleNeedsLogs(logs);
    assert NothingToSay(d, logs) <==>
      !Says(c[0]) && !Says(c[1]) && !Says(c[2]) && !Says(c[3]) && !Says(c[4]) && !Says(c[5]) && !Says(c[6]);
  }

  /** The fallback appears exactly when nothing else has anything to say, and then alone. */
  lemma FallbackIffNothing(d: ExtractedMedicalData, logs: seq<Log>)
    ensures Processed in Sections(d, logs) <==> NothingToSay(d, logs)
    ensures NothingToSay(d, logs) ==> Sections(d, logs) == [Processed]
  {
    var c := Candidates(d, logs);
    var found := Filter(c, Says);
    assert found == [] <==> NothingToSay(d, logs) by {
      SilentCandidates(d, logs);
      Seqs.CountPositiveIff(c, Says);
    }
    assert Processed !in found by {
      assert forall i :: 0 <= i < |found| ==> found[i] != Processed;
    }
    assert Sections(d, logs) == if found == [] then [Processed] else found;
  }

  /** With no biomarkers there is neither an abnormal nor a normal one. */
  lemma BiomarkerSplit(bs: seq<Biomarker>)
    ensures bs == [] ==> |Abnormal(bs)| == 0 && NormalCount(bs) == 0
    ensures bs != [] ==> |Abnormal(bs)| > 0 || NormalCount(bs) > 0
  {
    if bs != [] {
      if IsNormal(bs[0]) {
        Seqs.CountPositiveIff(bs, IsNormal);
      } else {
        Seqs.CountPositiveIff(bs, IsAbnormal);
      }
    }
  }

  // -------------------------------------------------------------- the text

  const AnalysisHeading := "\U{00F0}\U{0178}\U{201C}\U{2039} Document Analysis\n"
  const BiomarkerHeading := "\U{00F0}\U{0178}\U{201D}\U{00AC} Biomarker Analysis\n"
  const NormalHeading := "\U{00E2}\U{0153}\U{2026} Normal Results\n"
  const MedicationHeading := "\U{00F0}\U{0178}\U{2019}\U{0160} Medications Identified\n"
  const DiagnosisHeading := "\U{00F0}\U{0178}\U{00A5} Medical Diagnoses\n"
  const LifestyleHeading := "\U{00F0}\U{0178}\U{201C}\U{0160} Lifestyle Connection\n"
  const AdviceHeading := "\U{00F0}\U{0178}\U{2019}\U{00A1} Recommendations\n"
  const Bullet := "\U{00E2}\U{20AC}\U{00A2} "
  const ProcessedText := "\U{00F0}\U{0178}\U{201C}\U{201E} Document Processed\nYour medical document has been analyzed. Continue logging your daily habits to see how they connect with your health data."

  function Upper(s: Status): string {
    match s
    case Normal => "NORMAL"
    case High => "HIGH"
    case Low => "LOW"
  }

  /** One out-of-range marker: its name and reading first, its status in capitals
      in parentheses, one line. */
  function MarkerLine(b: Biomarker): (r: string)
    ensures StartsWith(r, Bullet + b.name + ": " + Render(b.value))
    ensures Contains(r, " " + b.unit + " (" + Upper(b.status) + ")")
    ensures |r| >= 2 && r[|r| - 2] == ')' && r[|r| - 1] == '\n'
  {
    var reading := Bullet + b.name + ": " + Render(b.value);
    var units := " " + b.unit + " (" + Upper(b.status) + ")";
    var line := reading + " " + b.unit + " (" + Upper(b.status) + ")" + "\n";
    assert line == reading + units + "\n";
    ContainsInfix(reading, units, "\n");
    assert line[..|reading|] == reading;
    line
  }

  /** One medication: its name first, the dosage in parentheses right after it when
      there is one, the frequency after a dash when there is one, one line. */
  function MedicationLine(m: Medication): (r: string)
    ensures StartsWith(r, Bullet + m.name) && r[|r| - 1] == '\n'
    ensures m.dosage != "" ==> StartsWith(r, Bullet + m.name + " (" + m.dosage + ")")
    ensures m.frequency != "" ==> Contains(r, " - " + m.frequency)
    ensures m.dosage == "" && m.frequency == "" ==> r == Bullet + m.name + "\n"
  {
    var named := Bullet + m.name;
    var dosed := named + (if m.dosage != "" then " (" + m.dosage + ")" else "");
    var often := if m.frequency != "" then " - " + m.frequency else "";
    var line := dosed + often + "\n";
    ContainsInfix(dosed, often, "\n");
    assert line[..|dosed|] == dosed && dosed[..|named|] == named;
    line
  }

  function AdviceLine(a: string): string {
    Bullet + a + "\n"
  }

  /** Text that ends with a visible character. */
  predicate Visible(a: string) {
    |a| > 0 && !IsWhitespace(a[|a| - 1])
  }

  lemma AdviceLinesVisible(rs: seq<string>)
    ensures forall k :: 0 <= k < |rs| && Visible(rs[k]) ==>
      VisibleLine(AdviceLine(rs[k])) && LineText(AdviceLine(rs[k])) == Bullet + rs[k]
  {
    forall k | 0 <= k < |rs| && Visible(rs[k])
      ensures VisibleLine(AdviceLine(rs[k])) && LineText(AdviceLine(rs[k])) == Bullet + rs[k]
    {
      var l := AdviceLine(rs[k]);
      assert l == (Bullet + rs[k]) + "\n";
      assert l[|l| - 2] == rs[k][|rs[k]| - 1];
    }
  }

  function Lines<T>(xs: seq<T>, line: T -> string): string
    decreases |xs|
  {
    if xs == [] then "" else line(xs[0]) + Lines(xs[1..], line)
  }

  /** A line whose last character before its newline is visible, so trimming the
      text it closes cannot shorten it. */
  predicate VisibleLine(line: string) {
    |line| >= 2 && line[|line| - 1] == '\n' && !IsWhitespace(line[|line| - 2])
  }

  /** A line without its newline. */
  function LineText(line: string): string {
    if |line| > 0 then line[..|line| - 1] else line
  }

  /** Every entry whose line ends visibly appears in `r`, without its newline. */
  predicate Listed<T>(r: string, xs: seq<T>, line: T -> string) {
    forall k :: 0 <= k < |xs| && VisibleLine(line(xs[k])) ==> Contains(r, LineText(line(xs[k])))
  }

  /** The entries' lines split around any one of them. */
  lemma {:induction false} LinesSplit<T>(xs: seq<T>, line: T -> string, k: nat)
    requires k < |xs|
    ensures Lines(xs, line) == Lines(xs[..k], line) + line(xs[k]) + Lines(xs[k + 1..], line)
    decreases k
  {
    if k == 0 {
      assert xs[..0] == [] && xs[1..] == xs[k + 1..];
    } else {
      LinesSplit(xs[1..], line, k - 1);
      assert xs[1..][..k - 1] == xs[..k][1..] && xs[..k][0] == xs[0];
      assert xs[1..][k - 1] == xs[k] && xs[1..][k..] == xs[k + 1..];
    }
  }

  /** Under an opening that starts visibly, every listed line that ends visibly
      survives the trimming of the whole text. */
  lemma ListedLinesKept<T>(p: string, xs: seq<T>, line: T -> string)
    requires |p| > 0 && p[0] == '\U{00F0}'
    ensures Listed(Trim(p + Lines(xs, line)), xs, line)
  {
    forall k | 0 <= k < |xs| && VisibleLine(line(xs[k]))
      ensures Contains(Trim(p + Lines(xs, line)), LineText(line(xs[k])))
    {
      ListedLineKept(p, xs, line, k);
    }
  }

  lemma ListedLineKept<T>(p: string, xs: seq<T>, line: T -> string, k: nat)
    requires |p| > 0 && p[0] == '\U{00F0}' && k < |xs| && VisibleLine(line(xs[k]))
    ensures Contains(Trim(p + Lines(xs, line)), LineText(line(xs[k])))
  {
    var before := p + Lines(xs[..k], line);
    LineAt(p, xs, line, k);
    assert before[0] == p[0];
    MiddleLineKept(before, LineText(line(xs[k])), Lines(xs[k + 1..], line));
  }

  /** The whole text around the `k`-th entry's line, which ends visibly. */
  lemma LineAt<T>(p: string, xs: seq<T>, line: T -> string, k: nat)
    requires k < |xs| && VisibleLine(line(xs[k]))
    ensures var t := LineText(line(xs[k]));
      && |t| > 0 && !IsWhitespace(t[|t| - 1])
      && p + Lines(xs, line) == p + Lines(xs[..k], line) + (t + "\n") + Lines(xs[k + 1..], line)
  {
    var l := line(xs[k]);
    LinesSplit(xs, line, k);
    assert l == LineText(l) + "\n";
  }

  /** A line ending visibly, after text that starts visibly, survives trimming
      whatever follows it. */
  lemma MiddleLineKept(before: string, t: string, after: string)
    requires |before| > 0 && !IsWhitespace(before[0]) && |t| > 0 && !IsWhitespace(t[|t| - 1])
    ensures Contains(Trim(before + (t + "\n") + after), t)
  {
    LineInPrefix(before, t, after);
    ContainsSuffix(before, t);
    ContainsThroughTrim(before + (t + "\n") + after, before + t, t);
  }

  lemma LineInPrefix(before: string, t: string, after: string)
    requires |before| > 0 && |t| > 0
    ensures StartsWith(before + (t + "\n") + after, before + t)
    ensures (before + t)[0] == before[0] && (before + t)[|before + t| - 1] == t[|t| - 1]
  {
    var q := before + t;
    assert before + (t + "\n") + after == q + ("\n" + after);
    assert (q + ("\n" + after))[..|q|] == q;
  }

  const SupplementPrefix := Bullet + "You've been taking supplements "
  const SleepPrefix := Bullet + "Good sleep patterns recorded "

  function SupplementLine(n: nat): string {
    if n > 0 then SupplementPrefix + NatToString(n) + " times recently\n" else ""
  }

  function SleepLine(n: nat): string {
    if n > 0 then SleepPrefix + NatToString(n) + " times" + "\n" else ""
  }

  /** The lifestyle section: under its heading, the supplement count first when there
      is one, and the good-sleep count when there is one. */
  function LifestyleText(supplements: nat, sleep: nat): (r: string)
    ensures supplements > 0 || sleep > 0 ==> StartsWith(r, LifestyleHeading)
    ensures supplements > 0 ==>
      StartsWith(r, LifestyleHeading + (SupplementPrefix + NatToString(supplements) + " times recently"))
    ensures sleep > 0 ==> Contains(r, SleepPrefix + NatToString(sleep) + " times")
  {
    SupplementsShown(supplements, sleep);
    SleepShown(supplements, sleep);
    Trim(LifestyleHeading + SupplementLine(supplements) + SleepLine(sleep))
  }

  lemma SupplementsShown(supplements: nat, sleep: nat)
    ensures supplements > 0 ==>
      StartsWith(Trim(LifestyleHeading + SupplementLine(supplements) + SleepLine(sleep)), LifestyleHeading)
    ensures supplements > 0 ==> StartsWith(Trim(LifestyleHeading + SupplementLine(supplements) + SleepLine(sleep)),
      LifestyleHeading + (SupplementPrefix + NatToString(supplements) + " times recently"))
  {
    if supplements > 0 {
      var line := SupplementPrefix + NatToString(supplements) + " times recently";
      assert !IsWhitespace(LifestyleHeading[0]) && !IsWhitespace(line[|line| - 1]) by {
        LifestyleHeadingVisible();
        assert line[|line| - 1] == 'y';
      }
      assert SupplementLine(supplements) == line + "\n";
      LeadingLineKept(LifestyleHeading, line, SleepLine(sleep));
      assert StartsWith(LifestyleHeading + line, LifestyleHeading) by {
        assert (LifestyleHeading + line)[..|LifestyleHeading|] == LifestyleHeading;
      }
      StartsWithTrans(Trim(LifestyleHeading + SupplementLine(supplements) + SleepLine(sleep)),
        LifestyleHeading + line, LifestyleHeading);
    }
  }

  lemma SleepShown(supplements: nat, sleep: nat)
    ensures sleep > 0 ==>
      StartsWith(Trim(LifestyleHeading + SupplementLine(supplements) + SleepLine(sleep)), LifestyleHeading)
    ensures sleep > 0 ==> Contains(Trim(LifestyleHeading + SupplementLine(supplements) + SleepLine(sleep)),
      SleepPrefix + NatToString(sleep) + " times")
  {
    if sleep > 0 {
      var t := SleepPrefix + NatToString(sleep) + " times";
      assert !IsWhitespace(LifestyleHeading[0]) && !IsWhitespace(t[|t| - 1]) by {
        LifestyleHeadingVisible();
        assert t[|t| - 1] == 's';
      }
      assert SleepLine(sleep) == t + "\n";
      TrailingLineShown(LifestyleHeading, SupplementLine(supplements), t);
    }
  }

  /** A last line ending visibly, under a heading that starts visibly, survives
      trimming, and so does the heading. */
  lemma TrailingLineShown(heading: string, mid: string, t: string)
    requires |heading| > 0 && !IsWhitespace(heading[0]) && |t| > 0 && !IsWhitespace(t[|t| - 1])
    ensures StartsWith(Trim(heading + mid + (t + "\n")), heading)
    ensures Contains(Trim(heading + mid + (t + "\n")), t)
  {
    TrailingSplit(heading, mid, t);
    LastLineShown(heading + mid, t);
  }

  lemma TrailingSplit(heading: string, mid: string, t: string)
    requires |heading| > 0
    ensures heading + mid + (t + "\n") == heading + mid + t + "\n"
    ensures StartsWith(heading + mid + t, heading) && (heading + mid)[0] == heading[0]
  {
    assert (heading + mid + t)[..|heading|] == heading;
  }

  lemma LifestyleHeadingVisible()
    ensures |LifestyleHeading| > 0 && LifestyleHeading[0] == '\U{00F0}'
  {
  }

  /** A first line ending visibly, under a heading that starts visibly, survives trimming. */
  lemma LeadingLineKept(heading: string, line: string, rest: string)
    requires |heading| > 0 && !IsWhitespace(heading[0]) && |line| > 0 && !IsWhitespace(line[|line| - 1])
    ensures StartsWith(Trim(heading + (line + "\n") + rest), heading + line)
  {
    var p := heading + line;
    assert p[0] == heading[0] && p[|p| - 1] == line[|line| - 1];
    assert heading + (line + "\n") + rest == p + ("\n" + rest);
    assert (p + ("\n" + rest))[..|p|] == p;
    TrimKeepsPrefix(p + ("\n" + rest), p);
  }

  /** A last line ending visibly, after text that starts visibly, survives trimming. */
  lemma LastLineShown(before: string, t: string)
    requires |before| > 0 && !IsWhitespace(before[0]) && |t| > 0 && !IsWhitespace(t[|t| - 1])
    ensures Trim(before + t + "\n") == before + t && Contains(before + t, t)
  {
    var p := before + t;
    assert p[0] == before[0] && p[|p| - 1] == t[|t| - 1];
    TrimOneNewline(p);
    ContainsInfix(before, t, "");
    assert before + t + "" == p;
  }

  /** One section's text: each opens with its heading, the out-of-range and medication
      sections announce how many entries they list, the listed entries appear line by
      line, and every diagnosis appears. */
  function SectionText(s: Section): (r: string)
    ensures s.DocumentAnalysis? ==> StartsWith(r, AnalysisHeading) && Contains(r, s.summary)
    ensures s.OutOfRange? ==>
      StartsWith(r, BiomarkerHeading + "Found " + NatToString(|s.markers|) + " value(s) outside normal range:")
    ensures s.NormalResults? ==> StartsWith(r, NormalHeading + NatToString(s.count) + " biomarker(s)")
    ensures s.MedicationsFound? ==>
      StartsWith(r, MedicationHeading + NatToString(|s.medications|) + " medication(s) found in your document:")
    ensures s.DiagnosesFound? ==>
      StartsWith(r, DiagnosisHeading) && forall k :: 0 <= k < |s.diagnoses| ==> Contains(r, s.diagnoses[k])
    ensures s.DocumentRecommendations? ==> StartsWith(r, AdviceHeading + "Based on your document:")
  {
    match s
    case DocumentAnalysis(summary) => AnalysisText(summary)
    case OutOfRange(ms) => OutOfRangeText(ms)
    case NormalResults(n) => NormalText(n)
    case MedicationsFound(ms) => MedicationsText(ms)
    case DiagnosesFound(ds) => DiagnosesText(ds)
    case Lifestyle(supplements, sleep) => LifestyleText(supplements, sleep)
    case DocumentRecommendations(rs) => AdviceText(rs)
    case Processed => ProcessedText
  }

  /** The out-of-range markers, the medications and the recommendations appear line by
      line in their sections, and a lifestyle section with a count opens with its heading. */
  lemma SectionListsEntries(s: Section)
    ensures s.OutOfRange? ==>
      forall k :: 0 <= k < |s.markers| ==> Contains(SectionText(s), LineText(MarkerLine(s.markers[k])))
    ensures s.MedicationsFound? ==> Listed(SectionText(s), s.medications, MedicationLine)
    ensures s.DocumentRecommendations? ==> forall k :: 0 <= k < |s.recommendations| && Visible(s.recommendations[k]) ==>
      Contains(SectionText(s), Bullet + s.recommendations[k])
    ensures s.Lifestyle? && (s.supplements > 0 || s.goodSleep > 0) ==> StartsWith(SectionText(s), LifestyleHeading)
  {
  }

  /** The document's summary under its heading. */
  function AnalysisText(summary: string): (r: string)
    ensures StartsWith(r, AnalysisHeading) && Contains(r, summary)
  {
    SummaryShown(summary);
    AnalysisHeading + summary
  }

  /** How many markers are within range. */
  function NormalText(n: nat): (r: string)
    ensures StartsWith(r, NormalHeading + NatToString(n) + " biomarker(s)")
  {
    NormalOpening(NatToString(n));
    NormalHeading + NatToString(n) + " biomarker(s) are within healthy range."
  }

  /** The diagnoses under their heading, separated by commas. */
  function DiagnosesText(ds: seq<string>): (r: string)
    ensures StartsWith(r, DiagnosisHeading) && forall k :: 0 <= k < |ds| ==> Contains(r, ds[k])
  {
    DiagnosesListed(ds);
    DiagnosisHeading + Join(ds, ", ")
  }

  /** The out-of-range markers under the count of them, one line each. */
  function OutOfRangeText(ms: seq<Biomarker>): (r: string)
    ensures StartsWith(r, BiomarkerHeading + "Found " + NatToString(|ms|) + " value(s) outside normal range:")
    ensures forall k :: 0 <= k < |ms| ==> Contains(r, LineText(MarkerLine(ms[k])))
  {
    OutOfRangeOpening(NatToString(|ms|), Lines(ms, MarkerLine));
    MarkersListed(NatToString(|ms|), ms);
    Trim(BiomarkerHeading + "Found " + NatToString(|ms|) + " value(s) outside normal range:\n" + Lines(ms, MarkerLine))
  }

  /** The medications under the count of them, one line each. */
  function MedicationsText(ms: seq<Medication>): (r: string)
    ensures StartsWith(r, MedicationHeading + NatToString(|ms|) + " medication(s) found in your document:")
    ensures Listed(r, ms, MedicationLine)
  {
    MedicationsOpening(NatToString(|ms|), Lines(ms, MedicationLine));
    MedicationsListed(NatToString(|ms|), ms);
    Trim(MedicationHeading + NatToString(|ms|) + " medication(s) found in your document:\n" + Lines(ms, MedicationLine))
  }

  /** The document's recommendations under "Based on your document:", one line each. */
  function AdviceText(rs: seq<string>): (r: string)
    ensures StartsWith(r, AdviceHeading + "Based on your document:")
    ensures forall k :: 0 <= k < |rs| && Visible(rs[k]) ==> Contains(r, Bullet + rs[k])
  {
    AdviceOpening(rs);
    AdviceListed(rs);
    AdviceLinesVisible(rs);
    Trim(AdviceHeading + "Based on your document:\n" + Lines(rs, AdviceLine))
  }

  lemma SummaryShown(summary: string)
    ensures StartsWith(AnalysisHeading + summary, AnalysisHeading) && Contains(AnalysisHeading + summary, summary)
  {
    ContainsInfix(AnalysisHeading, summary, "");
    assert AnalysisHeading + summary + "" == AnalysisHeading + summary;
  }

  lemma NormalOpening(n: string)
    ensures StartsWith(NormalHeading + n + " biomarker(s) are within healthy range.", NormalHeading + n + " biomarker(s)")
  {
    var p := NormalHeading + n + " biomarker(s)";
    assert NormalHeading + n + " biomarker(s) are within healthy range." == p + " are within healthy range.";
  }

  lemma OutOfRangeOpening(n: string, lines: string)
    ensures StartsWith(
      Trim(BiomarkerHeading + "Found " + n + " value(s) outside normal range:\n" + lines),
      BiomarkerHeading + "Found " + n + " value(s) outside normal range:")
  {
    var p := BiomarkerHeading + "Found " + n + " value(s) outside normal range:";
    var full := p + ("\n" + lines);
    assert full == BiomarkerHeading + "Found " + n + " value(s) outside normal range:\n" + lines;
    assert full[..|p|] == p && p[..|BiomarkerHeading|] == BiomarkerHeading;
    TrimmedOpening(BiomarkerHeading, full, p);
  }

  lemma MedicationsOpening(n: string, lines: string)
    ensures StartsWith(
      Trim(MedicationHeading + n + " medication(s) found in your document:\n" + lines),
      MedicationHeading + n + " medication(s) found in your document:")
  {
    var p := MedicationHeading + n + " medication(s) found in your document:";
    var full := p + ("\n" + lines);
    assert full == MedicationHeading + n + " medication(s) found in your document:\n" + lines;
    assert full[..|p|] == p && p[..|MedicationHeading|] == MedicationHeading;
    TrimmedOpening(MedicationHeading, full, p);
  }

  lemma AdviceOpening(rs: seq<string>)
    ensures StartsWith(
      Trim(AdviceHeading + "Based on your document:\n" + Lines(rs, AdviceLine)),
      AdviceHeading + "Based on your document:")
  {
    var p := AdviceHeading + "Based on your document:";
    var full := p + ("\n" + Lines(rs, AdviceLine));
    assert full == AdviceHeading + "Based on your document:\n" + Lines(rs, AdviceLine);
    assert full[..|p|] == p && p[..|AdviceHeading|] == AdviceHeading;
    TrimmedOpening(AdviceHeading, full, p);
  }

  lemma MarkersListed(n: string, ms: seq<Biomarker>)
    ensures forall k :: 0 <= k < |ms| ==>
      Contains(Trim(BiomarkerHeading + "Found " + n + " value(s) outside normal range:\n" + Lines(ms, MarkerLine)),
        LineText(MarkerLine(ms[k])))
  {
    var p := BiomarkerHeading + "Found " + n + " value(s) outside normal range:\n";
    assert p[0] == BiomarkerHeading[0];
    ListedLinesKept(p, ms, MarkerLine);
    forall k | 0 <= k < |ms| ensures VisibleLine(MarkerLine(ms[k])) {
      MarkerLineVisible(ms[k]);
    }
  }

  lemma MarkerLineVisible(b: Biomarker)
    ensures VisibleLine(MarkerLine(b))
  {
    var l := MarkerLine(b);
    assert l[|l| - 2] == ')';
  }

  lemma MedicationsListed(n: string, ms: seq<Medication>)
    ensures Listed(Trim(MedicationHeading + n + " medication(s) found in your document:\n" + Lines(ms, MedicationLine)),
      ms, MedicationLine)
  {
    var p := MedicationHeading + n + " medication(s) found in your document:\n";
    assert p[0] == MedicationHeading[0];
    ListedLinesKept(p, ms, MedicationLine);
  }

  lemma AdviceListed(rs: seq<string>)
    ensures Listed(Trim(AdviceHeading + "Based on your document:\n" + Lines(rs, AdviceLine)), rs, AdviceLine)
  {
    var p := AdviceHeading + "Based on your document:\n";
    assert p[0] == AdviceHeading[0];
    ListedLinesKept(p, rs, AdviceLine);
  }

  lemma DiagnosesListed(ds: seq<string>)
    ensures forall k :: 0 <= k < |ds| ==> Contains(DiagnosisHeading + Join(ds, ", "), ds[k])
  {
    JoinContainsParts(ds, ", ");
    forall k | 0 <= k < |ds| ensures Contains(DiagnosisHeading + Join(ds, ", "), ds[k]) {
      ContainsAfter(DiagnosisHeading, Join(ds, ", "), ds[k]);
    }
  }

  /** A section whose text opens with a heading (all start with the same visible
      character) and whose first line ends visibly keeps that line through trimming. */
  lemma TrimmedOpening(heading: string, s: string, p: string)
    requires StartsWith(s, p) && StartsWith(p, heading) && |heading| > 0 && heading[0] == '\U{00F0}'
    requires p[|p| - 1] == ':'
    ensures StartsWith(Trim(s), p)
  {
    assert p[0] == heading[0];
    TrimKeepsPrefix(s, p);
  }

  function Texts(ss: seq<Section>): (r: seq<string>)
    ensures |r| == |ss|
  {
    seq(|ss|, i requires 0 <= i < |ss| => SectionText(ss[i]))
  }

  /** `generateInsightFromDocument`: the sections' texts separated by blank lines. */
  function InsightFromDocument(d: ExtractedMedicalData, logs: seq<Log>): (r: string)
    ensures StartsWith(r, SectionText(Sections(d, logs)[0]))
    ensures forall k :: 0 <= k < |Sections(d, logs)| ==> Contains(r, SectionText(Sections(d, logs)[k]))
    ensures forall k :: 0 <= k < |Sections(d, logs)| - 1 ==>
      Contains(r, SectionText(Sections(d, logs)[k]) + "\n\n" + SectionText(Sections(d, logs)[k + 1]))
  {
    JoinedTexts(Sections(d, logs));
    Join(Texts(Sections(d, logs)), "\n\n")
  }

  /** Each section's text occurs in the joined insight, the first one opening it,
      and consecutive sections appear in order with a blank line between them. */
  lemma JoinedTexts(ss: seq<Section>)
    ensures |ss| > 0 ==> StartsWith(Join(Texts(ss), "\n\n"), SectionText(ss[0]))
    ensures forall k :: 0 <= k < |ss| ==> Contains(Join(Texts(ss), "\n\n"), SectionText(ss[k]))
    ensures forall k :: 0 <= k < |ss| - 1 ==>
      Contains(Join(Texts(ss), "\n\n"), SectionText(ss[k]) + "\n\n" + SectionText(ss[k + 1]))
  {
    var texts := Texts(ss);
    JoinContainsParts(texts, "\n\n");
    JoinAdjacent(texts, "\n\n");
    assert forall k :: 0 <= k < |ss| ==> texts[k] == SectionText(ss[k]);
  }

  /** A section that is emitted has its whole text in the insight. */
  lemma EmittedTextShown(d: ExtractedMedicalData, logs: seq<Log>, s: Section)
    requires s in Sections(d, logs)
    ensures Contains(InsightFromDocument(d, logs), SectionText(s))
  {
    var ss := Sections(d, logs);
    var k :| 0 <= k < |ss| && ss[k] == s;
  }

  /** A candidate with something to say is emitted. */
  lemma SayingCandidateEmitted(d: ExtractedMedicalData, logs: seq<Log>, i: nat)
    requires i < |Candidates(d, logs)| && Says(Candidates(d, logs)[i])
    ensures Candidates(d, logs)[i] in Sections(d, logs)
  {
    SectionsPresent(d, logs, Candidates(d, logs)[i]);
  }

  /** When some biomarker is out of range, the insight says how many are. */
  lemma OutOfRangeReported(d: ExtractedMedicalData, logs: seq<Log>)
    requires |Abnormal(d.biomarkers)| > 0
    ensures Contains(InsightFromDocument(d, logs),
      BiomarkerHeading + "Found " + NatToString(|Abnormal(d.biomarkers)|) + " value(s) outside normal range:")
  {
    var s := OutOfRange(Abnormal(d.biomarkers));
    var opening := BiomarkerHeading + "Found " + NatToString(|Abnormal(d.biomarkers)|) + " value(s) outside normal range:";
    SayingCandidateEmitted(d, logs, 1);
    EmittedTextShown(d, logs, s);
    ContainsPrefix(SectionText(s), opening);
    ContainsTrans(InsightFromDocument(d, logs), SectionText(s), opening);
  }

  /** Every diagnosis the document lists appears in the insight. */
  lemma DiagnosesReported(d: ExtractedMedicalData, logs: seq<Log>, k: nat)
    requires k < |d.diagnoses|
    ensures Contains(InsightFromDocument(d, logs), d.diagnoses[k])
  {
    var s := DiagnosesFound(d.diagnoses);
    SayingCandidateEmitted(d, logs, 4);
    EmittedTextShown(d, logs, s);
    ContainsTrans(InsightFromDocument(d, logs), SectionText(s), d.diagnoses[k]);
  }

  /** A document with nothing in it, and no supplement or good-sleep day lately, gets the fallback text alone. */
  lemma FallbackAlone(d: ExtractedMedicalData, logs: seq<Log>)
    requires NothingToSay(d, logs)
    ensures InsightFromDocument(d, logs) == ProcessedText
  {
    FallbackIffNothing(d, logs);
    assert Texts(Sections(d, logs)) == [ProcessedText];
  }

  /** Only the last seven logs matter: older history never changes the insight. */
  lemma OlderLogsIgnored(d: ExtractedMedicalData, older: seq<Log>, recent: seq<Log>)
    requires |recent| >= 7
    ensures InsightFromDocument(d, older + recent) == InsightFromDocument(d, recent)
  {
    SectionsUseRecent(d, older, recent);
  }

  lemma SectionsUseRecent(d: ExtractedMedicalData, older: seq<Log>, recent: seq<Log>)
    requires |recent| >= 7
    ensures Sections(d, older + recent) == Sections(d, recent)
  {
    var all := older + recent;
    assert Recent(all) == Recent(recent) by {
      assert forall i :: 0 <= i < 7 ==> Recent(all)[i] == all[|all| - 7 + i] == recent[|recent| - 7 + i];
    }
    assert HasLifestyle(all) == HasLifestyle(recent);
  }

  /** Without supplement days the lifestyle section is the heading and the good-sleep line alone. */
  lemma LifestyleWording(n: nat)
    requires n > 0
    ensures LifestyleText(0, n) == LifestyleHeading + (SleepPrefix + NatToString(n) + " times")
  {
    var line := SleepPrefix + NatToString(n) + " times";
    assert line[|line| - 1] == 's';
    assert LifestyleHeading[0] == '\U{00F0}';
    TrimAround(LifestyleHeading, line);
    assert SupplementLine(0) == [];
    assert SleepLine(n) == line + "\n";
    assert LifestyleHeading + SupplementLine(0) + SleepLine(n) == LifestyleHeading + line + "\n";
  }

  /** A heading followed by a line ending in a visible character loses only its final newline to trimming. */
  lemma TrimAround(heading: string, line: string)
    requires |heading| > 0 && !IsWhitespace(heading[0]) && |line| > 0 && !IsWhitespace(line[|line| - 1])
    ensures Trim(heading + line + "\n") == heading + line
  {
    var body := heading + line;
    assert body[0] == heading[0];
    assert body[|body| - 1] == line[|line| - 1];
    TrimOneNewline(body);
  }

  /** Trimming removes the trailing newline of a text that starts and ends with visible characters. */
  lemma TrimOneNewline(body: string)
    requires |body| > 0 && !IsWhitespace(body[0]) && !IsWhitespace(body[|body| - 1])
    ensures Trim(body + "\n") == body
  {
    var t := body + "\n";
    TrimStartKeepsVisible(t);
    assert TrimEnd(t) == TrimEnd(t[..|t| - 1]);
    assert t[..|t| - 1] == body;
  }

  lemma TrimStartKeepsVisible(s: string)
    requires |s| > 0 && !IsWhitespace(s[0])
    ensures TrimStart(s) == s
  {
  }

  // --------------------------------------------------- choosing a document

  predicate Done(doc: MedicalDocument) { doc.processingStatus == Completed }

  /** `docs[k]` is the document a stable newest-first sort of the completed ones puts first:
      completed, not older than any completed one, and strictly newer than every completed one before it. */
  predicate IsLatest(docs: seq<MedicalDocument>, k: int) {
    && 0 <= k < |docs| && Done(docs[k])
    && (forall j :: 0 <= j < |docs| && Done(docs[j]) ==> docs[j].uploadDate <= docs[k].uploadDate)
    && (forall j :: 0 <= j < k && Done(docs[j]) ==> docs[j].uploadDate < docs[k].uploadDate)
  }

  /** The index of the latest completed document among `docs[from..]`. */
  function LatestFrom(docs: seq<MedicalDocument>, from: nat): (r: Option<nat>)
    requires from <= |docs|
    ensures r.None? <==> forall j :: from <= j < |docs| ==> !Done(docs[j])
    ensures r.Some? ==> from <= r.value < |docs| && Done(docs[r.value])
    ensures r.Some? ==> forall j :: from <= j < |docs| && Done(docs[j]) ==> docs[j].uploadDate <= docs[r.value].uploadDate
    ensures r.Some? ==> forall j :: from <= j < r.value && Done(docs[j]) ==> docs[j].uploadDate < docs[r.value].uploadDate
    decreases |docs| - from
  {
    if from == |docs| then None
    else
      var rest := LatestFrom(docs, from + 1);
      if Done(docs[from]) && (rest.None? || docs[rest.value].uploadDate <= docs[from].uploadDate) then Some(from)
      else rest
  }

  /** The completed document shown first after sorting newest first, if any. */
  function Latest(docs: seq<MedicalDocument>): (r: Option<nat>)
    ensures r.None? <==> forall j :: 0 <= j < |docs| ==> !Done(docs[j])
    ensures r.Some? ==> IsLatest(docs, r.value)
  {
    LatestFrom(docs, 0)
  }

  const UploadPrompt := "Upload your medical documents to get AI-powered health insights!"
  const StillProcessing := "Your medical documents are still being processed. Check back soon!"

  /** `generateMedicalInsights`: the upload prompt without documents, the waiting message
      unless the latest completed document carries data, and otherwise the language
      model's answer (`remote`) or, failing that, the composed insight. */
  function MedicalInsights(docs: seq<MedicalDocument>, logs: seq<Log>, remote: Option<string>): (r: string)
    ensures docs == [] ==> r == UploadPrompt
    ensures docs != [] && (forall j :: 0 <= j < |docs| ==> !Done(docs[j])) ==> r == StillProcessing
    ensures docs != [] && Latest(docs).Some? ==>
      var doc := docs[Latest(docs).value];
      && IsLatest(docs, Latest(docs).value)
      && (doc.extractedData.None? ==> r == StillProcessing)
      && (doc.extractedData.Some? && remote.Some? ==> r == remote.value)
      && (doc.extractedData.Some? && remote.None? ==> r == InsightFromDocument(doc.extractedData.value, logs))
  {
    if docs == [] then UploadPrompt
    else match Latest(docs)
      case None => StillProcessing
      case Some(k) =>
        match docs[k].extractedData
        case None => StillProcessing
        case Some(d) => if remote.Some? then remote.value else InsightFromDocument(d, logs)
  }

  /** Among completed documents uploaded at the same instant, the first listed is chosen. */
  lemma TiesGoToFirst(docs: seq<MedicalDocument>, i: nat, j: nat)
    requires i < j < |docs| && Done(docs[i]) && Done(docs[j]) && docs[i].uploadDate == docs[j].uploadDate
    ensures Latest(docs) != Some(j)
  {
  }
}
