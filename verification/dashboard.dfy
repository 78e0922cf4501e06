/** The insights page's metrics: recovery, strain and sleep scores, trend
    badges and recommendations, all computed from the last seven logs. */
module Dashboard {
  import opened Records
  import opened Seqs
  import opened Gamification
  import Text

  datatype Direction = Up | Down

  /** The four trend badges. */
  datatype TrendKind = StrongSleep | SleepAttention | StressControl | MoodStreak

  /** A badge and its count text (`${n}/7 days`, `${n} poor nights`). */
  datatype Trend = Trend(kind: TrendKind, value: string)

  datatype Priority = High | Medium | Low

  datatype Recommendation = Recommendation(title: string, description: string, priority: Priority)

  datatype Metrics = Metrics(
    recovery: int,
    strain: int,
    sleepScore: int,
    trends: seq<Trend>,
    recommendations: seq<Recommendation>)

  const NoMetrics: Metrics := Metrics(0, 0, 0, [], [])

  /** The counts the metrics are computed from, over one window of logs. */
  datatype Tally = Tally(size: nat, goodSleep: nat, poorSleep: nat, lowStress: nat, highStress: nat, happyMood: nat)

  /** Counts never exceed the window, and a window is never empty. */
  predicate ValidTally(t: Tally) {
    && t.size > 0
    && t.goodSleep <= t.size && t.poorSleep <= t.size
    && t.lowStress <= t.size && t.highStress <= t.size && t.happyMood <= t.size
  }

  /** `logs.slice(-7)`. */
  function Window(logs: seq<Log>): (w: seq<Log>)
    ensures |w| == Min(7, |logs|)
    ensures forall i :: 0 <= i < |w| ==> w[i] == logs[|logs| - |w| + i]
  {
    Last(logs, 7)
  }

  function TallyOf(w: seq<Log>): (t: Tally)
    requires w != []
    ensures ValidTally(t)
  {
    Tally(|w|, Count(w, SleptWell), Count(w, SleptBadly), Count(w, StressedLow), Count(w, StressedHigh), Count(w, FeltHappy))
  }

  /** `Math.round(part / whole * 100)`: the percentage, rounded to the nearest integer. */
  function RoundedPercent(part: nat, whole: nat): (r: int)
    requires whole > 0
    ensures (r as real - 0.5) * whole as real <= 100.0 * part as real < (r as real + 0.5) * whole as real
    ensures part <= whole ==> 0 <= r <= 100
  {
    var q := (200 * part + whole) / (2 * whole);
    NearestPercent(part, whole, q);
    q
  }

  lemma NearestPercent(part: nat, whole: nat, q: int)
    requires whole > 0 && q == (200 * part + whole) / (2 * whole)
    ensures (q as real - 0.5) * whole as real <= 100.0 * part as real < (q as real + 0.5) * whole as real
    ensures part <= whole ==> 0 <= q <= 100
  {
    var lhs := q * (2 * whole);
    QuotientBounds(200 * part + whole, 2 * whole, q);
    HalfSteps(q, whole);
    if part <= whole {
      assert lhs <= 201 * whole;
      QuotientAtMost(q, whole);
    }
  }

  /** `n / d` is the largest multiple of `d` not above `n`. */
  lemma QuotientBounds(n: int, d: int, q: int)
    requires d > 0 && q == n / d
    ensures q * d <= n < q * d + d
  {
  }

  lemma HalfSteps(q: int, whole: nat)
    ensures (q as real - 0.5) * whole as real == (q * (2 * whole) - whole) as real / 2.0
    ensures (q as real + 0.5) * whole as real == (q * (2 * whole) + whole) as real / 2.0
  {
    assert (q * (2 * whole)) as real == 2.0 * (q as real * whole as real);
  }

  lemma QuotientAtMost(q: int, whole: int)
    requires whole > 0 && q * (2 * whole) <= 201 * whole
    ensures q <= 100
  {
    var x := q - 100;
    assert x * (2 * whole) == q * (2 * whole) - 200 * whole;
    SignOfProduct(x, 2 * whole);
  }

  lemma SignOfProduct(x: int, y: int)
    requires y > 0
    ensures x >= 1 ==> x * y >= y
  {
  }

  /** `Math.min(21, Math.round((highStress * 2 + poorSleep * 1.5) * 1.5))`. */
  function Strain(highStress: nat, poorSleep: nat): (r: int)
    ensures 0 <= r <= 21
    ensures var load := 1.5 * (2.0 * highStress as real + 1.5 * poorSleep as real);
      && (r < 21 ==> r as real - 0.5 <= load < r as real + 0.5)
      && (r == 21 ==> load >= 20.5)
  {
    Min(21, (12 * highStress + 9 * poorSleep + 2) / 4)
  }

  /** More stress or more bad nights never lower the strain. */
  lemma StrainMonotone(hs1: nat, ps1: nat, hs2: nat, ps2: nat)
    requires hs1 <= hs2 && ps1 <= ps2
    ensures Strain(hs1, ps1) <= Strain(hs2, ps2)
  {
    assert 12 * hs1 + 9 * ps1 + 2 <= 12 * hs2 + 9 * ps2 + 2;
  }

  function Title(k: TrendKind): string {
    match k
    case StrongSleep => "Strong Sleep Pattern"
    case SleepAttention => "Sleep Needs Attention"
    case StressControl => "Stress Under Control"
    case MoodStreak => "Positive Mood Streak"
  }

  function DirectionOf(k: TrendKind): Direction {
    if k == SleepAttention then Down else Up
  }

  /** The badges' topics in display order: sleep, stress, mood. */
  function TopicRank(k: TrendKind): nat {
    match k
    case StrongSleep => 0
    case SleepAttention => 0
    case StressControl => 1
    case MoodStreak => 2
  }

  /** Which badges show: a strong-sleep badge, otherwise possibly a sleep
      warning; then the stress and mood badges, each at five days of the window. */
  function TrendKinds(t: Tally): (ks: seq<TrendKind>)
    ensures |ks| <= 3
    ensures forall i, j :: 0 <= i < j < |ks| ==> TopicRank(ks[i]) < TopicRank(ks[j])
    ensures StrongSleep in ks <==> t.goodSleep >= 5
    ensures SleepAttention in ks <==> t.goodSleep < 5 && t.poorSleep >= 3
    ensures StressControl in ks <==> t.lowStress >= 5
    ensures MoodStreak in ks <==> t.happyMood >= 5
  {
    (if t.goodSleep >= 5 then [StrongSleep] else if t.poorSleep >= 3 then [SleepAttention] else [])
    + (if t.lowStress >= 5 then [StressControl] else [])
    + (if t.happyMood >= 5 then [MoodStreak] else [])
  }

  /** The count a badge displays. */
  function TrendValue(k: TrendKind, t: Tally): string {
    match k
    case StrongSleep => Text.NatToString(t.goodSleep) + "/7 days"
    case SleepAttention => Text.NatToString(t.poorSleep) + " poor nights"
    case StressControl => Text.NatToString(t.lowStress) + "/7 days"
    case MoodStreak => Text.NatToString(t.happyMood) + "/7 days"
  }

  function Trends(t: Tally): (ts: seq<Trend>)
    ensures |ts| == |TrendKinds(t)|
    ensures forall i :: 0 <= i < |ts| ==> ts[i] == Trend(TrendKinds(t)[i], TrendValue(TrendKinds(t)[i], t))
  {
    var ks := TrendKinds(t);
    seq(|ks|, i requires 0 <= i < |ks| => Trend(ks[i], TrendValue(ks[i], t)))
  }

  const PrioritizeSleep: Recommendation := Recommendation(
    "Prioritize Sleep",
    "Your sleep quality is impacting recovery. Try going to bed 30min earlier.",
    Priority.High)
  const ReduceStrain: Recommendation := Recommendation(
    "Reduce Strain",
    "High stress detected multiple times. Consider meditation or light activity.",
    Priority.Medium)
  const OptimalRecovery: Recommendation := Recommendation(
    "Optimal Recovery",
    "You're recovered! This is a great day for challenging activities.",
    Priority.Low)

  function PriorityRank(p: Priority): nat {
    match p
    case High => 0
    case Medium => 1
    case Low => 2
  }

  /** Which recommendations show, high before medium before low priority, each triggered by its own threshold. */
  function RecommendationPriorities(sleepScore: int, highStress: nat, recovery: int): (ps: seq<Priority>)
    ensures |ps| <= 3
    ensures forall i, j :: 0 <= i < j < |ps| ==> PriorityRank(ps[i]) < PriorityRank(ps[j])
    ensures Priority.High in ps <==> sleepScore < 60
    ensures Priority.Medium in ps <==> highStress >= 3
    ensures Priority.Low in ps <==> recovery > 80
  {
    (if sleepScore < 60 then [Priority.High] else [])
    + (if highStress >= 3 then [Priority.Medium] else [])
    + (if recovery > 80 then [Priority.Low] else [])
  }

  function RecommendationFor(p: Priority): (r: Recommendation)
    ensures r.priority == p
  {
    match p
    case High => PrioritizeSleep
    case Medium => ReduceStrain
    case Low => OptimalRecovery
  }

  function Recommendations(sleepScore: int, highStress: nat, recovery: int): (rs: seq<Recommendation>)
    ensures var ps := RecommendationPriorities(sleepScore, highStress, recovery);
      |rs| == |ps| && forall i :: 0 <= i < |rs| ==> rs[i] == RecommendationFor(ps[i])
  {
    var ps := RecommendationPriorities(sleepScore, highStress, recovery);
    seq(|ps|, i requires 0 <= i < |ps| => RecommendationFor(ps[i]))
  }

  /** The metrics of one window's counts. */
  function MetricsOf(t: Tally): (m: Metrics)
    requires ValidTally(t)
    ensures 0 <= m.recovery <= 100 && 0 <= m.strain <= 21 && 0 <= m.sleepScore <= 100
    ensures m.recovery == RoundedPercent(t.goodSleep + t.lowStress + t.happyMood, 3 * t.size)
    ensures m.sleepScore == RoundedPercent(t.goodSleep, t.size)
    ensures m.strain == Strain(t.highStress, t.poorSleep)
    ensures m.trends == Trends(t)
    ensures m.recommendations == Recommendations(m.sleepScore, t.highStress, m.recovery)
  {
    var recovery := RoundedPercent(t.goodSleep + t.lowStress + t.happyMood, 3 * t.size);
    var sleepScore := RoundedPercent(t.goodSleep, t.size);
    Metrics(recovery, Strain(t.highStress, t.poorSleep), sleepScore, Trends(t), Recommendations(sleepScore, t.highStress, recovery))
  }

  /** The `insights` computation: nothing under two logs, otherwise the metrics of the last seven. */
  function Insights(logs: seq<Log>): (m: Metrics)
    ensures |logs| < 2 ==> m == NoMetrics
    ensures |logs| >= 2 ==> m == MetricsOf(TallyOf(Window(logs)))
  {
    if |logs| < 2 then NoMetrics else MetricsOf(TallyOf(Window(logs)))
  }

  /** Whatever the history, the scores stay in range and there are at most three trends and three recommendations. */
  lemma InsightsBounds(logs: seq<Log>)
    ensures var m := Insights(logs);
      && 0 <= m.recovery <= 100 && 0 <= m.strain <= 21 && 0 <= m.sleepScore <= 100
      && |m.trends| <= 3 && |m.recommendations| <= 3
  {
  }

  /** Only the last seven logs count: older history never changes the metrics. */
  lemma OlderLogsIgnored(older: seq<Log>, recent: seq<Log>)
    requires |recent| >= 7
    ensures Insights(older + recent) == Insights(recent)
  {
    var all := older + recent;
    assert Window(all) == Window(recent) by {
      assert forall i :: 0 <= i < 7 ==> Window(all)[i] == all[|all| - 7 + i] == recent[|recent| - 7 + i];
    }
  }

  /** Seven perfect days count as seven good nights, calm days and happy days, and no bad ones. */
  lemma PerfectDaysTally(logs: seq<Log>)
    requires |logs| == 7 && forall i :: 0 <= i < |logs| ==> logs[i].data == Storage.PerfectDay
    ensures TallyOf(Window(logs)) == Tally(7, 7, 0, 7, 0, 7)
  {
    var w := Window(logs);
    assert w == logs;
    CountAllIff(w, SleptWell);
    CountAllIff(w, StressedLow);
    CountAllIff(w, FeltHappy);
    assert Count(w, SleptBadly) == 0 by {
      CountPositiveIff(w, SleptBadly);
    }
    assert Count(w, StressedHigh) == 0 by {
      CountPositiveIff(w, StressedHigh);
    }
  }

  /** A week of perfect days scores full recovery and sleep, no strain, all three up-trends and only the low-priority recommendation. */
  lemma PerfectDaysScore(logs: seq<Log>)
    requires |logs| == 7 && forall i :: 0 <= i < |logs| ==> logs[i].data == Storage.PerfectDay
    ensures var m := Insights(logs);
      && m.recovery == 100 && m.sleepScore == 100 && m.strain == 0
      && |m.trends| == 3 && m.recommendations == [OptimalRecovery]
  {
    PerfectDaysTally(logs);
    var t := Tally(7, 7, 0, 7, 0, 7);
    assert RoundedPercent(21, 21) == 100 && RoundedPercent(7, 7) == 100;
    assert TrendKinds(t) == [StrongSleep, StressControl, MoodStreak];
    assert RecommendationPriorities(100, 0, 100) == [Priority.Low];
  }

  /** The seeded demo week is such a perfect week. */
  lemma PerfectWeek(now: Millis)
    ensures var m := Insights(Storage.GetLogs(Storage.SeedDemoData(now)));
      && m.recovery == 100 && m.sleepScore == 100 && m.strain == 0
      && |m.trends| == 3 && m.recommendations == [OptimalRecovery]
  {
    var logs := Storage.GetLogs(Storage.SeedDemoData(now));
    assert forall i :: 0 <= i < |logs| ==> logs[i].data == Storage.PerfectDay;
    PerfectDaysScore(logs);
  }
}
