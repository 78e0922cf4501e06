/** The scoring engine: XP per log, the daily streak, the avatar's mood, the
    rotating insight text, the confidence level and the leaderboard. Every
    operation reads the store it is given instead of the browser's storage. */
module Gamification {
  import opened Wrappers
  import opened Records
  import opened Storage
  import opened Seqs
  import Text

  // ---------------------------------------------------------------- XP

  datatype XPGain = XPGain(base: int, bonus: int, total: int, reason: string)

  const BaseXP: int := 10
  const CompletionBonus: int := 20

  /** `calculateXPGain`: ten points for any log, twenty more when every category is filled. */
  function CalculateXPGain(d: LogData): (g: XPGain)
    ensures g.base == 10
    ensures g.bonus == (if IsComplete(d) then 20 else 0)
    ensures g.total == g.base + g.bonus
    ensures g.total == 10 || g.total == 30
    ensures g.total == 30 <==> IsComplete(d)
    ensures g.reason == (if IsComplete(d) then "All categories filled!" else "Log submitted")
  {
    var bonus := if FilledCount(d) == 5 then CompletionBonus else 0;
    XPGain(BaseXP, bonus, BaseXP + bonus, if bonus > 0 then "All categories filled!" else "Log submitted")
  }

  /** `addXP`: adds exactly `amount` to the user's xp and changes nothing else; throws without a user. */
  function AddXP(s: Store, amount: int): (r: Result<Store, Error>)
    ensures r.Failure? <==> GetUser(s).None?
    ensures r.Success? ==>
      && GetLogs(r.value) == GetLogs(s)
      && GetUser(r.value).Some?
      && GetUser(r.value).value.xp == GetUser(s).value.xp + amount
      && GetUser(r.value).value.(xp := 0) == GetUser(s).value.(xp := 0)
  {
    match s.user
    case None => Failure(NoUserFound)
    case Some(u) => Success(SaveUser(s, u.(xp := u.xp + amount)))
  }

  // ------------------------------------------------------------ streak

  datatype StreakStatus = StreakStatus(current: int, broken: bool, lastLogDate: Option<Millis>)

  /** `Math.floor((now - last) / DayMillis)`: the number of whole days elapsed, rounded towards minus infinity. */
  function DaysBetween(last: Millis, now: Millis): (d: int)
    ensures d * DayMillis <= now - last < (d + 1) * DayMillis
  {
    (now - last) / DayMillis
  }

  /** `updateStreak` at instant `now`, with `cal` giving calendar days. */
  function UpdateStreak(s: Store, now: Millis, cal: Calendar): (r: Result<(Store, StreakStatus), Error>)
    ensures r.Failure? <==> GetUser(s).None?
    ensures r.Success? ==>
      var u := GetUser(s).value;
      var s' := r.value.0;
      var st := r.value.1;
      && GetLogs(s') == GetLogs(s)
      && GetUser(s').Some?
      // only the streak and the last-log instant can change
      && GetUser(s').value == u.(streak := GetUser(s').value.streak, lastLogDate := GetUser(s').value.lastLogDate)
      // the reported status is what is now stored
      && st.current == GetUser(s').value.streak
      && st.lastLogDate == GetUser(s').value.lastLogDate
      && st.lastLogDate.Some?
      && (st.broken ==> st.current == 1)
      // first log ever
      && (u.lastLogDate.None? ==> st == StreakStatus(1, false, Some(now)))
      // already logged today: nothing changes
      && (u.lastLogDate.Some? && cal(u.lastLogDate.value) == cal(now) ==> s' == s && !st.broken)
      // on a different day, by whole days elapsed
      && (u.lastLogDate.Some? && cal(u.lastLogDate.value) != cal(now) ==>
            var days := DaysBetween(u.lastLogDate.value, now);
            && (days == 1 ==> st == StreakStatus(u.streak + 1, false, Some(now)))
            && (days > 1 ==> st == StreakStatus(1, true, Some(now)))
            && (days < 1 ==> s' == s && !st.broken))
  {
    match s.user
    case None => Failure(NoUserFound)
    case Some(u) =>
      match u.lastLogDate
      case None =>
        var u' := u.(streak := 1, lastLogDate := Some(now));
        Success((SaveUser(s, u'), StreakStatus(1, false, Some(now))))
      case Some(last) =>
        if cal(last) == cal(now) then
          Success((s, StreakStatus(u.streak, false, Some(last))))
        else
          var days := DaysBetween(last, now);
          if days == 1 then
            var u' := u.(streak := u.streak + 1, lastLogDate := Some(now));
            Success((SaveUser(s, u'), StreakStatus(u'.streak, false, Some(now))))
          else if days > 1 then
            var u' := u.(streak := 1, lastLogDate := Some(now));
            Success((SaveUser(s, u'), StreakStatus(1, true, Some(now))))
          else
            Success((SaveUser(s, u), StreakStatus(u.streak, false, Some(last))))
  }

  /** Repeating the update changes nothing: at the same instant always, and at
      any later instant of the same calendar day once the first call recorded its instant. */
  lemma StreakRepeatIsIdempotent(s: Store, now: Millis, later: Millis, cal: Calendar)
    requires UpdateStreak(s, now, cal).Success?
    ensures var (s1, st1) := UpdateStreak(s, now, cal).value;
      UpdateStreak(s1, now, cal) == Success((s1, st1.(broken := false)))
    ensures var (s1, st1) := UpdateStreak(s, now, cal).value;
      st1.lastLogDate == Some(now) && cal(later) == cal(now) ==>
        UpdateStreak(s1, later, cal) == Success((s1, st1.(broken := false)))
  {
    var (s1, st1) := UpdateStreak(s, now, cal).value;
    assert GetUser(s1).value.lastLogDate == st1.lastLogDate;
  }

  /** The streak's movement depends only on the stored streak and last-log instant, not on the rest of the user or the logs. */
  lemma StreakIgnoresOtherFields(s1: Store, s2: Store, now: Millis, cal: Calendar)
    requires GetUser(s1).Some? && GetUser(s2).Some?
    requires GetUser(s1).value.streak == GetUser(s2).value.streak
    requires GetUser(s1).value.lastLogDate == GetUser(s2).value.lastLogDate
    ensures UpdateStreak(s1, now, cal).value.1 == UpdateStreak(s2, now, cal).value.1
  {
  }

  /** The update keeps the user record consistent: a recorded last log comes with a streak of at least one. */
  lemma StreakKeepsUserInv(s: Store, now: Millis, cal: Calendar)
    requires StoreInv(s) && GetUser(s).Some?
    ensures StoreInv(UpdateStreak(s, now, cal).value.0)
    ensures UpdateStreak(s, now, cal).value.1.current >= 1
  {
  }

  // ------------------------------------------------------------ avatar

  datatype AvatarMood = Happy | Neutral | Low | Energized | Tired

  datatype AvatarView = AvatarView(state: AvatarMood, color: string, scale: real)

  /** The fixed palette, one colour per mood. */
  function MoodColor(m: AvatarMood): string {
    match m
    case Neutral => "hsl(180, 25%, 65%)"
    case Energized => "hsl(145, 55%, 55%)"
    case Happy => "hsl(50, 88%, 60%)"
    case Tired => "hsl(215, 30%, 50%)"
    case Low => "hsl(345, 60%, 62%)"
  }

  /** The mood one log shows, by first-match precedence: happy and well slept,
      happy, badly slept, low or stressed, otherwise neutral. */
  function MoodOf(d: LogData): (m: AvatarMood)
    ensures m == AvatarMood.Energized <==> d.mood == Some(Mood.Happy) && d.sleep == Some(Good)
    ensures m == AvatarMood.Happy <==> d.mood == Some(Mood.Happy) && d.sleep != Some(Good)
    ensures m == AvatarMood.Tired <==> d.mood != Some(Mood.Happy) && d.sleep == Some(Poor)
    ensures m == AvatarMood.Low <==>
      d.mood != Some(Mood.Happy) && d.sleep != Some(Poor) && (d.mood == Some(Mood.Low) || d.stress == Some(Stress.High))
    ensures m == AvatarMood.Neutral <==>
      d.mood != Some(Mood.Happy) && d.sleep != Some(Poor) && d.mood != Some(Mood.Low) && d.stress != Some(Stress.High)
  {
    if d.mood == Some(Mood.Happy) && d.sleep == Some(Good) then AvatarMood.Energized
    else if d.mood == Some(Mood.Happy) then AvatarMood.Happy
    else if d.sleep == Some(Poor) then AvatarMood.Tired
    else if d.mood == Some(Mood.Low) || d.stress == Some(Stress.High) then AvatarMood.Low
    else AvatarMood.Neutral
  }

  /** `getAvatarState`: the mood of the most recent log, neutral without a user or logs; the scale is fixed. */
  function AvatarState(s: Store): (v: AvatarView)
    ensures v.scale == 1.0
    ensures v.color == MoodColor(v.state)
    ensures GetUser(s).None? || GetLogs(s) == [] ==> v.state == AvatarMood.Neutral
    ensures GetUser(s).Some? && GetLogs(s) != [] ==> v.state == MoodOf(GetLogs(s)[|GetLogs(s)| - 1].data)
  {
    if s.user.None? || |s.logs| == 0 then AvatarView(AvatarMood.Neutral, MoodColor(AvatarMood.Neutral), 1.0)
    else
      var state := MoodOf(s.logs[|s.logs| - 1].data);
      AvatarView(state, MoodColor(state), 1.0)
  }

  /** Only the last log matters: stores with a user and the same last entry show the same avatar, whatever came before. */
  lemma AvatarDependsOnlyOnLastLog(s1: Store, s2: Store, d: LogData, l1: Log, l2: Log)
    requires GetUser(s1).Some? && GetUser(s2).Some?
    requires l1.data == d && l2.data == d
    ensures AvatarState(s1.(logs := GetLogs(s1) + [l1])) == AvatarState(s2.(logs := GetLogs(s2) + [l2]))
  {
  }

  /** A happy, well-slept last log makes the avatar energized whatever the other categories say. */
  lemma HappyAndRestedIsEnergized(s: Store, l: Log)
    requires GetUser(s).Some?
    requires l.data.mood == Some(Mood.Happy) && l.data.sleep == Some(Good)
    ensures AvatarState(s.(logs := GetLogs(s) + [l])).state == AvatarMood.Energized
  {
  }

  // ----------------------------------------------------------- insight

  const KeepLoggingInsight: string := "Keep logging to unlock personalized insights about your health patterns!"
  const EnergyInsight: string := "Your energy peaks when sleep is good + supplements are consistent."
  const PositiveMoodInsight: string := "You're on a positive streak! Your mood has been consistently good."
  const HighStressInsight: string := "High stress detected in recent logs. Consider our stress management tips."
  const PoorSleepInsight: string := "Poor sleep patterns detected. Focus on sleep hygiene for better energy."
  const GenericInsights: seq<string> := [
    "Your health patterns are taking shape. Keep logging to see clearer insights!",
    "Every log helps build your personalized health profile.",
    "Consistency is key - you're building valuable health data."
  ]

  predicate SleptWell(l: Log) {
    l.data.sleep == Some(Good)
  }

  predicate SleptBadly(l: Log) {
    l.data.sleep == Some(Poor)
  }

  predicate FeltHappy(l: Log) {
    l.data.mood == Some(Mood.Happy)
  }

  predicate TookSupplements(l: Log) {
    l.data.supplements == Some(Taken)
  }

  predicate StressedHigh(l: Log) {
    l.data.stress == Some(Stress.High)
  }

  predicate StressedLow(l: Log) {
    l.data.stress == Some(Stress.Low)
  }

  /** `generateInsight`: a pattern message about the last three logs, or a rotating generic one. */
  function GenerateInsight(logs: seq<Log>): (r: string)
    ensures |logs| < 2 ==> r == KeepLoggingInsight
    ensures r in {KeepLoggingInsight, EnergyInsight, PositiveMoodInsight, HighStressInsight, PoorSleepInsight}
      || r in GenericInsights
    ensures r in GenericInsights ==> r == GenericInsights[|logs| % |GenericInsights|]
  {
    if |logs| < 2 then KeepLoggingInsight
    else
      var recent := Last(logs, 3);
      var goodSleep := Count(recent, SleptWell);
      var happyMood := Count(recent, FeltHappy);
      var supplements := Count(recent, TookSupplements);
      InsightChoice(
        goodSleep == |recent| && supplements == |recent|,
        happyMood == |recent|,
        exists i :: 0 <= i < |recent| && StressedHigh(recent[i]),
        exists i :: 0 <= i < |recent| && SleptBadly(recent[i]),
        |logs|)
  }

  /** The pattern messages differ from each other and from every generic one. */
  lemma InsightsDistinct()
    ensures EnergyInsight != PositiveMoodInsight && EnergyInsight != HighStressInsight && EnergyInsight != PoorSleepInsight
    ensures PositiveMoodInsight != HighStressInsight && PositiveMoodInsight != PoorSleepInsight && HighStressInsight != PoorSleepInsight
    ensures forall g :: g in GenericInsights ==>
      g != EnergyInsight && g != PositiveMoodInsight && g != HighStressInsight && g != PoorSleepInsight
  {
    // all lengths differ but these two, which part at their closing words
    assert EnergyInsight[64] != PositiveMoodInsight[64];
  }

  /** The insight rules in order of precedence: energy, mood, stress, sleep, and
      otherwise the generic message the number of logs rotates to. */
  function InsightChoice(rested: bool, happy: bool, stressed: bool, poorSleep: bool, count: nat): (r: string)
    ensures r == EnergyInsight <==> rested
    ensures r == PositiveMoodInsight <==> !rested && happy
    ensures r == HighStressInsight <==> !rested && !happy && stressed
    ensures r == PoorSleepInsight <==> !rested && !happy && !stressed && poorSleep
    ensures r in GenericInsights <==> !rested && !happy && !stressed && !poorSleep
    ensures !rested && !happy && !stressed && !poorSleep ==> r == GenericInsights[count % |GenericInsights|]
  {
    InsightsDistinct();
    if rested then EnergyInsight
    else if happy then PositiveMoodInsight
    else if stressed then HighStressInsight
    else if poorSleep then PoorSleepInsight
    else GenericInsights[count % |GenericInsights|]
  }

  predicate RestedAndSupplemented(w: seq<Log>) {
    forall i :: 0 <= i < |w| ==> SleptWell(w[i]) && TookSupplements(w[i])
  }

  predicate AllHappy(w: seq<Log>) {
    forall i :: 0 <= i < |w| ==> FeltHappy(w[i])
  }

  predicate AnyHighStress(w: seq<Log>) {
    exists i :: 0 <= i < |w| && StressedHigh(w[i])
  }

  predicate AnyPoorSleep(w: seq<Log>) {
    exists i :: 0 <= i < |w| && SleptBadly(w[i])
  }

  /** Past the second log, the insight is the first rule that holds over the last (up to) three logs:
      all rested and supplemented, all happy, any highly stressed, any poorly slept, or none of these. */
  lemma {:induction false} InsightPrecedence(logs: seq<Log>)
    requires |logs| >= 2
    ensures var w := Last(logs, 3);
      GenerateInsight(logs) == InsightChoice(RestedAndSupplemented(w), AllHappy(w), AnyHighStress(w), AnyPoorSleep(w), |logs|)
  {
    var w := Last(logs, 3);
    CountAllIff(w, SleptWell);
    CountAllIff(w, TookSupplements);
    CountAllIff(w, FeltHappy);
    assert RestedAndSupplemented(w) <==> Count(w, SleptWell) == |w| && Count(w, TookSupplements) == |w|;
  }

  // -------------------------------------------------------- confidence

  datatype Level = Low | Medium | High

  datatype Confidence = Confidence(level: Level, message: string)

  function LevelRank(l: Level): nat {
    match l
    case Low => 0
    case Medium => 1
    case High => 2
  }

  /** `getConfidenceLevel`: low under three logs (saying how many are missing), medium under eight, then high. */
  function ConfidenceLevel(logs: seq<Log>): (c: Confidence)
    ensures |logs| < 3 <==> c.level == Level.Low
    ensures 3 <= |logs| < 8 <==> c.level == Level.Medium
    ensures |logs| >= 8 <==> c.level == Level.High
    ensures |logs| < 3 ==> c.message == "Need " + Text.NatToString(3 - |logs|) + " more logs"
  {
    var count := |logs|;
    if count < 3 then Confidence(Level.Low, "Need " + Text.NatToString(3 - count) + " more logs")
    else if count < 8 then Confidence(Level.Medium, "Getting clearer")
    else Confidence(Level.High, "High confidence")
  }

  /** More logs never lower the confidence level. */
  lemma ConfidenceMonotone(a: seq<Log>, b: seq<Log>)
    requires |a| <= |b|
    ensures LevelRank(ConfidenceLevel(a).level) <= LevelRank(ConfidenceLevel(b).level)
  {
  }

  // ------------------------------------------------------- leaderboard

  /** A leaderboard row; the consistency score is kept doubled, in half points, so it stays an integer. */
  datatype Entry = Entry(id: string, name: string, xp: int, streak: int, consistencyHalves: nat, avatarType: Avatar)

  /** The three fixed peers, with scores 7.5, 8 and 10. */
  const Friends: seq<Entry> := [
    Entry("friend_1", "Sarah", 180, 5, 15, Calm),
    Entry("friend_2", "Mike", 150, 6, 16, Charger),
    Entry("friend_3", "Emma", 220, 8, 20, Explorer)
  ]

  /** The calendar days on which some log was written. */
  function DaysLogged(logs: seq<Log>, cal: Calendar): (days: set<int>)
    ensures |days| <= |logs|
    ensures forall i :: 0 <= i < |logs| ==> cal(logs[i].timestamp) in days
    ensures forall d :: d in days ==> exists i :: 0 <= i < |logs| && cal(logs[i].timestamp) == d
    decreases |logs|
  {
    if logs == [] then {}
    else
      var rest := DaysLogged(logs[..|logs| - 1], cal);
      var d := cal(logs[|logs| - 1].timestamp);
      assert forall i :: 0 <= i < |logs| - 1 ==> logs[..|logs| - 1][i] == logs[i];
      rest + {d}
  }

  predicate IsCompleteLog(l: Log) {
    IsComplete(l.data)
  }

  /** The current user's row: named "You", scored by distinct days logged plus half a point per complete log. */
  function UserEntry(u: User, logs: seq<Log>, cal: Calendar): (e: Entry)
    ensures e.id == u.id && e.name == "You" && e.xp == u.xp && e.streak == u.streak && e.avatarType == u.avatarType
    ensures e.consistencyHalves as real / 2.0
      == |DaysLogged(logs, cal)| as real + 0.5 * Count(logs, IsCompleteLog) as real
  {
    Entry(u.id, "You", u.xp, u.streak, 2 * |DaysLogged(logs, cal)| + Count(logs, IsCompleteLog), u.avatarType)
  }

  predicate NonIncreasing(es: seq<Entry>) {
    forall i, j :: 0 <= i < j < |es| ==> es[i].consistencyHalves >= es[j].consistencyHalves
  }

  /** `x` sits at position `k`, and everything before it has a strictly higher score. */
  predicate PlacedAheadOfTies(r: seq<Entry>, x: Entry, k: int) {
    0 <= k < |r| && r[k] == x && forall i :: 0 <= i < k ==> r[i].consistencyHalves > x.consistencyHalves
  }

  /** Where a stable descending sort places `x` when it came before all of `t`:
      after the entries with a strictly higher score. */
  function InsertPos(x: Entry, t: seq<Entry>): (k: nat)
    ensures k <= |t|
    ensures forall i :: 0 <= i < k ==> t[i].consistencyHalves > x.consistencyHalves
    ensures k < |t| && NonIncreasing(t) ==> forall i :: k <= i < |t| ==> t[i].consistencyHalves <= x.consistencyHalves
    decreases |t|
  {
    if t == [] || t[0].consistencyHalves <= x.consistencyHalves then 0 else 1 + InsertPos(x, t[1..])
  }

  function Insert(x: Entry, t: seq<Entry>): (r: seq<Entry>)
    ensures |r| == |t| + 1
    ensures multiset(r) == multiset(t) + multiset{x}
    ensures NonIncreasing(t) ==> NonIncreasing(r)
  {
    var k := InsertPos(x, t);
    assert t == t[..k] + t[k..];
    InsertKeepsOrder(x, t, k);
    t[..k] + [x] + t[k..]
  }

  lemma InsertKeepsOrder(x: Entry, t: seq<Entry>, k: nat)
    requires k == InsertPos(x, t)
    ensures NonIncreasing(t) ==> NonIncreasing(t[..k] + [x] + t[k..])
  {
    if !NonIncreasing(t) {
      return;
    }
    var r := t[..k] + [x] + t[k..];
    assert forall i :: 0 <= i < k ==> r[i] == t[i];
    assert r[k] == x;
    assert forall i :: k < i < |r| ==> r[i] == t[i - 1];
    forall i, j | 0 <= i < j < |r|
      ensures r[i].consistencyHalves >= r[j].consistencyHalves
    {
      if j < k {
      } else if j == k {
      } else if i < k {
      } else if i == k {
      } else {
      }
    }
  }

  /** `entries.sort((a, b) => b.consistencyScore - a.consistencyScore)`: a stable sort, highest score first. */
  function SortByConsistency(es: seq<Entry>): (r: seq<Entry>)
    ensures |r| == |es|
    ensures multiset(r) == multiset(es)
    ensures NonIncreasing(r)
    decreases |es|
  {
    if es == [] then []
    else
      assert es == [es[0]] + es[1..];
      Insert(es[0], SortByConsistency(es[1..]))
  }

  /** `getLeaderboard`: empty without a user; otherwise the user and the three
      peers, highest score first, the user ahead of any peer with the same score. */
  function Leaderboard(s: Store, cal: Calendar): (r: seq<Entry>)
    ensures GetUser(s).None? ==> r == []
    ensures GetUser(s).Some? ==>
      var me := UserEntry(GetUser(s).value, GetLogs(s), cal);
      && |r| == 4
      && NonIncreasing(r)
      && multiset(r) == multiset([me] + Friends)
      && exists k :: PlacedAheadOfTies(r, me, k)
  {
    match s.user
    case None => []
    case Some(u) =>
      var me := UserEntry(u, s.logs, cal);
      FirstEntryAheadOfTies(me, Friends);
      SortByConsistency([me] + Friends)
  }

  /** The entry that comes first in the input ends up ahead of every entry with the same score. */
  lemma FirstEntryAheadOfTies(x: Entry, rest: seq<Entry>)
    ensures exists k :: PlacedAheadOfTies(SortByConsistency([x] + rest), x, k)
  {
    assert ([x] + rest)[0] == x;
    assert ([x] + rest)[1..] == rest;
    var t := SortByConsistency(rest);
    var k := InsertPos(x, t);
    var r := SortByConsistency([x] + rest);
    assert r == t[..k] + [x] + t[k..];
    assert r[k] == x;
    assert forall i :: 0 <= i < k ==> r[i] == t[i];
    assert PlacedAheadOfTies(r, x, k);
  }

  /** The demo history is consistent with the XP rules: seven complete logs at thirty points each. */
  lemma SeedMatchesXPRules(now: Millis)
    ensures GetUser(SeedDemoData(now)).value.xp
      == |GetLogs(SeedDemoData(now))| * CalculateXPGain(PerfectDay).total
  {
  }
}
