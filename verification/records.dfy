/** The record shapes of the app: the five log categories with their fixed
    vocabularies, a log, the onboarding answers and the user. */
module Records {
  import opened Wrappers

  /** A point in time, in milliseconds since the epoch (`Date.getTime()`). */
  type Millis = int

  /** The local calendar day of an instant, standing in for `Date.toDateString()`;
      it depends on the host's time zone, so it is always a parameter. */
  type Calendar = Millis -> int

  /** `1000 * 60 * 60 * 24`. */
  const DayMillis: int := 86400000

  datatype Food = Clean | Gluten | Sugar | Alcohol
  datatype Sleep = Good | Poor
  datatype Mood = Happy | Neutral | Low
  datatype Stress = Low | Medium | High
  datatype Supplements = Taken | Skipped

  /** The user-entered part of a log: each category is optional. */
  datatype LogData = LogData(
    food: Option<Food>,
    sleep: Option<Sleep>,
    mood: Option<Mood>,
    stress: Option<Stress>,
    supplements: Option<Supplements>)

  /** The empty form: no category chosen. */
  const NoEntries: LogData := LogData(None, None, None, None, None)

  /** All five categories are set. */
  predicate IsComplete(d: LogData) {
    d.food.Some? && d.sleep.Some? && d.mood.Some? && d.stress.Some? && d.supplements.Some?
  }

  /** The number of categories with a (truthy) value. */
  function FilledCount(d: LogData): (n: nat)
    ensures n <= 5
    ensures n == 5 <==> IsComplete(d)
    ensures n == 0 <==> d == NoEntries
  {
    (if d.food.Some? then 1 else 0) + (if d.sleep.Some? then 1 else 0) + (if d.mood.Some? then 1 else 0)
    + (if d.stress.Some? then 1 else 0) + (if d.supplements.Some? then 1 else 0)
  }

  /** The "honest but bad" entry test shared by the log form and the home page. */
  predicate HasNegativeData(d: LogData)
    ensures HasNegativeData(d) ==> FilledCount(d) > 0
  {
    || d.mood == Some(Mood.Low)
    || d.stress == Some(Stress.High)
    || d.sleep == Some(Sleep.Poor)
    || d.food == Some(Alcohol)
    || d.supplements == Some(Skipped)
  }

  datatype Log = Log(id: string, userId: string, timestamp: Millis, data: LogData)

  datatype Avatar = Explorer | Calm | Charger

  /** What the onboarding survey collects; single-choice answers may still be unanswered. */
  datatype OnboardingAnswers = OnboardingAnswers(
    sex: Option<string>,
    symptoms: seq<string>,
    sleep: Option<string>,
    exercise: Option<string>,
    stress: Option<string>,
    diet: seq<string>)

  /** The user's survey answers: the record shape the store declares, or the
      onboarding survey's own record, which the home page stores as it is. */
  datatype SurveyAnswers =
    | Declared(sleepQuality: string, fatigueFrequency: string, tracksHealth: string, mainGoal: string)
    | Onboarding(answers: OnboardingAnswers)

  datatype User = User(
    id: string,
    name: string,
    avatarType: Avatar,
    surveyAnswers: SurveyAnswers,
    xp: int,
    streak: nat,
    lastLogDate: Option<Millis>,
    createdAt: Millis)
}
