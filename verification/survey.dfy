/** The onboarding survey as a state machine: six questions (single or
    multiple choice), a step counter, and the avatar choice. */
module Survey {
  import opened Wrappers
  import opened Records
  import opened Seqs

  datatype QuestionKey = Sex | Symptoms | SleepHours | Exercise | StressLevel | Diet

  datatype Kind = Single | Multi

  datatype Question = Question(prompt: string, key: QuestionKey, kind: Kind, options: seq<string>)

  const Questions: seq<Question> := [
    Question("Sex assigned at birth", Sex, Single, ["Male", "Female", "Prefer not to say"]),
    Question("Top symptoms you experience", Symptoms, Multi,
      ["Fatigue", "Joint pain", "Brain fog", "Digestive issues", "Skin flare-ups", "Other"]),
    Question("Average sleep per night", SleepHours, Single, ["<5h", "5–6h", "6–7h", "7–8h", "8+ h"]),
    Question("Exercise frequency per week", Exercise, Single, ["None", "1–2 days", "3–4 days", "5+ days"]),
    Question("Typical stress level", StressLevel, Single, ["Low", "Medium", "High"]),
    Question("Dietary restrictions or special diet", Diet, Multi,
      ["None", "Gluten-free", "Dairy-free", "Vegetarian", "Vegan", "Other"])
  ]

  datatype SurveyState = SurveyState(step: nat, answers: OnboardingAnswers, avatar: Avatar)

  /** The starting state: first question, empty symptom and diet lists, the Explorer avatar. */
  const Initial: SurveyState := SurveyState(0, OnboardingAnswers(None, [], None, None, None, []), Explorer)

  /** One answer slot, whichever its shape. */
  datatype AnswerValue = One(choice: Option<string>) | Many(choices: seq<string>)

  function Get(a: OnboardingAnswers, key: QuestionKey): AnswerValue {
    match key
    case Sex => One(a.sex)
    case Symptoms => Many(a.symptoms)
    case SleepHours => One(a.sleep)
    case Exercise => One(a.exercise)
    case StressLevel => One(a.stress)
    case Diet => Many(a.diet)
  }

  /** `values.filter(x => x !== v)`: every occurrence of `v` removed, the rest kept in order. */
  function Without(values: seq<string>, v: string): (r: seq<string>)
    ensures v !in r
    ensures |r| <= |values|
    ensures forall x :: x in r <==> x in values && x != v
    ensures v !in values ==> r == values
    decreases |values|
  {
    if values == [] then []
    else (if values[0] == v then [] else [values[0]]) + Without(values[1..], v)
  }

  /** The multiple-choice click: an absent value is appended, a present one removed. */
  function Toggle(values: seq<string>, v: string): (r: seq<string>)
    ensures v !in values ==> r == values + [v]
    ensures v in values ==> v !in r && forall x :: x != v ==> (x in r <==> x in values)
  {
    if v in values then Without(values, v) else values + [v]
  }

  lemma {:induction false} WithoutAppend(values: seq<string>, v: string)
    requires v !in values
    ensures Without(values + [v], v) == values
    decreases |values|
  {
    if values == [] {
      assert Without([v], v) == [] + Without([], v);
    } else {
      assert (values + [v])[0] == values[0];
      assert (values + [v])[1..] == values[1..] + [v];
      WithoutAppend(values[1..], v);
      assert values == [values[0]] + values[1..];
    }
  }

  /** Clicking an unselected option twice restores the list. */
  lemma ToggleTwiceRestores(values: seq<string>, v: string)
    requires v !in values
    ensures Toggle(Toggle(values, v), v) == values
  {
    WithoutAppend(values, v);
  }

  lemma {:induction false} WithoutKeepsNoDuplicates(values: seq<string>, v: string)
    requires NoDuplicates(values)
    ensures NoDuplicates(Without(values, v))
    decreases |values|
  {
    if values != [] {
      var rest := values[1..];
      assert NoDuplicates(rest) by {
        forall i, j | 0 <= i < j < |rest|
          ensures rest[i] != rest[j]
        {
          assert rest[i] == values[i + 1] && rest[j] == values[j + 1];
        }
      }
      WithoutKeepsNoDuplicates(rest, v);
      assert values[0] !in rest by {
        forall i | 0 <= i < |rest|
          ensures rest[i] != values[0]
        {
          assert rest[i] == values[i + 1];
        }
      }
    }
  }

  /** Toggling never introduces a duplicate into a duplicate-free list. */
  lemma ToggleKeepsNoDuplicates(values: seq<string>, v: string)
    requires NoDuplicates(values)
    ensures NoDuplicates(Toggle(values, v))
  {
    if v in values {
      WithoutKeepsNoDuplicates(values, v);
    }
  }

  /** `handleAnswer` on the current question: a multiple-choice click toggles the
      value, a single-choice click overwrites the answer; other answers, the
      step and the avatar stay as they are. */
  function Answer(st: SurveyState, value: string): (r: SurveyState)
    requires st.step < |Questions|
    ensures r.step == st.step && r.avatar == st.avatar
    ensures var key := Questions[st.step].key;
      forall k :: k != key ==> Get(r.answers, k) == Get(st.answers, k)
    ensures var q := Questions[st.step];
      match Get(st.answers, q.key)
      case One(_) => Get(r.answers, q.key) == One(Some(value))
      case Many(vs) => Get(r.answers, q.key) == Many(Toggle(vs, value))
  {
    var a := st.answers;
    var answers :=
      match Questions[st.step].key
      case Sex => a.(sex := Some(value))
      case Symptoms => a.(symptoms := Toggle(a.symptoms, value))
      case SleepHours => a.(sleep := Some(value))
      case Exercise => a.(exercise := Some(value))
      case StressLevel => a.(stress := Some(value))
      case Diet => a.(diet := Toggle(a.diet, value));
    st.(answers := answers)
  }

  /** `handleNext`: on to the following question, or to the avatar screen after the last one. */
  function Next(st: SurveyState): (r: SurveyState)
    ensures r.answers == st.answers && r.avatar == st.avatar
    ensures st.step <= |Questions| ==> r.step == Min(st.step + 1, |Questions|)
    ensures r.step <= |Questions|
  {
    if st.step < |Questions| - 1 then st.(step := st.step + 1) else st.(step := |Questions|)
  }

  function ChooseAvatar(st: SurveyState, a: Avatar): (r: SurveyState)
    ensures r.avatar == a && r.step == st.step && r.answers == st.answers
  {
    st.(avatar := a)
  }

  /** What the user can do on the survey screen; answering is only offered while a question is shown. */
  datatype Event = Click(value: string) | NextPressed | AvatarPicked(avatar: Avatar)

  function Apply(st: SurveyState, e: Event): SurveyState {
    match e
    case Click(v) => if st.step < |Questions| then Answer(st, v) else st
    case NextPressed => Next(st)
    case AvatarPicked(a) => ChooseAvatar(st, a)
  }

  /** The state after a sequence of user actions from the start. */
  function Run(events: seq<Event>): (st: SurveyState)
    ensures st.step <= |Questions|
    ensures NoDuplicates(st.answers.symptoms) && NoDuplicates(st.answers.diet)
    decreases |events|
  {
    if events == [] then Initial
    else
      var prev := Run(events[..|events| - 1]);
      var e := events[|events| - 1];
      if e.Click? && prev.step < |Questions| then
        ToggleKeepsNoDuplicates(prev.answers.symptoms, e.value);
        ToggleKeepsNoDuplicates(prev.answers.diet, e.value);
        Apply(prev, e)
      else
        Apply(prev, e)
  }
}
