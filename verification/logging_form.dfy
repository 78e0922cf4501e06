/** The daily log form: one choice per category, the submit gate and its
    label, and the reset after submitting. */
module LoggingForm {
  import opened Wrappers
  import opened Records
  import Gamification
  import Text

  datatype Category = FoodCategory | SleepCategory | MoodCategory | StressCategory | SupplementsCategory

  /** An option button: a category together with one value from its vocabulary. */
  datatype Choice =
    | FoodChoice(food: Food)
    | SleepChoice(sleep: Sleep)
    | MoodChoice(mood: Mood)
    | StressChoice(stress: Stress)
    | SupplementsChoice(supplements: Supplements)

  function CategoryOf(c: Choice): Category {
    match c
    case FoodChoice(_) => FoodCategory
    case SleepChoice(_) => SleepCategory
    case MoodChoice(_) => MoodCategory
    case StressChoice(_) => StressCategory
    case SupplementsChoice(_) => SupplementsCategory
  }

  /** The option currently highlighted in a category, if any. */
  function Selected(form: LogData, cat: Category): Option<Choice> {
    match cat
    case FoodCategory => if form.food.Some? then Some(FoodChoice(form.food.value)) else None
    case SleepCategory => if form.sleep.Some? then Some(SleepChoice(form.sleep.value)) else None
    case MoodCategory => if form.mood.Some? then Some(MoodChoice(form.mood.value)) else None
    case StressCategory => if form.stress.Some? then Some(StressChoice(form.stress.value)) else None
    case SupplementsCategory =>
      if form.supplements.Some? then Some(SupplementsChoice(form.supplements.value)) else None
  }

  /** `handleSelect`: the clicked option becomes its category's value; the other categories are untouched. */
  function Select(form: LogData, c: Choice): (r: LogData)
    ensures Selected(r, CategoryOf(c)) == Some(c)
    ensures forall cat :: cat != CategoryOf(c) ==> Selected(r, cat) == Selected(form, cat)
  {
    match c
    case FoodChoice(v) => form.(food := Some(v))
    case SleepChoice(v) => form.(sleep := Some(v))
    case MoodChoice(v) => form.(mood := Some(v))
    case StressChoice(v) => form.(stress := Some(v))
    case SupplementsChoice(v) => form.(supplements := Some(v))
  }

  /** A second click in the same category replaces the first. */
  lemma ReselectReplaces(form: LogData, first: Choice, second: Choice)
    requires CategoryOf(first) == CategoryOf(second)
    ensures Select(Select(form, first), second) == Select(form, second)
  {
  }

  /** Clicks in different categories do not interfere: their order does not matter. */
  lemma SelectionsCommute(form: LogData, a: Choice, b: Choice)
    requires CategoryOf(a) != CategoryOf(b)
    ensures Select(Select(form, a), b) == Select(Select(form, b), a)
  {
  }

  /** `canSubmit`: at least one category is filled. */
  function CanSubmit(form: LogData): (ok: bool)
    ensures ok <==> exists cat :: Selected(form, cat).Some?
  {
    assert form.food.Some? ==> Selected(form, FoodCategory).Some?;
    assert form.sleep.Some? ==> Selected(form, SleepCategory).Some?;
    assert form.mood.Some? ==> Selected(form, MoodCategory).Some?;
    assert form.stress.Some? ==> Selected(form, StressCategory).Some?;
    assert form.supplements.Some? ==> Selected(form, SupplementsCategory).Some?;
    FilledCount(form) > 0
  }

  /** After any click the form can be submitted. */
  lemma SelectEnablesSubmit(form: LogData, c: Choice)
    ensures CanSubmit(Select(form, c))
  {
  }

  const BonusLabel: string := "\U{2728} Submit (+30 XP Bonus!)"
  const EmptyLabel: string := "Select at least one"

  /** The submit button's text: the bonus label exactly for a complete form, the
      request for a choice exactly for a blank one, the plain label in between. */
  function SubmitLabel(form: LogData): (r: string)
    ensures r == BonusLabel <==> FilledCount(form) == 5
    ensures r == EmptyLabel <==> FilledCount(form) == 0
  {
    var filled := FilledCount(form);
    if filled == 5 then
      assert |BonusLabel| != |EmptyLabel|;
      BonusLabel
    else if filled > 0 then
      var plain := "Submit (+" + Text.NatToString(10 + (if filled == 5 then 20 else 0)) + " XP)";
      assert plain[0] != BonusLabel[0] && plain[1] != EmptyLabel[1];
      plain
    else EmptyLabel
  }

  /** The label announces exactly the XP the engine will award: the bonus label
      when the gain is thirty, otherwise the plain gain; a blank form asks for a choice. */
  lemma LabelAgreesWithXP(form: LogData)
    ensures var gain := Gamification.CalculateXPGain(form);
      && (SubmitLabel(form) == BonusLabel <==> gain.total == 30)
      && (CanSubmit(form) && gain.total != 30 ==> SubmitLabel(form) == "Submit (+" + Text.NatToString(gain.total) + " XP)")
      && (!CanSubmit(form) ==> SubmitLabel(form) == EmptyLabel)
  {
  }

  /** `handleSubmit` behind the disabled button: nothing happens on a blank
      form; otherwise the entries are handed on and the form is cleared. */
  function Submit(form: LogData): (r: Option<(LogData, LogData)>)
    ensures r.None? <==> !CanSubmit(form)
    ensures r.Some? ==> r.value.0 == form && FilledCount(r.value.1) == 0
  {
    if CanSubmit(form) then Some((form, NoEntries)) else None
  }
}
