/**
 * The add / edit form: a five-step wizard, the defaults it starts from, and
 * the date shown on its confirmation step.
 */
module DatePersonForm {
  import opened JsBuiltins
  import opened Types

  // ---------------------------------------------------------------- steps

  /** The wizard's steps: basic information, the meeting, trait tags, rating
      and notes, confirmation. */
  datatype Step = BasicInfo | MeetInfo | Traits | RatingNotes | Confirm

  /** The steps in the order the wizard walks them. */
  const Steps: seq<Step> := [BasicInfo, MeetInfo, Traits, RatingNotes, Confirm]

  /** `steps.indexOf(step)`. */
  function IndexOf(step: Step): (i: nat)
    ensures i < |Steps| && Steps[i] == step
  {
    match step
    case BasicInfo => 0
    case MeetInfo => 1
    case Traits => 2
    case RatingNotes => 3
    case Confirm => 4
  }

  /** There are exactly five steps, each listed once. */
  lemma StepsListedOnce()
    ensures |Steps| == 5 && Distinct(Steps)
    ensures forall s: Step :: s in Steps
  {
    forall i, j | 0 <= i < j < |Steps| ensures Steps[i] != Steps[j] {
      assert IndexOf(Steps[i]) == i && IndexOf(Steps[j]) == j;
    }
    forall s: Step ensures s in Steps {
      assert Steps[IndexOf(s)] == s;
    }
  }

  /** The step "next" leads to: one further, except from the last step. */
  function NextStep(step: Step): (r: Step)
    ensures IndexOf(r) == if IndexOf(step) < |Steps| - 1 then IndexOf(step) + 1 else IndexOf(step)
  {
    var i := IndexOf(step);
    if i < |Steps| - 1 then Steps[i + 1] else step
  }

  /** The step "back" leads to: one earlier, except from the first step. */
  function PrevStep(step: Step): (r: Step)
    ensures IndexOf(r) == if IndexOf(step) > 0 then IndexOf(step) - 1 else IndexOf(step)
  {
    var i := IndexOf(step);
    if i > 0 then Steps[i - 1] else step
  }

  lemma IndexOfInjective(a: Step, b: Step)
    ensures IndexOf(a) == IndexOf(b) ==> a == b
  {
  }

  /** "Back" undoes "next" everywhere but on the last step, and "next" undoes
      "back" everywhere but on the first. */
  lemma NextPrevInverse(step: Step)
    ensures step != Confirm ==> PrevStep(NextStep(step)) == step
    ensures step != BasicInfo ==> NextStep(PrevStep(step)) == step
  {
    IndexOfInjective(PrevStep(NextStep(step)), step);
    IndexOfInjective(NextStep(PrevStep(step)), step);
  }

  /** `isCurrentStepValid`: only the first step checks anything, a non-empty name. */
  function IsCurrentStepValid(step: Step, name: string): (r: bool)
    ensures !r <==> step == BasicInfo && name == ""
  {
    if step == BasicInfo then name != "" else true
  }

  /** The back button is shown on every step but the first. */
  function ShowsBack(step: Step): bool
  {
    step != BasicInfo
  }

  /** The submit button replaces the next button on the confirmation step. */
  function ShowsSubmit(step: Step): bool
  {
    step == Confirm
  }

  /** The back button is shown exactly where going back moves, and the submit
      button exactly where going forward cannot. */
  lemma ButtonsMatchMoves(step: Step)
    ensures ShowsBack(step) <==> PrevStep(step) != step
    ensures ShowsSubmit(step) <==> NextStep(step) == step
  {
    IndexOfInjective(PrevStep(step), step);
    IndexOfInjective(NextStep(step), step);
  }

  /** The step a press of the next button leads to (the button is disabled
      while the step is not valid, and absent on the confirmation step). */
  function PressNext(step: Step, name: string): (r: Step)
    ensures !ShowsSubmit(step) && IsCurrentStepValid(step, name) ==> r == NextStep(step)
    ensures ShowsSubmit(step) || !IsCurrentStepValid(step, name) ==> r == step
  {
    if !ShowsSubmit(step) && IsCurrentStepValid(step, name) then NextStep(step) else step
  }

  function PressNextTimes(step: Step, name: string, n: nat): Step
  {
    if n == 0 then step else PressNext(PressNextTimes(step, name, n - 1), name)
  }

  /** With a name, four presses of "next" walk from the first step through
      every step, in order, to the confirmation step; without one, the wizard
      never leaves the first step. */
  lemma {:induction false} WalkThroughSteps(name: string, n: nat)
    ensures name != "" ==> PressNextTimes(BasicInfo, name, n) == Steps[if n < 4 then n else 4]
    ensures name == "" ==> PressNextTimes(BasicInfo, name, n) == BasicInfo
  {
    if n > 0 {
      WalkThroughSteps(name, n - 1);
      var prev := PressNextTimes(BasicInfo, name, n - 1);
      if name != "" {
        IndexOfInjective(PressNext(prev, name), Steps[if n < 4 then n else 4]);
      }
    }
  }

  /** Whether a step indicator shows done, current or pending. */
  datatype Mark = Done | Current | Pending

  function StepMark(index: nat, current: Step): (m: Mark)
    ensures m == Done <==> index < IndexOf(current)
    ensures m == Current <==> index == IndexOf(current)
  {
    if index < IndexOf(current) then Done
    else if index == IndexOf(current) then Current
    else Pending
  }

  /** The wizard's current step. */
  class Wizard {
    var currentStep: Step

    constructor ()
      ensures currentStep == BasicInfo
    {
      currentStep := BasicInfo;
    }

    /** `handleNextStep`. */
    method HandleNextStep()
      modifies this
      ensures currentStep == NextStep(old(currentStep))
    {
      var currentIndex := IndexOf(currentStep);
      if currentIndex < |Steps| - 1 {
        currentStep := Steps[currentIndex + 1];
      }
    }

    /** `handlePrevStep`. */
    method HandlePrevStep()
      modifies this
      ensures currentStep == PrevStep(old(currentStep))
    {
      var currentIndex := IndexOf(currentStep);
      if currentIndex > 0 {
        currentStep := Steps[currentIndex - 1];
      }
    }

    /** The next button: it acts only when shown and enabled. */
    method ClickNext(name: string)
      modifies this
      ensures currentStep == PressNext(old(currentStep), name)
    {
      if !ShowsSubmit(currentStep) && IsCurrentStepValid(currentStep, name) {
        HandleNextStep();
      }
    }
  }

  // ---------------------------------------------------------------- defaults

  /** The data an edit starts from; every field may be missing. */
  datatype InitialData = InitialData(
    name: Option<string>,
    age: Option<int>,
    gender: Option<string>,
    occupation: Option<string>,
    contactInfo: Option<string>,
    meetDate: Option<string>,
    meetLocation: Option<string>,
    notes: Option<string>,
    positiveTags: Option<seq<string>>,
    negativeTags: Option<seq<string>>,
    personalityTags: Option<seq<string>>,
    customTags: Option<seq<string>>,
    rating: Option<int>,
    imageUrl: Option<string>)

  /** The values the form starts with. A number field is `None` where it
      starts blank. */
  datatype Defaults = Defaults(
    name: string,
    age: Option<int>,
    gender: Option<string>,
    occupation: string,
    contactInfo: string,
    meetDate: string,
    meetLocation: string,
    notes: string,
    positiveTags: seq<string>,
    negativeTags: seq<string>,
    personalityTags: seq<string>,
    customTags: seq<string>,
    rating: Option<int>,
    imageUrl: string)

  /** `text || ''`. */
  function TextOrBlank(s: Option<string>): (r: string)
    ensures s.Some? ==> r == s.value
    ensures s.None? ==> r == ""
  {
    if s.Some? && s.value != "" then s.value else ""
  }

  /** `n || ''` for a number: 0 is falsy, so it starts blank too. */
  function NumberOrBlank(n: Option<int>): (r: Option<int>)
    ensures r.None? <==> n.None? || n.value == 0
    ensures r.Some? ==> r == n
  {
    if n.Some? && n.value != 0 then n else None
  }

  /** `gender || undefined`: an empty choice counts as none. */
  function ChoiceOrNone(s: Option<string>): (r: Option<string>)
    ensures r.None? <==> s.None? || s.value == ""
    ensures r.Some? ==> r == s
  {
    if s.Some? && s.value != "" then s else None
  }

  const NoInitialData := InitialData(None, None, None, None, None, None, None, None, None, None, None, None, None, None)

  /** `defaultValues`. */
  function DefaultValues(initial: Option<InitialData>): Defaults
  {
    var d := if initial.Some? then initial.value else NoInitialData;
    Defaults(TextOrBlank(d.name), NumberOrBlank(d.age), ChoiceOrNone(d.gender),
             TextOrBlank(d.occupation), TextOrBlank(d.contactInfo), TextOrBlank(d.meetDate),
             TextOrBlank(d.meetLocation), TextOrBlank(d.notes),
             TagsOrEmpty(d.positiveTags), TagsOrEmpty(d.negativeTags), TagsOrEmpty(d.personalityTags),
             TagsOrEmpty(d.customTags), NumberOrBlank(d.rating), TextOrBlank(d.imageUrl))
  }

  /** A new record's form starts blank, with no tags. */
  lemma BlankDefaults()
    ensures var d := DefaultValues(None);
            d.name == "" && d.age.None? && d.gender.None? && d.rating.None? &&
            d.positiveTags == [] && d.negativeTags == [] && d.personalityTags == [] && d.customTags == []
  {
  }

  /** The initial data an edit of a record starts from: the record's own
      fields (it has no meeting date, place, custom tags or image). */
  function FromPerson(p: Person): InitialData
  {
    var d := p.details;
    InitialData(Some(d.name), d.age, d.gender, d.occupation, d.contactInfo, None, None, d.notes,
                Some(d.positiveTags), Some(d.negativeTags), Some(d.personalityTags), None, d.rating, None)
  }

  /** Editing a valid record starts from its name, age, gender, rating and
      tags unchanged. */
  lemma EditStartsFromRecord(p: Person)
    requires ValidPerson(p)
    ensures var d := DefaultValues(Some(FromPerson(p)));
            d.name == p.details.name && d.age == p.details.age && d.gender == p.details.gender &&
            d.rating == p.details.rating && d.positiveTags == p.details.positiveTags &&
            d.negativeTags == p.details.negativeTags && d.personalityTags == p.details.personalityTags
  {
  }

  // ---------------------------------------------------------------- confirmation

  const NotSet := "未设置"

  /** `formatDate`: "未设置" for an empty date, otherwise the localised date
      (given, since it depends on the locale). */
  function FormatDate(dateString: string, localized: string): (r: string)
    ensures dateString == "" ==> r == NotSet
    ensures dateString != "" ==> r == localized
  {
    if dateString == "" then NotSet else localized
  }
}
