/** The onboarding page of frontend/src/pages/onBoarding/OnBoarding.jsx: the three-step
    stepper (step 2, Goals, is the optional one; Next on step 1 needs an interest) and
    the profile values the steps collect. `snackbar` is the message the shared snackbar
    last showed. */
module Onboarding {
  import opened Wrappers
  import opened Json
  import opened Stepper
  import opened Seqs
  import InterestStep
  import GoalsStep

  /** The only optional step. */
  const OptionalStep: int := 2

  /** The profile fields of the signed-in user the page starts from; `None` stands for
      a missing or null value. */
  datatype UserInfo = UserInfo(
    basicInformation: Json,
    interests: Option<seq<string>>,
    goals: Option<seq<string>>,
    otherGoals: Option<string>)

  /** The default basic information: a student with no grade or subject yet. */
  const DefaultBasicInformation: Json :=
    JObj(map["role" := JStr("student"), "grade" := JStr(""), "subject" := JStr("")])

  /** The values handed to the finishing screen. */
  datatype Collected = Collected(basicInformation: Json, interests: seq<string>, goals: seq<string>, otherGoals: string)

  class OnboardingPage {
    var basicInformation: Json
    var interests: seq<string>
    var goals: seq<string>
    var otherGoals: string
    var activeStep: int
    var skipped: set<int>
    var snackbar: Option<string>
    /** Step 2's own `error` flag; the component starts with it cleared whenever it is
        shown again, so any change of step clears it. */
    var interestError: bool

    /** The stepper part of the state. */
    function StepState(): State
      reads this
    {
      State(activeStep, skipped)
    }

    /** The reachable states: the step within [0, 3] and at most step 2 skipped. */
    predicate Valid()
      reads this
    {
      Stepper.Valid(StepState(), OptionalStep)
    }

    /** The initial state: the user's values where present (non-empty for the lists
        and the text), the defaults otherwise, at step 0 with nothing skipped. */
    constructor(user: UserInfo)
      ensures basicInformation == if JsTruthy(user.basicInformation) then user.basicInformation else DefaultBasicInformation
      ensures interests == user.interests.GetOr([])
      ensures goals == user.goals.GetOr([])
      ensures otherGoals == user.otherGoals.GetOr("")
      ensures activeStep == 0 && skipped == {} && snackbar.None? && !interestError
      ensures Valid()
    {
      basicInformation := if JsTruthy(user.basicInformation) then user.basicInformation else DefaultBasicInformation;
      interests := if user.interests.Some? && |user.interests.value| > 0 then user.interests.value else [];
      goals := if user.goals.Some? && |user.goals.value| > 0 then user.goals.value else [];
      otherGoals := if user.otherGoals.Some? && |user.otherGoals.value| > 0 then user.otherGoals.value else "";
      activeStep := 0;
      skipped := {};
      snackbar := None;
      interestError := false;
    }

    /** Whether Next is stopped by the guard: step 1 with no interest selected. */
    function NextBlocked(): bool
      reads this
    {
      activeStep == 1 && |interests| < 1
    }

    /** `handleNext`. A blocked Next shows the warning and changes no step state. */
    method HandleNext()
      modifies this
      ensures StepState() == AfterNext(old(StepState()), old(NextBlocked()))
      ensures snackbar == if old(NextBlocked()) then Some(InterestStep.AtLeastOneWarning) else old(snackbar)
      ensures interestError == (old(interestError) && old(NextBlocked()))
      ensures basicInformation == old(basicInformation) && interests == old(interests)
      ensures goals == old(goals) && otherGoals == old(otherGoals)
    {
      var newSkipped := skipped;
      if activeStep in skipped {
        newSkipped := newSkipped - {activeStep};
      }
      if activeStep == 1 && |interests| < 1 {
        snackbar := Some(InterestStep.AtLeastOneWarning);
        return;
      }
      activeStep := activeStep + 1;
      skipped := newSkipped;
      interestError := false;
    }

    /** `handleBack`. */
    method HandleBack()
      modifies this
      ensures StepState() == AfterBack(old(StepState()))
      ensures !interestError && snackbar == old(snackbar)
      ensures basicInformation == old(basicInformation) && interests == old(interests)
      ensures goals == old(goals) && otherGoals == old(otherGoals)
    {
      activeStep := activeStep - 1;
      interestError := false;
    }

    /** `handleSkip`: only step 2 can be skipped. */
    method HandleSkip()
      modifies this
      ensures StepState() == AfterSkip(old(StepState()), OptionalStep)
      ensures interestError == (old(interestError) && old(activeStep) != OptionalStep)
      ensures snackbar == old(snackbar)
      ensures basicInformation == old(basicInformation) && interests == old(interests)
      ensures goals == old(goals) && otherGoals == old(otherGoals)
    {
      if activeStep != OptionalStep {
        return;
      }
      skipped := skipped + {activeStep};
      activeStep := activeStep + 1;
      interestError := false;
    }

    /** A click on one of the three buttons; a disabled button does nothing. The page
        stays in a reachable state. */
    method Click(b: Button)
      requires Valid()
      modifies this
      ensures StepState() == Press(old(StepState()), b, OptionalStep, old(NextBlocked()))
      ensures Valid()
      ensures basicInformation == old(basicInformation) && interests == old(interests)
      ensures goals == old(goals) && otherGoals == old(otherGoals)
      ensures !old(Enabled(StepState(), b, OptionalStep)) ==>
        snackbar == old(snackbar) && interestError == old(interestError)
      ensures old(Enabled(StepState(), b, OptionalStep)) ==>
        snackbar == (if b == Next && old(NextBlocked()) then Some(InterestStep.AtLeastOneWarning) else old(snackbar))
      ensures old(Enabled(StepState(), b, OptionalStep)) ==>
        interestError == (b == Next && old(interestError) && old(NextBlocked()))
    {
      PressKeepsValid(StepState(), b, OptionalStep, NextBlocked());
      if !Enabled(StepState(), b, OptionalStep) {
        return;
      }
      match b
      case Back => HandleBack();
      case Next => HandleNext();
      case Skip => HandleSkip();
    }

    /** Step 2's `handleInterestChange` for the checkbox `value`, through `setInterests`. */
    method ChangeInterest(value: string)
      modifies this
      ensures interests == InterestStep.Selected(old(interests), value)
      ensures interestError == InterestStep.ChangeError(old(interests), value)
      ensures snackbar == if InterestStep.ChangeWarning(old(interests), value).Some? then InterestStep.ChangeWarning(old(interests), value) else old(snackbar)
      ensures StepState() == old(StepState())
      ensures basicInformation == old(basicInformation) && goals == old(goals) && otherGoals == old(otherGoals)
    {
      interestError := false;
      if value !in interests && |interests| < InterestStep.MaxInterests {
        interests := interests + [value];
      } else if value in interests {
        if |interests| <= 1 {
          snackbar := Some(InterestStep.AtLeastOneWarning);
          interestError := true;
        }
        interests := RemoveAll(interests, value);
      } else {
        snackbar := Some(InterestStep.UpToThreeWarning);
      }
    }

    /** Step 3's checkbox `onChange` for `value`, through `setGoals`. */
    method ChangeGoal(value: string, checked: bool)
      modifies this
      ensures goals == GoalsStep.GoalsAfterChange(old(goals), value, checked)
      ensures StepState() == old(StepState()) && snackbar == old(snackbar) && interestError == old(interestError)
      ensures basicInformation == old(basicInformation) && interests == old(interests) && otherGoals == old(otherGoals)
    {
      goals := if checked then goals + [value] else RemoveAll(goals, value);
    }

    /** Step 3's text field `onChange`: the text replaces `otherGoals` wholesale. */
    method SetOtherGoals(text: string)
      modifies this
      ensures otherGoals == text
      ensures StepState() == old(StepState()) && goals == old(goals) && interests == old(interests)
      ensures basicInformation == old(basicInformation) && snackbar == old(snackbar) && interestError == old(interestError)
    {
      otherGoals := text;
    }

    /** The props of the finishing screen, shown at step 3: the four values as
        collected. */
    function FinishingProps(): (r: Option<Collected>)
      reads this
      ensures r.Some? <==> activeStep == StepCount
      ensures r.Some? ==> r.value.basicInformation == basicInformation && r.value.interests == interests
      ensures r.Some? ==> r.value.goals == goals && r.value.otherGoals == otherGoals
    {
      if activeStep == StepCount then Some(Collected(basicInformation, interests, goals, otherGoals)) else None
    }
  }
}
