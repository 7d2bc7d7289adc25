/** The older stepper page of frontend/src/pages/OnBoarding.jsx: the same three steps
    and buttons, but step 1 is the optional one and Next has no guard. */
module LegacyOnboarding {
  import opened Stepper

  /** The only optional step. */
  const OptionalStep: int := 1

  class LegacyOnboardingPage {
    var activeStep: int
    var skipped: set<int>

    function StepState(): State
      reads this
    {
      State(activeStep, skipped)
    }

    predicate Valid()
      reads this
    {
      Stepper.Valid(StepState(), OptionalStep)
    }

    constructor()
      ensures activeStep == 0 && skipped == {}
      ensures Valid()
    {
      activeStep := 0;
      skipped := {};
    }

    /** `handleNext`: always advances and unmarks the current step. */
    method HandleNext()
      modifies this
      ensures StepState() == AfterNext(old(StepState()), false)
    {
      var newSkipped := skipped;
      if activeStep in skipped {
        newSkipped := newSkipped - {activeStep};
      }
      activeStep := activeStep + 1;
      skipped := newSkipped;
    }

    /** `handleBack`. */
    method HandleBack()
      modifies this
      ensures StepState() == AfterBack(old(StepState()))
    {
      activeStep := activeStep - 1;
    }

    /** `handleSkip`: only step 1 can be skipped. */
    method HandleSkip()
      modifies this
      ensures StepState() == AfterSkip(old(StepState()), OptionalStep)
    {
      if activeStep != OptionalStep {
        return;
      }
      activeStep := activeStep + 1;
      skipped := skipped + {OptionalStep};
    }

    /** A click on one of the three buttons; a disabled button does nothing. */
    method Click(b: Button)
      requires Valid()
      modifies this
      ensures StepState() == Press(old(StepState()), b, OptionalStep, false)
      ensures Valid()
    {
      PressKeepsValid(StepState(), b, OptionalStep, false);
      if !Enabled(StepState(), b, OptionalStep) {
        return;
      }
      match b
      case Back => HandleBack();
      case Next => HandleNext();
      case Skip => HandleSkip();
    }
  }
}
