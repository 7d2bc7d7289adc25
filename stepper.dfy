/** The step/skip bookkeeping both onboarding pages share: an `activeStep` counter and
    a `skipped` set over the three steps, driven by the Back, Next and Skip buttons. Each
    page fixes its one optional step; a Next that its page guards off is `blocked`. */
module Stepper {
  import opened Wrappers

  /** `steps.length`: the last value of `activeStep` is the finished screen. */
  const StepCount: int := 3

  datatype State = State(activeStep: int, skipped: set<int>)

  datatype Button = Back | Next | Skip

  /** The buttons' `disabled` props, negated: Back is off at step 0, Next at the
      finished screen, and Skip everywhere but the optional step. */
  predicate Enabled(st: State, b: Button, optional: int)
  {
    match b
    case Back => st.activeStep != 0
    case Next => st.activeStep != StepCount
    case Skip => st.activeStep == optional
  }

  /** `handleNext`: the current step leaves `skipped` and the step advances, unless the
      page's guard stops it first, in which case nothing changes. */
  function AfterNext(st: State, blocked: bool): (r: State)
    ensures !blocked ==> r.activeStep == st.activeStep + 1 && st.activeStep !in r.skipped
    ensures !blocked ==> forall k :: k != st.activeStep ==> (k in r.skipped <==> k in st.skipped)
    ensures blocked ==> r == st
  {
    if blocked then st else State(st.activeStep + 1, st.skipped - {st.activeStep})
  }

  /** `handleBack`. */
  function AfterBack(st: State): (r: State)
    ensures r.activeStep == st.activeStep - 1 && r.skipped == st.skipped
  {
    State(st.activeStep - 1, st.skipped)
  }

  /** `handleSkip`: on the optional step, advance and record the step as skipped;
      anywhere else, nothing. */
  function AfterSkip(st: State, optional: int): (r: State)
    ensures st.activeStep == optional ==> r.activeStep == st.activeStep + 1 && r.skipped == st.skipped + {optional}
    ensures st.activeStep != optional ==> r == st
  {
    if st.activeStep != optional then st else State(st.activeStep + 1, st.skipped + {st.activeStep})
  }

  /** A click: a disabled button does nothing, an enabled one runs its handler. */
  function Press(st: State, b: Button, optional: int, blocked: bool): State
  {
    if !Enabled(st, b, optional) then st
    else match b
      case Back => AfterBack(st)
      case Next => AfterNext(st, blocked)
      case Skip => AfterSkip(st, optional)
  }

  /** The reachable states: the step within [0, StepCount] and only the optional step
      ever skipped. */
  predicate Valid(st: State, optional: int)
  {
    0 <= st.activeStep <= StepCount && st.skipped <= {optional}
  }

  /** Every click keeps the page in a reachable state. */
  lemma PressKeepsValid(st: State, b: Button, optional: int, blocked: bool)
    requires 0 <= optional < StepCount && Valid(st, optional)
    ensures Valid(Press(st, b, optional, blocked), optional)
  {
  }

  /** One click, and whether the page's guard blocks a Next at that moment. */
  datatype Event = Event(button: Button, blocked: bool)

  /** The state after a sequence of clicks. */
  function Run(start: State, events: seq<Event>, optional: int): State
  {
    if events == [] then start
    else
      var e := events[|events| - 1];
      Press(Run(start, events[..|events| - 1], optional), e.button, optional, e.blocked)
  }

  /** Whether the click, in state `st`, is an effective Skip on step `k`. */
  predicate SkipsStep(st: State, e: Event, k: int, optional: int)
  {
    e.button == Skip && Enabled(st, Skip, optional) && st.activeStep == k
  }

  /** Whether the click, in state `st`, is an effective Next on step `k`. */
  predicate LeavesStep(st: State, e: Event, k: int, optional: int)
  {
    e.button == Next && Enabled(st, Next, optional) && !e.blocked && st.activeStep == k
  }

  /** The last click that was an effective Skip or Next on step `k`, if any. */
  function LastMark(start: State, events: seq<Event>, k: int, optional: int): Option<Button>
  {
    if events == [] then None
    else
      var n := |events| - 1;
      var st := Run(start, events[..n], optional);
      if SkipsStep(st, events[n], k, optional) then Some(Skip)
      else if LeavesStep(st, events[n], k, optional) then Some(Next)
      else LastMark(start, events[..n], k, optional)
  }

  /** From an empty `skipped` set, a step is skipped exactly when Skip was pressed on
      it and Next has not been pressed on it since. */
  lemma {:induction false} SkippedIffLastSkip(start: State, events: seq<Event>, k: int, optional: int)
    requires start.skipped == {}
    ensures k in Run(start, events, optional).skipped <==> LastMark(start, events, k, optional) == Some(Skip)
  {
    if events != [] {
      var n := |events| - 1;
      SkippedIffLastSkip(start, events[..n], k, optional);
    }
  }
}
