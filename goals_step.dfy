/** The goals form of frontend/src/pages/onBoarding/Step3.jsx: four checkboxes and a
    free-text field, editing the onboarding page's `goals` and `otherGoals` state. */
module GoalsStep {
  import opened Seqs

  /** The checkbox values; the stored goal is the value, not the label. */
  const GoalValues: seq<string> := ["competitions", "clubs", "tutoring", "other"]

  /** `goals` after a checkbox change: checking appends the value, unchecking removes
      every occurrence of it. */
  function GoalsAfterChange(goals: seq<string>, value: string, checked: bool): seq<string>
  {
    if checked then goals + [value] else RemoveAll(goals, value)
  }

  /** A checkbox shows `value in goals`, so a click reports the opposite as `checked`:
      a click toggles the value. */
  lemma ClickToggles(goals: seq<string>, value: string)
    ensures GoalsAfterChange(goals, value, value !in goals) == Toggle(goals, value)
  {
  }

  /** Clicks keep the goals a duplicate-free list of option values, and a goal other
      than the clicked one keeps its presence. */
  lemma ClickKeepsGoalsValid(goals: seq<string>, value: string, other: string)
    requires value in GoalValues
    requires NoDuplicates(goals) && forall k :: 0 <= k < |goals| ==> goals[k] in GoalValues
    ensures var g := GoalsAfterChange(goals, value, value !in goals);
      NoDuplicates(g) && (forall k :: 0 <= k < |g| ==> g[k] in GoalValues)
      && (other != value ==> (other in g <==> other in goals))
  {
    ToggleNoDuplicates(goals, value);
    var g := Toggle(goals, value);
    forall k | 0 <= k < |g|
      ensures g[k] in GoalValues
    {
      if value in goals {
        assert g[k] in RemoveAll(goals, value);
      } else if k < |goals| {
        assert g[k] == goals[k];
      }
    }
    if other != value {
      ToggleKeepsOthers(goals, value, other);
    }
  }
}
