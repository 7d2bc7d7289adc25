/** The interest selector of frontend/src/pages/onBoarding/Step2.jsx: one checkbox per
    option, from one up to three choices. The list it edits is the onboarding page's
    `interests` state. */
module InterestStep {
  import opened Wrappers
  import opened Seqs

  /** The option labels; a checkbox's value, and so what gets stored, is its label. */
  const InterestLabels: seq<string> := [
    "Mathematics", "Science", "Computer Science", "Engineering", "Arts", "Social Studies",
    "Health and Physical Education", "History", "World Languages", "Business", "Other"]

  const MaxInterests: nat := 3

  const AtLeastOneWarning: string := "You must select at least 1 interest"
  const UpToThreeWarning: string := "You can only select up to 3 interests"

  /** The list after a change event for `value`: an unselected value is appended while
      fewer than three are selected; a selected value is removed, even the last one. */
  function Selected(interests: seq<string>, value: string): (r: seq<string>)
  {
    if value !in interests && |interests| < MaxInterests then interests + [value]
    else if value in interests then RemoveAll(interests, value)
    else interests
  }

  /** The error flag after the change: cleared first, then set when the only remaining
      interest was removed. */
  function ChangeError(interests: seq<string>, value: string): bool
  {
    value in interests && |interests| <= 1
  }

  /** The warning the change shows in the snackbar, if any. */
  function ChangeWarning(interests: seq<string>, value: string): (w: Option<string>)
    ensures w == Some(AtLeastOneWarning) <==> ChangeError(interests, value)
  {
    if value !in interests && |interests| < MaxInterests then None
    else if value in interests then (if |interests| <= 1 then Some(AtLeastOneWarning) else None)
    else Some(UpToThreeWarning)
  }

  /** What a change does to the list: the value is selected afterwards exactly when it
      was not and there was room; no other value changes; a full list refuses the new
      value with the "up to 3" warning. */
  lemma SelectedMeaning(interests: seq<string>, value: string, other: string)
    requires other != value
    ensures value in Selected(interests, value) <==> value !in interests && |interests| < MaxInterests
    ensures other in Selected(interests, value) <==> other in interests
    ensures value !in interests && |interests| >= MaxInterests ==>
      Selected(interests, value) == interests && ChangeWarning(interests, value) == Some(UpToThreeWarning)
  {
  }

  /** From at most three distinct interests, every change keeps at most three, all
      distinct. */
  lemma SelectedKeepsBound(interests: seq<string>, value: string)
    requires |interests| <= MaxInterests && NoDuplicates(interests)
    ensures |Selected(interests, value)| <= MaxInterests && NoDuplicates(Selected(interests, value))
  {
    if value in interests {
      RemoveAllNoDuplicates(interests, value);
    }
  }

  /** Removing the last interest empties the list and raises the error. */
  lemma DeselectLastInterest(value: string)
    ensures Selected([value], value) == [] && ChangeError([value], value)
  {
    assert RemoveAll([value], value) == [];
  }
}
