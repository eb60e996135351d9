/** The goals step: five goal cards whose clicks toggle their labels in
    `formData.goals`. */
module GoalsSelection {
  import opened Options
  import opened Lists

  datatype GoalOption = GoalOption(id: string, title: string, description: string)

  const GoalOptions := [
    GoalOption("internship", "Internship", "Find summer or semester internship opportunities"),
    GoalOption("full-time", "Full-time Job", "Explore full-time career opportunities"),
    GoalOption("networking", "Networking", "Connect with professionals and expand your network"),
    GoalOption("exploration", "Career Exploration", "Discover different career paths and industries"),
    GoalOption("skills", "Skill Development", "Learn new skills and enhance existing ones")]

  /** The labels the cards toggle, in display order. */
  function GoalLabels(): (r: seq<string>)
    ensures |r| == |GoalOptions|
    ensures forall k | 0 <= k < |GoalOptions| :: r[k] == GoalOptions[k].title
    ensures r == ["Internship", "Full-time Job", "Networking", "Career Exploration", "Skill Development"]
    ensures NoDuplicates(r)
  {
    seq(|GoalOptions|, k requires 0 <= k < |GoalOptions| => GoalOptions[k].title)
  }

  /** `toggleGoal`: a missing list counts as empty; a present name is removed
      everywhere, an absent one appended; no other name's membership changes. */
  function ToggleGoal(current: Option<seq<string>>, goalName: string): (r: seq<string>)
    ensures goalName in r <==> goalName !in current.GetOr([])
    ensures forall y | y != goalName :: (y in r <==> y in current.GetOr([]))
    ensures goalName !in current.GetOr([]) ==> r == current.GetOr([]) + [goalName]
    ensures goalName in current.GetOr([]) ==> IsSubsequence(r, current.GetOr([]))
    ensures current.None? ==> r == [goalName]
  {
    Toggle(current.GetOr([]), goalName)
  }

  /** Toggling an absent goal twice restores the list. */
  lemma ToggleGoalTwice(current: seq<string>, goalName: string)
    requires goalName !in current
    ensures ToggleGoal(Some(ToggleGoal(Some(current), goalName)), goalName) == current
  {
    ToggleTwiceAbsent(current, goalName);
  }

  /** Selections built by clicking cards, starting from the empty draft, never repeat a
      goal, hold only the cards' labels, and so number at most five. */
  lemma ClickedGoals(clicks: seq<string>)
    requires forall c | c in clicks :: c in GoalLabels()
    ensures var r := ToggleAll([], clicks);
      && NoDuplicates(r)
      && (forall g | g in r :: g in GoalLabels())
      && |r| <= 5
  {
    ToggleAllFromEmpty(clicks);
    NoDuplicatesBound(ToggleAll([], clicks), GoalLabels());
  }
}
