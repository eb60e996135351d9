/** The skills step: a text field with a technical/soft toggle, chips of suggested
    skills, and the chips of the skills already added. */
module SkillsInput {
  import opened Options
  import opened Text
  import opened Lists
  import opened Payload

  const Technical := "technical"
  const Soft := "soft"

  const SuggestedTechnical := [
    "Python", "JavaScript", "React", "Node.js", "Data Analysis", "SQL", "Machine Learning",
    "Excel", "R", "Java", "C++", "AWS", "Docker"]

  const SuggestedSoft := [
    "Leadership", "Communication", "Public Speaking", "Teamwork", "Problem Solving",
    "Project Management", "Time Management", "Critical Thinking", "Adaptability",
    "Creativity", "Negotiation"]

  /** `formData.skills.some((s) => s.skill.toLowerCase() === skill.toLowerCase())`:
      compared with the input as typed, not trimmed. */
  predicate IsDuplicate(skills: seq<Skill>, input: string) {
    exists k | 0 <= k < |skills| :: Lower(skills[k].skill) == Lower(input)
  }

  /** `isAdded` of a suggestion chip: an exact, case-sensitive name match. */
  predicate IsAdded(skills: seq<Skill>, name: string) {
    exists k | 0 <= k < |skills| :: skills[k].skill == name
  }

  /** What `addSkill(skill, type)` hands to `updateFormData`, or `None` when it does not
      call it: the input trims to nothing, or it equals a name ignoring case. An
      accepted skill is appended at the end, trimmed, with the given type. */
  function AddedSkills(skills: seq<Skill>, input: string, kind: string): (r: Option<seq<Skill>>)
    ensures r.Some? <==> !AllSpace(input) && !IsDuplicate(skills, input)
    ensures r.Some? ==>
      |r.value| == |skills| + 1 && r.value[..|skills|] == skills &&
      r.value[|skills|] == Skill(Trim(input), kind)
  {
    TrimEmptyIffBlank(input);
    if Trim(input) == "" then None
    else if IsDuplicate(skills, input) then None
    else Some(skills + [Skill(Trim(input), kind)])
  }

  /** The skill list after an add attempt. */
  function SkillsAfterAdd(skills: seq<Skill>, input: string, kind: string): seq<Skill> {
    AddedSkills(skills, input, kind).GetOr(skills)
  }

  /** An add attempt grows the list by at most one entry and keeps the existing ones
      in order. */
  lemma AddAtMostOne(skills: seq<Skill>, input: string, kind: string)
    ensures var r := SkillsAfterAdd(skills, input, kind);
      (|r| == |skills| || |r| == |skills| + 1) && r[..|skills|] == skills
  {
  }

  /** No two labels are equal ignoring case. */
  predicate NoCaseDuplicates(skills: seq<Skill>) {
    forall i, j | 0 <= i < j < |skills| :: Lower(skills[i].skill) != Lower(skills[j].skill)
  }

  /** For input without surrounding white space the duplicate check does its job: a
      list without case-insensitive duplicates keeps none after the attempt. */
  lemma AddKeepsNoCaseDuplicates(skills: seq<Skill>, input: string, kind: string)
    requires NoCaseDuplicates(skills)
    requires Trimmed(input)
    ensures NoCaseDuplicates(SkillsAfterAdd(skills, input, kind))
  {
    TrimmedIffUnchanged(input);
    var r := SkillsAfterAdd(skills, input, kind);
    if AddedSkills(skills, input, kind).Some? {
      forall i, j | 0 <= i < j < |r| ensures Lower(r[i].skill) != Lower(r[j].skill) {
        if j == |skills| {
          assert r[i] == skills[i];
          assert r[j].skill == input;
        } else {
          assert r[i] == skills[i] && r[j] == skills[j];
        }
      }
    }
  }

  /** Because the check compares the untrimmed input, " Python" gets past an existing
      "Python" and the list ends up holding "Python" twice. */
  lemma UntrimmedInputDefeatsDuplicateCheck()
    ensures AddedSkills([Skill("Python", Technical)], " Python", Technical) ==
      Some([Skill("Python", Technical), Skill("Python", Technical)])
  {
    var skills := [Skill("Python", Technical)];
    TrimOfPaddedPython();
    PaddedPythonNotDuplicate(skills);
    assert skills + [Skill("Python", Technical)] == [Skill("Python", Technical), Skill("Python", Technical)];
  }

  lemma PaddedPythonNotDuplicate(skills: seq<Skill>)
    requires skills == [Skill("Python", Technical)]
    ensures !IsDuplicate(skills, " Python")
  {
    assert |Lower(skills[0].skill)| == 6;
    assert |Lower(" Python")| == 7;
  }

  lemma TrimOfPaddedPython()
    ensures Trim(" Python") == "Python"
  {
    var input := " Python";
    assert input[1..] == "Python";
    assert IsSpace(input[0]) && !IsSpace(input[1]);
    assert TrimStart(input) == TrimStart("Python");
    assert TrimStart("Python") == "Python";
    assert TrimEnd("Python") == "Python";
  }

  lemma LowerPython()
    ensures Lower("Python") == Lower("python")
  {
    forall k | 0 <= k < 6 ensures Lower("Python")[k] == Lower("python")[k] {
      if k == 0 {
        assert LowerChar('P') == 'p';
      }
    }
  }

  /** A name that differs only in case is a duplicate: "python" is refused next to
      "Python". */
  lemma CaseVariantIsRefused(kind: string)
    ensures AddedSkills([Skill("Python", Technical)], "python", kind) == None
  {
    var skills := [Skill("Python", Technical)];
    LowerPython();
    assert Lower(skills[0].skill) == Lower("python");
  }

  /** `formData.skills.filter((s) => s.skill !== skillToRemove)`: every entry with
      exactly that name goes, the others stay in order, each as often as before. */
  function RemoveSkill(skills: seq<Skill>, name: string): (r: seq<Skill>)
    ensures forall s | s in r :: s.skill != name
    ensures forall s: Skill | s.skill != name :: (s in r <==> s in skills)
    ensures forall s: Skill | s.skill != name :: multiset(r)[s] == multiset(skills)[s]
    ensures IsSubsequence(r, skills)
  {
    var keep := (s: Skill) => s.skill != name;
    FilterCount(skills, keep);
    FilterIsSubsequence(skills, keep);
    Filter(skills, keep)
  }

  /** An exact match is also a match ignoring case, so an added suggestion would be
      refused by `addSkill` even if its chip were clickable. */
  lemma AddedIsDuplicate(skills: seq<Skill>, name: string)
    requires IsAdded(skills, name)
    ensures IsDuplicate(skills, name)
  {
    var k :| 0 <= k < |skills| && skills[k].skill == name;
    assert Lower(skills[k].skill) == Lower(name);
  }

  /** The converse fails: a suggestion whose name is present only in another case
      looks not added, yet clicking it adds nothing. */
  lemma CaseVariantSuggestionNotMarkedAdded()
    ensures !IsAdded([Skill("python", Technical)], "Python")
    ensures IsDuplicate([Skill("python", Technical)], "Python")
  {
    var skills := [Skill("python", Technical)];
    LowerPython();
    assert Lower(skills[0].skill) == Lower("Python");
    assert skills[0].skill != "Python";
  }

  /** No suggestion is blank, so clicking one always reaches `setNewSkill('')`. */
  lemma SuggestionNotBlank(name: string)
    requires name in SuggestedTechnical || name in SuggestedSoft
    ensures !AllSpace(name)
  {
    assert name != [] && !IsSpace(name[0]);
  }

  /** The component's own state: the text field `newSkill` and the toggle `skillType`. */
  class Panel {
    var newSkill: string
    var skillType: string

    ghost predicate Valid()
      reads this
    {
      skillType == Technical || skillType == Soft
    }

    constructor ()
      ensures Valid() && newSkill == "" && skillType == Technical
    {
      newSkill, skillType := "", Technical;
    }

    /** `addSkill`: returns what it hands to `updateFormData`; clears the text field
        unless the input was blank, which returns before the field is touched. */
    method AddSkill(skills: seq<Skill>, skill: string, kind: string) returns (update: Option<seq<Skill>>)
      modifies this`newSkill
      ensures update == AddedSkills(skills, skill, kind)
      ensures newSkill == if AllSpace(skill) then old(newSkill) else ""
    {
      TrimEmptyIffBlank(skill);
      if Trim(skill) == "" {
        return None;
      }
      update := AddedSkills(skills, skill, kind);
      newSkill := "";
    }

    /** The text field's `onChange`. */
    method Edit(value: string)
      modifies this`newSkill
      ensures newSkill == value
    {
      newSkill := value;
    }

    /** `handleKeyPress`: Enter adds the typed skill with the selected type. */
    method KeyPress(skills: seq<Skill>, key: string) returns (update: Option<seq<Skill>>)
      modifies this`newSkill
      ensures key != "Enter" ==> update == None && newSkill == old(newSkill)
      ensures key == "Enter" ==> update == AddedSkills(skills, old(newSkill), skillType)
      ensures key == "Enter" ==> newSkill == if AllSpace(old(newSkill)) then old(newSkill) else ""
    {
      update := None;
      if key == "Enter" {
        update := AddSkill(skills, newSkill, skillType);
      }
    }

    /** The Add button. */
    method AddButton(skills: seq<Skill>) returns (update: Option<seq<Skill>>)
      modifies this`newSkill
      ensures update == AddedSkills(skills, old(newSkill), skillType)
      ensures newSkill == if AllSpace(old(newSkill)) then old(newSkill) else ""
    {
      update := AddSkill(skills, newSkill, skillType);
    }

    /** A suggestion chip of the technical or the soft group: `!isAdded &&
        addSkill(skill, type)` with the group's type. Clicking an added suggestion
        changes nothing; any other click clears the text field, whatever was typed. */
    method ClickSuggestion(skills: seq<Skill>, name: string, kind: string) returns (update: Option<seq<Skill>>)
      requires (name in SuggestedTechnical && kind == Technical) || (name in SuggestedSoft && kind == Soft)
      modifies this`newSkill
      ensures IsAdded(skills, name) ==> update == None && newSkill == old(newSkill)
      ensures !IsAdded(skills, name) ==> update == AddedSkills(skills, name, kind) && newSkill == ""
    {
      if IsAdded(skills, name) {
        return None;
      }
      SuggestionNotBlank(name);
      update := AddSkill(skills, name, kind);
    }

    /** The exclusive toggle's `onChange`: `value && setSkillType(value)`; a click on
        the selected button deselects it and passes `null`, which is ignored. */
    method ChangeType(value: Option<string>)
      requires Valid()
      requires value.None? || value.value == Technical || value.value == Soft
      modifies this`skillType
      ensures Valid()
      ensures skillType == value.GetOr(old(skillType))
    {
      if value.Some? {
        skillType := value.value;
      }
    }
  }
}
