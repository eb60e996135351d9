/** The wizard component: four steps, a guard on each, a shallow-merge update of the
    draft, and the submission of the draft to the profile route. */
module OnboardingSurvey {
  import opened Options
  import opened Text
  import opened Payload
  import ProfileStore

  const Steps := ["Personal Info", "Career Interests", "Skills", "Goals"]

  /** The component's `formData`. */
  datatype FormData = FormData(
    email: string,
    firstName: string,
    lastName: string,
    classYear: string,
    interests: seq<string>,
    skills: seq<Skill>,
    goals: seq<string>)

  const EmptyForm := FormData("", "", "", "", [], [], [])

  /** The object handed to `updateFormData`: the keys it carries are `Some`. */
  datatype FormUpdate = FormUpdate(
    email: Option<string>,
    firstName: Option<string>,
    lastName: Option<string>,
    classYear: Option<string>,
    interests: Option<seq<string>>,
    skills: Option<seq<Skill>>,
    goals: Option<seq<string>>)

  const NoUpdate := FormUpdate(None, None, None, None, None, None, None)

  /** The keys of `formData`, to speak of the record field by field. */
  datatype Field = Email | FirstName | LastName | ClassYear | Interests | Skills | Goals

  datatype FieldValue = Str(s: string) | Labels(labels: seq<string>) | SkillList(list: seq<Skill>)

  function Get(f: FormData, k: Field): FieldValue {
    match k
    case Email => Str(f.email)
    case FirstName => Str(f.firstName)
    case LastName => Str(f.lastName)
    case ClassYear => Str(f.classYear)
    case Interests => Labels(f.interests)
    case Skills => SkillList(f.skills)
    case Goals => Labels(f.goals)
  }

  function Given(u: FormUpdate, k: Field): Option<FieldValue> {
    match k
    case Email => if u.email.Some? then Some(Str(u.email.value)) else None
    case FirstName => if u.firstName.Some? then Some(Str(u.firstName.value)) else None
    case LastName => if u.lastName.Some? then Some(Str(u.lastName.value)) else None
    case ClassYear => if u.classYear.Some? then Some(Str(u.classYear.value)) else None
    case Interests => if u.interests.Some? then Some(Labels(u.interests.value)) else None
    case Skills => if u.skills.Some? then Some(SkillList(u.skills.value)) else None
    case Goals => if u.goals.Some? then Some(Labels(u.goals.value)) else None
  }

  /** `{ ...prev, ...updates }`: every key the update carries takes its value, every
      other key keeps the old one. */
  function Merge(prev: FormData, updates: FormUpdate): (r: FormData)
    ensures forall k: Field :: Get(r, k) == if Given(updates, k).Some? then Given(updates, k).value else Get(prev, k)
  {
    FormData(
      updates.email.GetOr(prev.email),
      updates.firstName.GetOr(prev.firstName),
      updates.lastName.GetOr(prev.lastName),
      updates.classYear.GetOr(prev.classYear),
      updates.interests.GetOr(prev.interests),
      updates.skills.GetOr(prev.skills),
      updates.goals.GetOr(prev.goals))
  }

  /** Merging the same update twice is merging it once, and an empty update changes
      nothing. */
  lemma MergeIdempotent(prev: FormData, updates: FormUpdate)
    ensures Merge(Merge(prev, updates), updates) == Merge(prev, updates)
    ensures Merge(prev, NoUpdate) == prev
  {
  }

  // ---------- the e-mail pattern /^[^\s@]+@[^\s@]+\.[^\s@]+$/ ----------

  /** `[^\s@]`. */
  predicate PatternChar(c: char) {
    c != '@' && !IsSpace(c)
  }

  predicate AllPattern(s: string) {
    forall k | 0 <= k < |s| :: PatternChar(s[k])
  }

  /** The language of the pattern, read off its three `[^\s@]+` runs: a non-empty run,
      '@', a non-empty run, '.', a non-empty run, and nothing else. */
  ghost predicate MatchesEmailPattern(s: string) {
    exists i, j | 0 < i && i + 1 < j && j + 1 < |s| ::
      && s[i] == '@' && s[j] == '.'
      && AllPattern(s[..i]) && AllPattern(s[i + 1..j]) && AllPattern(s[j + 1..])
  }

  /** The position of the first `c` in `s`. */
  function IndexOf(s: string, c: char): (r: Option<nat>)
    ensures r.Some? ==> r.value < |s| && s[r.value] == c && forall k | 0 <= k < r.value :: s[k] != c
    ensures r.None? ==> forall k | 0 <= k < |s| :: s[k] != c
  {
    if s == [] then None
    else if s[0] == c then Some(0)
    else match IndexOf(s[1..], c)
      case None => None
      case Some(k) => Some(k + 1)
  }

  /** `emailRegex.test(email)`, decided by locating the '@'. */
  function IsValidEmail(s: string): bool {
    match IndexOf(s, '@')
    case None => false
    case Some(i) =>
      var rest := s[i + 1..];
      0 < i && AllPattern(s[..i]) && AllPattern(rest) &&
      exists j | 0 < j < |rest| - 1 :: rest[j] == '.'
  }

  /** The test accepts exactly the strings of the pattern's language. */
  lemma EmailTestMatchesPattern(s: string)
    ensures IsValidEmail(s) <==> MatchesEmailPattern(s)
  {
    if IsValidEmail(s) {
      AcceptedMatchesPattern(s);
    }
    if MatchesEmailPattern(s) {
      PatternIsAccepted(s);
    }
  }

  lemma AcceptedMatchesPattern(s: string)
    requires IsValidEmail(s)
    ensures MatchesEmailPattern(s)
  {
    var i := IndexOf(s, '@').value;
    var rest := s[i + 1..];
    var j :| 0 < j < |rest| - 1 && rest[j] == '.';
    var jj := i + 1 + j;
    assert s[jj] == '.';
    assert s[i + 1..jj] == rest[..j];
    assert s[jj + 1..] == rest[j + 1..];
    assert AllPattern(rest[..j]);
    assert AllPattern(rest[j + 1..]);
  }

  lemma PatternIsAccepted(s: string)
    requires MatchesEmailPattern(s)
    ensures IsValidEmail(s)
  {
    var i, j :| 0 < i && i + 1 < j && j + 1 < |s| &&
      s[i] == '@' && s[j] == '.' &&
      AllPattern(s[..i]) && AllPattern(s[i + 1..j]) && AllPattern(s[j + 1..]);
    FirstAt(s, i);
    DomainIsPattern(s, i, j);
    assert s[i + 1..][j - i - 1] == '.';
  }

  /** An '@' preceded by a run of pattern characters is the first '@'. */
  lemma FirstAt(s: string, i: nat)
    requires i < |s| && s[i] == '@' && AllPattern(s[..i])
    ensures IndexOf(s, '@') == Some(i)
  {
    forall k | 0 <= k < i ensures s[k] != '@' {
      assert s[k] == s[..i][k];
    }
  }

  /** Two runs of pattern characters joined by the '.' form one such run. */
  lemma DomainIsPattern(s: string, i: nat, j: nat)
    requires i + 1 < j < |s| && s[j] == '.'
    requires AllPattern(s[i + 1..j]) && AllPattern(s[j + 1..])
    ensures AllPattern(s[i + 1..])
  {
    forall k | i + 1 <= k < |s| ensures PatternChar(s[k]) {
      if k < j {
        assert s[k] == s[i + 1..j][k - i - 1];
      } else if k > j {
        assert s[k] == s[j + 1..][k - j - 1];
      }
    }
    var domain := s[i + 1..];
    forall k | 0 <= k < |domain| ensures PatternChar(domain[k]) {
      assert domain[k] == s[i + 1 + k];
    }
  }

  /** What an accepted address looks like: no white space, exactly one '@' with text
      before it, and after it a '.' with text on both sides. */
  lemma AcceptedEmailShape(s: string)
    requires IsValidEmail(s)
    ensures forall k | 0 <= k < |s| :: !IsSpace(s[k])
    ensures exists i | 0 < i < |s| ::
      && s[i] == '@'
      && (forall k | 0 <= k < |s| && s[k] == '@' :: k == i)
      && (exists j | i + 1 < j < |s| - 1 :: s[j] == '.')
  {
    EmailTestMatchesPattern(s);
    var i, j :| 0 < i && i + 1 < j && j + 1 < |s| &&
      s[i] == '@' && s[j] == '.' &&
      AllPattern(s[..i]) && AllPattern(s[i + 1..j]) && AllPattern(s[j + 1..]);
    forall k | 0 <= k < |s| && k != i ensures PatternChar(s[k]) {
      if k < i {
        assert s[k] == s[..i][k];
      } else if k < j {
        assert s[k] == s[i + 1..j][k - i - 1];
      } else if k > j {
        assert s[k] == s[j + 1..][k - j - 1];
      }
    }
    assert i + 1 < j < |s| - 1 && s[j] == '.';
  }

  // ---------- the step guards ----------

  const FillRequired := "Please fill in all required fields"
  const InvalidEmail := "Please enter a valid email address"
  const InterestRequired := "Please select at least one career interest"
  const SkillRequired := "Please add at least one skill"
  const GoalRequired := "Please select at least one goal"
  const SubmitFailed := "Failed to save profile. Please try again."

  /** The message `handleNext` shows on `step`, or `None` when it lets the wizard
      advance. */
  function StepError(step: int, f: FormData): (r: Option<string>)
    ensures r.Some? ==> r.value != ""
    ensures step == 0 ==>
      (r.None? <==> f.email != "" && f.firstName != "" && f.classYear != "" && MatchesEmailPattern(f.email))
    ensures step == 1 ==> (r.None? <==> f.interests != [])
    ensures step == 2 ==> (r.None? <==> f.skills != [])
    ensures step == 3 ==> (r.None? <==> f.goals != [])
    ensures !(0 <= step < |Steps|) ==> r.None?
  {
    EmailTestMatchesPattern(f.email);
    if step == 0 then
      if f.email == "" || f.firstName == "" || f.classYear == "" then Some(FillRequired)
      else if !IsValidEmail(f.email) then Some(InvalidEmail)
      else None
    else if step == 1 && |f.interests| == 0 then Some(InterestRequired)
    else if step == 2 && |f.skills| == 0 then Some(SkillRequired)
    else if step == 3 && |f.goals| == 0 then Some(GoalRequired)
    else None
  }

  /** The body `axios.post` sends: the whole draft. The server's validation accepts it
      exactly when the e-mail and the class year are filled in. */
  function ToRequest(f: FormData): (r: ProfileRequest)
    ensures ProfileStore.Validate(r).Some? <==> f.email != "" && f.classYear != ""
    ensures ProfileStore.Validate(r).Some? ==>
      ProfileStore.Validate(r).value ==
        ProfileStore.Submission(f.email, Some(f.firstName), Some(f.lastName), f.classYear,
                                f.interests, f.skills, f.goals)
  {
    ProfileRequest(Some(f.email), Some(f.firstName), Some(f.lastName), Some(f.classYear),
                   Some(f.interests), Some(f.skills), Some(f.goals))
  }

  /** A draft that passes the first step's guard also passes the server's validation. */
  lemma PersonalInfoGuardImpliesServerValidation(f: FormData)
    requires StepError(0, f).None?
    ensures ProfileStore.Validate(ToRequest(f)).Some?
  {
  }

  /** What `handleSubmit` does to draft `f` against the profile route: the store before
      (`before`, `beforeId`) and after (`after`, `afterId`), the id it navigates with and
      the error it shows. Checked in the code's order: the goal guard, BEGIN, the
      server's presence check, then the upsert's queries. */
  predicate SubmitOutcome(f: FormData, fault: Option<nat>,
                          before: ProfileStore.Tables, beforeId: nat,
                          after: ProfileStore.Tables, afterId: nat,
                          saved: Option<nat>, error: string)
  {
    if f.goals == [] then
      saved == None && error == GoalRequired && after == before && afterId == beforeId
    else if fault == Some(0) then
      saved == None && error == ProfileStore.SaveFailed && after == before && afterId == beforeId
    else if f.email == "" || f.classYear == "" then
      saved == None && error == ProfileStore.MissingFields && after == before && afterId == beforeId
    else
      var sub := ProfileStore.Validate(ToRequest(f)).value;
      var u := ProfileStore.Upserted(before, beforeId, sub);
      if ProfileStore.Aborts(fault, ProfileStore.QueryCount(before, sub)) then
        saved == None && error == ProfileStore.SaveFailed && after == before && beforeId <= afterId
      else
        saved == Some(u.userId) && error == "" && after == u.tables && afterId == u.nextId
  }

  /** A submission that saved is what `GET /profile/:email` returns for the draft's
      e-mail: the draft's fields under the id the wizard navigates with. */
  lemma SubmitThenLookup(f: FormData, fault: Option<nat>,
                         before: ProfileStore.Tables, beforeId: nat,
                         after: ProfileStore.Tables, afterId: nat,
                         saved: Option<nat>, error: string)
    requires ProfileStore.StoreInvariant(before, beforeId)
    requires SubmitOutcome(f, fault, before, beforeId, after, afterId, saved, error)
    requires saved.Some?
    ensures ProfileStore.Lookup(after, f.email) ==
      Some(ProfileStore.ProfileView(saved.value, f.email, Some(f.firstName), Some(f.lastName),
                                    f.classYear, f.interests, f.skills, f.goals))
  {
    var sub := ProfileStore.Validate(ToRequest(f)).value;
    ProfileStore.SaveThenLookup(before, beforeId, sub);
  }

  // ---------- the component ----------

  class Wizard {
    var activeStep: int
    var error: string
    var formData: FormData

    /** The step is one of the four. */
    ghost predicate Valid()
      reads this
    {
      0 <= activeStep < |Steps|
    }

    constructor ()
      ensures Valid()
      ensures activeStep == 0 && error == "" && formData == EmptyForm
    {
      activeStep, error, formData := 0, "", EmptyForm;
    }

    /** `handleNext`: on a failed guard the error is set and nothing else changes;
        otherwise the error is cleared and the step advances by one. */
    method HandleNext()
      modifies this
      ensures formData == old(formData)
      ensures StepError(old(activeStep), old(formData)).Some? ==>
        error == StepError(old(activeStep), old(formData)).value && activeStep == old(activeStep)
      ensures StepError(old(activeStep), old(formData)).None? ==>
        error == "" && activeStep == old(activeStep) + 1
    {
      var e := StepError(activeStep, formData);
      if e.Some? {
        error := e.value;
        return;
      }
      error := "";
      activeStep := activeStep + 1;
    }

    /** `handleBack`. */
    method HandleBack()
      modifies this
      ensures formData == old(formData)
      ensures error == "" && activeStep == old(activeStep) - 1
    {
      error := "";
      activeStep := activeStep - 1;
    }

    /** `updateFormData`: merge the update into the draft and clear the error. */
    method UpdateFormData(updates: FormUpdate)
      modifies this
      ensures formData == Merge(old(formData), updates)
      ensures error == "" && activeStep == old(activeStep)
    {
      formData := Merge(formData, updates);
      error := "";
    }

    /** `handleSubmit` against the profile route: with no goal it refuses and the store
        is not touched; otherwise it posts the draft, and returns the saved id (the
        navigation to the confirmation page) or shows the server's error. `fault` and
        `errorMessage` are the store failure, as in `SaveProfile`. */
    method HandleSubmit(db: ProfileStore.ProfileDb, fault: Option<nat>, errorMessage: string)
      returns (saved: Option<nat>)
      requires db.Valid()
      modifies this, db
      ensures db.Valid()
      ensures activeStep == old(activeStep) && formData == old(formData)
      ensures SubmitOutcome(formData, fault, old(db.Snapshot()), old(db.nextId),
                            db.Snapshot(), db.nextId, saved, error)
    {
      if |formData.goals| == 0 {
        error := GoalRequired;
        return None;
      }
      error := "";
      var resp := db.SaveProfile(ToRequest(formData), fault, errorMessage);
      if resp.Created? {
        saved := Some(resp.userId);
      } else {
        // the route answers 400 or 500 here, both carrying an `error`
        saved := None;
        error := if resp.Found? then SubmitFailed else resp.error;
      }
    }

    /** The Back button: disabled on the first step. */
    method BackButton()
      requires Valid()
      modifies this
      ensures Valid()
      ensures formData == old(formData)
      ensures old(activeStep) == 0 ==> activeStep == 0 && error == old(error)
      ensures old(activeStep) > 0 ==> activeStep == old(activeStep) - 1 && error == ""
    {
      if activeStep != 0 {
        HandleBack();
      }
    }

    /** The primary button: Submit on the last step, Next before it; either way the
        step stays within the four. */
    method PrimaryButton(db: ProfileStore.ProfileDb, fault: Option<nat>, errorMessage: string)
      returns (saved: Option<nat>)
      requires Valid() && db.Valid()
      modifies this, db
      ensures Valid() && db.Valid()
      ensures formData == old(formData)
      ensures old(activeStep) < |Steps| - 1 ==>
        saved == None && db.Snapshot() == old(db.Snapshot()) && db.nextId == old(db.nextId) &&
        activeStep == (if StepError(old(activeStep), formData).None? then old(activeStep) + 1 else old(activeStep)) &&
        error == (if StepError(old(activeStep), formData).None? then "" else StepError(old(activeStep), formData).value)
      ensures old(activeStep) == |Steps| - 1 ==>
        activeStep == old(activeStep) &&
        SubmitOutcome(formData, fault, old(db.Snapshot()), old(db.nextId), db.Snapshot(), db.nextId, saved, error)
    {
      if activeStep == |Steps| - 1 {
        saved := HandleSubmit(db, fault, errorMessage);
      } else {
        HandleNext();
        saved := None;
      }
    }
  }
}
