# Onboarding survey: profile upsert and wizard, in Dafny

This project models a student onboarding survey. Its core is in two parts.

The server route `POST /profile` validates a JSON draft. In one transaction it updates or inserts the
`user_profiles` row for the draft's e-mail, replaces that profile's `user_interests`, `user_skills`
and `user_goals` rows, and answers 201 with the profile id. It answers 400 when a required field is
missing and 500, after a ROLLBACK, when a query throws. `GET /profile/:email` reads a profile back
with its three child lists.

The browser wizard has four steps. Each step has a guard that must pass before Next, and the last
step submits the draft to the route. There are also the three step components that edit the draft:
career-interest chips, the skills editor and goal cards.

Modules:

- `Options`: the `Option` datatype.
- `Text`: JavaScript's white-space class `\s`, `trim` and `toLowerCase`.
- `Lists`: the filters and toggles the components use, with their lemmas.
- `Payload`: the JSON body the wizard posts and the route reads. The skill field `type` is named
  `kind`, because `type` is a keyword in Dafny.
- `ProfileStore`: the route (`server/routes/profile.js`).
  - The four tables are sequences of rows.
  - `Upserted` is the store after a committed POST, as one function. Lemmas about it state
    replacement, the invariant and read-back.
  - The class `ProfileDb` runs the handlers step by step over mutable tables. It does the explicit
    restore on ROLLBACK, and its methods are proved against `Upserted` and `Lookup`.
- `OnboardingSurvey`: the wizard class with `activeStep`, `error` and `formData`, the step guards,
  the e-mail pattern and the shallow merge of `updateFormData`.
- `SkillsInput`, `CareerInterests`, `GoalsSelection`: the three step components.

Modelling choices:

- **Query failures.** The database is a parameter. `fault: Option<nat>` numbers the `client.query`
  call that throws (0 is BEGIN), and `errorMessage` is that error's message.
- **ROLLBACK.** It is assumed to succeed. It restores the four tables exactly.
- **Id sequence.** The `SERIAL` sequence is modelled as the field `nextId`. Sequences are not
  transactional in PostgreSQL, so a rolled-back INSERT may still have consumed an id. The
  contracts say only `old(nextId) <= nextId` on failure.
- **Schema constraints.** The database schema is not part of this model. The uniqueness of ids and
  e-mails and the reference from every child row to a profile are the invariant `StoreInvariant`,
  which every committed upsert preserves. They are not database constraints here.
- **JavaScript truthiness.** A required string is present when it is given and non-empty. A
  required list is present when it is given at all, so an empty array passes the server's check.

Two behaviours one might expect from the wizard are not what the code does; the model follows the code:

- **Duplicate skills.** One would expect the client to skip skill labels that differ only in case.
  The code compares the untrimmed input with the stored, trimmed labels (`SkillsInput.js:55-57`).
  So `" Python"` is added next to `"Python"` (`UntrimmedInputDefeatsDuplicateCheck`). Only input
  without surrounding white space is deduplicated (`AddKeepsNoCaseDuplicates`).
- **Blank input.** One would expect the text field to be cleared after every attempt. A blank input
  returns before `setNewSkill('')`, so the field is not cleared (`SkillsInput.Panel.AddSkill`).

## Model

| member | source | states |
|---|---|---|
| Text.TrimEmptyIffBlank | client/src/components/steps/SkillsInput.js:52 | `skill.trim() === ''` holds exactly when every character is JavaScript white space |
| Text.TrimmedIffUnchanged | client/src/components/steps/SkillsInput.js:54 | `trim` leaves a string unchanged exactly when neither end is white space |
| Text.Trim | client/src/components/steps/SkillsInput.js:54 | `skill.trim()` is the slice of the input left after cutting a run of white space from each end, and leaves white space at neither end |
| Text.LowerEqualIff | client/src/components/steps/SkillsInput.js:56 | `a.toLowerCase() === b.toLowerCase()` exactly when the strings have the same length and agree character by character up to the case of ASCII letters |
| Text.LowerIdempotent | client/src/components/steps/SkillsInput.js:56 | lower-casing twice is lower-casing once |
| Lists.Toggle | client/src/components/steps/CareerInterests.js:26-34 | the toggled value's membership flips, every other value's membership is unchanged, an absent value is appended at the end, a present one is removed keeping the others' order and counts |
| Lists.RemoveAll | client/src/components/steps/CareerInterests.js:28 | `filter(i => i !== x)` leaves no `x`, keeps every other element and each one's count |
| Lists.ToggleTwiceAbsent | client/src/components/steps/GoalsSelection.js:51-62 | toggling an absent value twice restores the list |
| Lists.ToggleAllInvariant | client/src/components/steps/GoalsSelection.js:51-62 | a run of toggles started from a list without duplicates never creates one, and leaves only values from the start list or the clicks |
| Lists.NoDuplicatesBound | client/src/components/steps/GoalsSelection.js:74 | a duplicate-free selection drawn from a catalogue is no longer than the catalogue |
| ProfileStore.Validate | server/routes/profile.js:64-69 | a draft is accepted exactly when email and classYear are non-empty and interests, skills and goals are given; the accepted submission carries the request's email, names, class year and lists, as destructured at line 61 |
| ProfileStore.FindByEmail | server/routes/profile.js:72-75 | `SELECT id … WHERE email = $1` finds the first row with that email, and finds nothing exactly when no row has it |
| ProfileStore.Delete | server/routes/profile.js:90-92 | `DELETE … WHERE user_id = $1` leaves no row of that profile and keeps every other row |
| ProfileStore.SelectDelete | server/routes/profile.js:89-92 | after the DELETE the profile has no child rows, and every other profile's rows read back unchanged |
| ProfileStore.SelectRowsFor | server/routes/profile.js:104-110 | the rows inserted for one profile read back as the inserted list, in order, and under no other profile |
| ProfileStore.SkillColumnsRoundTrip | server/routes/profile.js:113-117 | storing `{skill, type}` as the `skill, skill_type` columns and mapping them back as at line 43 gives the original list |
| ProfileStore.Upserted | server/routes/profile.js:72-126 | the committed upsert as one function: the sequence never goes back, the profile table grows by one row exactly for an unseen email, and some row then has the email, the returned id and the submitted names and class year |
| ProfileStore.UpsertExistingProfile | server/routes/profile.js:79-92 | a known email keeps its row position and id, gets the new names and class year, leaves other profiles alone, and consumes no id |
| ProfileStore.UpsertNewProfile | server/routes/profile.js:93-102 | an unseen email appends exactly one row whose id, the sequence's next value, is the returned userId |
| ProfileStore.UpsertReplacesChildren | server/routes/profile.js:89-126 | after a commit the profile's interests, skills and goals are exactly the submitted lists (replaced, not merged), and every other profile's child rows are unchanged |
| ProfileStore.UpsertRowCounts | server/routes/profile.js:89-126 | each child table loses the profile's old rows and gains one row per submitted entry; a new email adds one profile row |
| ProfileStore.UpsertPreservesInvariant | server/routes/profile.js:72-126 | a committed upsert keeps ids below the sequence, ids and emails unique, and every child row pointing at a profile |
| ProfileStore.Lookup | server/routes/profile.js:11-45 | the lookup is empty exactly when no profile has the email; otherwise its id, names and class year are those of a row with that email (`...user`), and its lists are that profile's child rows |
| ProfileStore.SaveThenLookup | server/routes/profile.js:130-134 | after a committed upsert, looking the email up returns the submitted names, class year and lists under the returned userId |
| ProfileStore.NoServerSideSkillChecks | server/routes/profile.js:113-117 | the route stores case-variant duplicate skills and any skill type unchanged |
| ProfileStore.ProfileDb.Rollback | server/routes/profile.js:136-139 | ROLLBACK restores the tables saved at BEGIN and answers 500 with `Failed to save profile` and the error's message |
| ProfileStore.ProfileDb.WriteProfile | server/routes/profile.js:72-102 | the SELECT and then the UPDATE with three DELETEs, or the INSERT, in that query order; when none throws, the profile table, the returned id and the sequence are those of `Upserted`, and its child tables are the current ones plus the rows still to be inserted |
| ProfileStore.ProfileDb.InsertInterests | server/routes/profile.js:104-110 | the loop appends one row per interest, in order, unless one of its queries throws |
| ProfileStore.ProfileDb.InsertSkills | server/routes/profile.js:112-118 | the loop appends one `skill, skill_type` row per skill, in order, unless one of its queries throws |
| ProfileStore.ProfileDb.InsertGoals | server/routes/profile.js:120-126 | the loop appends one row per goal, in order, unless one of its queries throws |
| ProfileStore.ProfileDb.WriteAll | server/routes/profile.js:72-126 | runs every query between BEGIN and COMMIT; it fails exactly when one of them throws, and otherwise leaves the tables, the returned id and the sequence of `Upserted` |
| ProfileStore.ProfileDb.SaveProfile | server/routes/profile.js:55-143 | a BEGIN failure gives 500 and a missing field gives 400, the tables untouched either way; a query that throws gives 500 with the tables restored; otherwise 201 with the userId, and the state is `Upserted` |
| ProfileStore.ProfileDb.GetProfile | server/routes/profile.js:6-52 | 404 `User not found` when no profile has the email, 500 `Failed to fetch profile` when one of its four queries throws, otherwise the profile with its lists |
| OnboardingSurvey.Merge | client/src/components/OnboardingSurvey.js:104 | `{ ...prev, ...updates }`: every key the update carries takes its value, every other key keeps the old one |
| OnboardingSurvey.MergeIdempotent | client/src/components/OnboardingSurvey.js:103-106 | applying the same update twice equals applying it once, and an empty update changes nothing |
| OnboardingSurvey.IsValidEmail | client/src/components/OnboardingSurvey.js:50-51 | `emailRegex.test(email)`, decided by locating the first '@'; `EmailTestMatchesPattern` proves it equal to the pattern's language |
| OnboardingSurvey.EmailTestMatchesPattern | client/src/components/OnboardingSurvey.js:50-51 | the executable test accepts exactly the strings of `/^[^\s@]+@[^\s@]+\.[^\s@]+$/`, as three non-empty runs split by '@' and '.' |
| OnboardingSurvey.AcceptedEmailShape | client/src/components/OnboardingSurvey.js:50 | an accepted address has no white space, exactly one '@' with text before it, and a '.' after it with text on both sides |
| OnboardingSurvey.StepError | client/src/components/OnboardingSurvey.js:42-64 | step 0 passes exactly when email, first name and class year are filled and the email matches the pattern; steps 1, 2 and 3 pass exactly when interests, skills or goals are non-empty; a failure has a non-empty message |
| OnboardingSurvey.ToRequest | client/src/components/OnboardingSurvey.js:85 | the posted body is the whole draft, and the server accepts it exactly when email and class year are filled |
| OnboardingSurvey.PersonalInfoGuardImpliesServerValidation | client/src/components/OnboardingSurvey.js:44-54 | a draft past the first step's guard passes the server's validation |
| OnboardingSurvey.SubmitOutcome | client/src/components/OnboardingSurvey.js:75-101 | the outcome of `handleSubmit` in the code's order: no goal gives `GoalRequired`; a BEGIN failure gives `Failed to save profile`; a missing email or class year gives `Missing required fields`; either way the store is unchanged; a later query failure gives `Failed to save profile` with the tables restored; otherwise the saved id, no error, and the upserted store |
| OnboardingSurvey.SubmitThenLookup | client/src/components/OnboardingSurvey.js:89-94 | when a submission saved, looking its e-mail up returns the draft's fields under the id the wizard navigates with |
| OnboardingSurvey.Wizard.constructor | client/src/components/OnboardingSurvey.js:28-40 | the wizard starts on step 0, with no error and the empty draft |
| OnboardingSurvey.Wizard.HandleNext | client/src/components/OnboardingSurvey.js:42-68 | a failing guard sets its message and keeps the step; a passing one clears the error and advances one step |
| OnboardingSurvey.Wizard.HandleBack | client/src/components/OnboardingSurvey.js:70-73 | clears the error and goes back one step |
| OnboardingSurvey.Wizard.UpdateFormData | client/src/components/OnboardingSurvey.js:103-106 | the draft becomes the merge of the update into it, and the error is cleared |
| OnboardingSurvey.Wizard.HandleSubmit | client/src/components/OnboardingSurvey.js:75-101 | posts the draft through `SaveProfile` and ends in the state `SubmitOutcome` gives for each case, keeping the step and the draft |
| OnboardingSurvey.Wizard.BackButton | client/src/components/OnboardingSurvey.js:171-173 | disabled on step 0, otherwise goes back one step |
| OnboardingSurvey.Wizard.PrimaryButton | client/src/components/OnboardingSurvey.js:186-188 | before the last step it runs Next: a failing guard sets its message and keeps the step, a passing one clears the error and advances, and the store is left alone; on the last step it submits, with the outcome `SubmitOutcome` gives; the step stays one of the four |
| SkillsInput.IsDuplicate | client/src/components/steps/SkillsInput.js:55-57 | some stored label equals the untrimmed input after lower-casing both |
| SkillsInput.IsAdded | client/src/components/steps/SkillsInput.js:200 | `isAdded`: some stored label equals the suggestion exactly, case included (also line 233) |
| SkillsInput.AddedSkills | client/src/components/steps/SkillsInput.js:51-65 | the list changes exactly when the input is not blank and matches no label ignoring case; then the trimmed skill with its type is appended at the end |
| SkillsInput.AddAtMostOne | client/src/components/steps/SkillsInput.js:59-63 | an add attempt grows the list by at most one and keeps the existing entries in order |
| SkillsInput.AddKeepsNoCaseDuplicates | client/src/components/steps/SkillsInput.js:55-59 | for input without surrounding white space, a list without case-insensitive duplicates keeps none |
| SkillsInput.UntrimmedInputDefeatsDuplicateCheck | client/src/components/steps/SkillsInput.js:54-57 | `" Python"` is added next to `"Python"`, so the list holds `"Python"` twice |
| SkillsInput.CaseVariantIsRefused | client/src/components/steps/SkillsInput.js:55-57 | `"python"` is refused next to `"Python"` |
| SkillsInput.RemoveSkill | client/src/components/steps/SkillsInput.js:67-71 | every skill with exactly that label is removed; the others stay, in order and with their counts |
| SkillsInput.AddedIsDuplicate | client/src/components/steps/SkillsInput.js:200 | a suggestion marked added would also be refused by `addSkill` |
| SkillsInput.CaseVariantSuggestionNotMarkedAdded | client/src/components/steps/SkillsInput.js:233 | a suggestion present only in another case looks not added, yet adding it is refused |
| SkillsInput.SuggestionNotBlank | client/src/components/steps/SkillsInput.js:16-45 | no suggested skill is blank, so clicking one always reaches `setNewSkill('')` |
| SkillsInput.Panel.constructor | client/src/components/steps/SkillsInput.js:48-49 | the text field starts empty and the type at `technical` |
| SkillsInput.Panel.AddSkill | client/src/components/steps/SkillsInput.js:51-65 | returns the update `AddedSkills` describes; the text field is cleared unless the input was blank |
| SkillsInput.Panel.Edit | client/src/components/steps/SkillsInput.js:152 | the text field takes the typed value |
| SkillsInput.Panel.KeyPress | client/src/components/steps/SkillsInput.js:73-78 | Enter adds the typed skill with the selected type; any other key changes nothing |
| SkillsInput.Panel.AddButton | client/src/components/steps/SkillsInput.js:180 | adds the typed skill with the selected type |
| SkillsInput.Panel.ClickSuggestion | client/src/components/steps/SkillsInput.js:199-206 | for a technical suggestion with type `technical` or a soft one with `soft` (line 238): clicking one marked added changes nothing; otherwise it makes the `addSkill` update and clears whatever was typed |
| SkillsInput.Panel.ChangeType | client/src/components/steps/SkillsInput.js:94 | a button value becomes the type; the `null` of a deselecting click is ignored, so the type stays `technical` or `soft` |
| CareerInterests.InterestKey | client/src/components/steps/CareerInterests.js:61 | the key `${category} - ${role}` a chip toggles |
| CareerInterests.KeysOf | client/src/components/steps/CareerInterests.js:47-61 | every chip's key, category by category in display order; `KeysOfAreCategoryRoles` characterises its members |
| CareerInterests.RoleKeys | client/src/components/steps/CareerInterests.js:60-61 | one `Category - Role` key per role, in display order |
| CareerInterests.KeysOfAreCategoryRoles | client/src/components/steps/CareerInterests.js:10-21 | the chips' keys are exactly the `Category - Role` strings of the catalogue |
| CareerInterests.ToggleInterest | client/src/components/steps/CareerInterests.js:24-35 | a missing list counts as empty; the key's membership flips and no other key's does; an absent key is appended |
| CareerInterests.ToggleInterestTwice | client/src/components/steps/CareerInterests.js:24-35 | clicking an unselected chip twice restores the selection |
| CareerInterests.ClickedInterests | client/src/components/steps/CareerInterests.js:67 | for any catalogue, and so for the one rendered, selections clicked from the empty draft never repeat a key, hold only its `Category - Role` keys, and number at most its chips |
| GoalsSelection.GoalLabels | client/src/components/steps/GoalsSelection.js:17-48 | the cards' labels are the five strings `Internship`, `Full-time Job`, `Networking`, `Career Exploration`, `Skill Development`, and no two are equal |
| GoalsSelection.ToggleGoal | client/src/components/steps/GoalsSelection.js:51-62 | a missing list counts as empty; the goal's membership flips and no other goal's does; an absent goal is appended |
| GoalsSelection.ToggleGoalTwice | client/src/components/steps/GoalsSelection.js:51-62 | clicking an unselected card twice restores the selection |
| GoalsSelection.ClickedGoals | client/src/components/steps/GoalsSelection.js:100 | selections clicked from the empty draft never repeat a goal, hold only card labels, and number at most five |

## Left out

- Rendering: layout, styling, icons, the stepper, the error alert and the chip and card colours are not modelled. Only the state and handlers behind them are.
- PersonalInfo.js and Confirmation.js only display and edit fields through `updateFormData`. They are not part of this model.
- `GET /profiles` (`profile.js:146-154`) lists raw rows ordered by `created_at`. Timestamps are not modelled, so neither is this route.
- The `created_at` and `updated_at` columns and `CURRENT_TIMESTAMP` are not modelled: this model has no clock.
- Connection pooling and `client.release()` are not modelled. Concurrent requests and their interleaving are out of scope: each request is atomic here.
- A 400 from `POST /profile` leaves its BEGIN open on the released connection. The model records only that no table changes.
- A failing ROLLBACK is assumed away.
- `server.js`, `db/config.js` and `scripts/init-db.js` (wiring, configuration and schema creation) are not part of this model. Neither is the database schema.
- JSON bodies whose fields have the wrong type (a string where a list is expected, and so on) are outside the typed `ProfileRequest`.
- Status codes are the constructors of `Response`, not numbers. Headers and URL decoding of `:email` are not modelled.
- `console.log` and `console.error` output is left out.
- The wizard's `loading` flag and the Primary button's `disabled={loading}` are not modelled: nothing is asynchronous here.
- Navigating to the confirmation page is modelled as `HandleSubmit` returning the saved id.
- ProfileStore.Lookup: the child SELECTs (`profile.js:24,30,36`) have no `ORDER BY`, so PostgreSQL promises no row order. The model keeps its tables as sequences and returns rows in insertion order. The in-order read-back in `SelectRowsFor`, `UpsertReplacesChildren`, `SaveThenLookup` and `SubmitThenLookup` is a property of this model; the database guarantees only the same elements with the same counts.
- ProfileStore.Lookup: the response spreads the row (`...user`, `profile.js:41`), so its keys are the column names `first_name`, `last_name` and `class_year`, plus `created_at` and `updated_at`. `ProfileView` carries the values under the draft's field names and drops the timestamps. `SaveThenLookup` and `SubmitThenLookup` therefore round-trip the values, not the JSON keys.
- Text.Lower: maps only the ASCII letters. JavaScript's full Unicode `toLowerCase` is not modelled.
- OnboardingSurvey.Wizard.HandleSubmit: does not model a request that fails without a server response. In the code that shows the fallback message `SubmitFailed`.
- OnboardingSurvey.Merge: an update cannot set a key to `undefined`. The components only ever pass defined values.
- ProfileStore.ProfileDb.SaveProfile: on failure it promises only `old(nextId) <= nextId` for the id sequence, because sequences are not rolled back.
