/** The profile routes of the server: `POST /profile` upserts one profile and
    replaces its interests, skills and goals inside one transaction;
    `GET /profile/:email` assembles a profile from the four tables.
    The database is four sequences of rows and an id counter, changed by one request
    at a time. */
module ProfileStore {
  import opened Options
  import opened Lists
  import opened Payload

  /** A row of `user_profiles`. `NULL` names are `None`. Timestamps are not modelled. */
  datatype ProfileRow = ProfileRow(
    id: nat,
    email: string,
    firstName: Option<string>,
    lastName: Option<string>,
    classYear: string)

  /** A row of `user_interests`, `user_skills` or `user_goals`: the owning profile's
      id and the row's payload. */
  datatype ChildRow<V> = ChildRow(userId: nat, value: V)

  /** The payload columns of `user_skills`. */
  datatype SkillColumns = SkillColumns(skill: string, skillType: string)

  /** The whole store, in table order. */
  datatype Tables = Tables(
    profiles: seq<ProfileRow>,
    interests: seq<ChildRow<string>>,
    skills: seq<ChildRow<SkillColumns>>,
    goals: seq<ChildRow<string>>)

  /** A request body that passed validation. */
  datatype Submission = Submission(
    email: string,
    firstName: Option<string>,
    lastName: Option<string>,
    classYear: string,
    interests: seq<string>,
    skills: seq<Skill>,
    goals: seq<string>)

  /** The profile `GET /profile/:email` sends: the profile row's columns plus its
      three child lists. The body spreads the row, so its keys are the column names
      (`first_name`, `last_name`, `class_year`, with `created_at` and `updated_at`);
      the fields here carry the values under the names of the posted draft, and the
      two timestamps are not modelled. */
  datatype ProfileView = ProfileView(
    id: nat,
    email: string,
    firstName: Option<string>,
    lastName: Option<string>,
    classYear: string,
    interests: seq<string>,
    skills: seq<Skill>,
    goals: seq<string>)

  /** The HTTP responses of the two routes: status and JSON body. */
  datatype Response =
    | Created(message: string, userId: nat)             // 201 { success: true, message, userId }
    | BadRequest(error: string, required: seq<string>)  // 400 { error, required }
    | NotFound(error: string)                           // 404 { error }
    | ServerError(error: string, detail: Option<string>)  // 500 { error[, message] }
    | Found(profile: ProfileView)                       // 200 profile

  const SavedMessage := "Profile saved successfully"
  const MissingFields := "Missing required fields"
  const RequiredFields := ["email", "classYear", "interests", "skills", "goals"]
  const SaveFailed := "Failed to save profile"
  const UserNotFound := "User not found"
  const FetchFailed := "Failed to fetch profile"

  /** A string field is truthy in JavaScript when it is present and not empty. */
  predicate Truthy(s: Option<string>) {
    s.Some? && s.value != ""
  }

  /** The presence check of the POST handler. Arrays are truthy even when empty, so
      only their presence is checked; their contents are not checked at all. */
  function Validate(req: ProfileRequest): (r: Option<Submission>)
    ensures r.Some? <==>
      Truthy(req.email) && Truthy(req.classYear) &&
      req.interests.Some? && req.skills.Some? && req.goals.Some?
    ensures r.Some? ==>
      && r.value.email == req.email.value && r.value.email != ""
      && r.value.firstName == req.firstName && r.value.lastName == req.lastName
      && r.value.classYear == req.classYear.value && r.value.classYear != ""
      && r.value.interests == req.interests.value && r.value.skills == req.skills.value
      && r.value.goals == req.goals.value
  {
    if !Truthy(req.email) || !Truthy(req.classYear) ||
       req.interests.None? || req.skills.None? || req.goals.None?
    then None
    else Some(Submission(req.email.value, req.firstName, req.lastName, req.classYear.value,
                         req.interests.value, req.skills.value, req.goals.value))
  }

  // ---------- child tables ----------

  /** One row per value, in order, all owned by `uid` (the INSERT loops). */
  function RowsFor<V>(uid: nat, vs: seq<V>): (r: seq<ChildRow<V>>)
    ensures |r| == |vs|
    ensures forall k | 0 <= k < |vs| :: r[k] == ChildRow(uid, vs[k])
  {
    seq(|vs|, k requires 0 <= k < |vs| => ChildRow(uid, vs[k]))
  }

  /** `DELETE FROM ... WHERE user_id = uid`. */
  function Delete<V(!new)>(rows: seq<ChildRow<V>>, uid: nat): (r: seq<ChildRow<V>>)
    ensures forall row | row in r :: row.userId != uid
    ensures forall row: ChildRow<V> | row.userId != uid :: (row in r <==> row in rows)
  {
    Filter(rows, (row: ChildRow<V>) => row.userId != uid)
  }

  /** `SELECT ... WHERE user_id = uid`: the payloads of that profile's rows, in table order. */
  function Select<V>(rows: seq<ChildRow<V>>, uid: nat): (r: seq<V>)
    ensures |r| <= |rows|
  {
    if rows == [] then []
    else (if rows[0].userId == uid then [rows[0].value] else []) + Select(rows[1..], uid)
  }

  lemma {:induction false} SelectConcat<V>(a: seq<ChildRow<V>>, b: seq<ChildRow<V>>, uid: nat)
    ensures Select(a + b, uid) == Select(a, uid) + Select(b, uid)
  {
    if a == [] {
      assert a + b == b;
    } else {
      var head := if a[0].userId == uid then [a[0].value] else [];
      assert (a + b)[0] == a[0] && (a + b)[1..] == a[1..] + b;
      assert Select(a + b, uid) == head + Select(a[1..] + b, uid);
      assert Select(a, uid) == head + Select(a[1..], uid);
      SelectConcat(a[1..], b, uid);
    }
  }

  /** A table none of whose rows belong to `uid` yields nothing for it. */
  lemma {:induction false} SelectNone<V>(rows: seq<ChildRow<V>>, uid: nat)
    requires forall row | row in rows :: row.userId != uid
    ensures Select(rows, uid) == []
  {
    if rows != [] {
      assert forall row | row in rows[1..] :: row in rows;
      SelectNone(rows[1..], uid);
    }
  }

  /** Rows inserted for `uid` are exactly what `uid` selects from them, and nothing
      for anyone else. */
  lemma {:induction false} SelectRowsFor<V>(uid: nat, vs: seq<V>, other: nat)
    ensures Select(RowsFor(uid, vs), uid) == vs
    ensures other != uid ==> Select(RowsFor(uid, vs), other) == []
  {
    if vs != [] {
      assert RowsFor(uid, vs) == [ChildRow(uid, vs[0])] + RowsFor(uid, vs[1..]);
      SelectRowsFor(uid, vs[1..], other);
    }
  }

  /** After the DELETE, `uid` selects nothing and every other profile selects what it
      did before. */
  lemma {:induction false} SelectDelete<V(!new)>(rows: seq<ChildRow<V>>, uid: nat, other: nat)
    ensures Select(Delete(rows, uid), uid) == []
    ensures other != uid ==> Select(Delete(rows, uid), other) == Select(rows, other)
  {
    SelectNone(Delete(rows, uid), uid);
    if rows != [] && other != uid {
      var keep := (row: ChildRow<V>) => row.userId != uid;
      assert rows == [rows[0]] + rows[1..];
      FilterConcat([rows[0]], rows[1..], keep);
      SelectConcat(Filter([rows[0]], keep), Filter(rows[1..], keep), other);
      SelectDelete(rows[1..], uid, other);
    }
  }

  /** The DELETE removes exactly the rows `uid` selects. */
  lemma {:induction false} DeleteSize<V(!new)>(rows: seq<ChildRow<V>>, uid: nat)
    ensures |Delete(rows, uid)| == |rows| - |Select(rows, uid)|
  {
    if rows != [] {
      var keep := (row: ChildRow<V>) => row.userId != uid;
      assert rows == [rows[0]] + rows[1..];
      FilterConcat([rows[0]], rows[1..], keep);
      DeleteSize(rows[1..], uid);
    }
  }

  /** The skill columns the INSERT writes: `skillObj.skill` and `skillObj.type`. */
  function ColumnsOf(skills: seq<Skill>): (r: seq<SkillColumns>)
    ensures |r| == |skills|
    ensures forall k | 0 <= k < |skills| :: r[k] == SkillColumns(skills[k].skill, skills[k].kind)
  {
    seq(|skills|, k requires 0 <= k < |skills| => SkillColumns(skills[k].skill, skills[k].kind))
  }

  /** The skills the GET sends: `skill_type` renamed to `type`. */
  function SkillsView(cols: seq<SkillColumns>): (r: seq<Skill>)
    ensures |r| == |cols|
    ensures forall k | 0 <= k < |cols| :: r[k] == Skill(cols[k].skill, cols[k].skillType)
  {
    seq(|cols|, k requires 0 <= k < |cols| => Skill(cols[k].skill, cols[k].skillType))
  }

  /** Writing skills to the table and reading them back gives the same skills. */
  lemma SkillColumnsRoundTrip(skills: seq<Skill>)
    ensures SkillsView(ColumnsOf(skills)) == skills
  {
    assert forall k | 0 <= k < |skills| :: SkillsView(ColumnsOf(skills))[k] == skills[k];
  }

  // ---------- the profile table ----------

  /** `SELECT id FROM user_profiles WHERE email = $1`: the position of the first row
      with that email. */
  function FindByEmail(ps: seq<ProfileRow>, email: string): (r: Option<nat>)
    ensures r.Some? ==> r.value < |ps| && ps[r.value].email == email
    ensures r.Some? ==> forall i | 0 <= i < r.value :: ps[i].email != email
    ensures r.None? <==> forall i | 0 <= i < |ps| :: ps[i].email != email
  {
    if ps == [] then None
    else if ps[0].email == email then Some(0)
    else match FindByEmail(ps[1..], email)
      case None => None
      case Some(k) => Some(k + 1)
  }

  ghost function Ids(ps: seq<ProfileRow>): set<nat> {
    set i | 0 <= i < |ps| :: ps[i].id
  }

  /** Every row of a child table references an existing profile (the foreign key). */
  ghost predicate References<V>(rows: seq<ChildRow<V>>, ps: seq<ProfileRow>) {
    forall row | row in rows :: row.userId in Ids(ps)
  }

  /** What the store keeps true between requests: ids below the sequence's next value,
      ids and emails unique, child rows referencing profiles. */
  ghost predicate StoreInvariant(t: Tables, nextId: nat) {
    && (forall i | 0 <= i < |t.profiles| :: t.profiles[i].id < nextId)
    && (forall i, j | 0 <= i < j < |t.profiles| ::
          t.profiles[i].id != t.profiles[j].id && t.profiles[i].email != t.profiles[j].email)
    && References(t.interests, t.profiles)
    && References(t.skills, t.profiles)
    && References(t.goals, t.profiles)
  }

  // ---------- the upsert as a function of the store ----------

  datatype UpsertResult = UpsertResult(tables: Tables, userId: nat, nextId: nat)

  /** The store after a committed `POST /profile`: the UPDATE-or-INSERT of the profile
      row, the DELETEs of an existing profile's child rows, then one INSERT per
      interest, skill and goal, in order. */
  function Upserted(t: Tables, nextId: nat, sub: Submission): (r: UpsertResult)
    ensures nextId <= r.nextId
    ensures |r.tables.profiles| == |t.profiles| + (if FindByEmail(t.profiles, sub.email).Some? then 0 else 1)
    ensures exists k | 0 <= k < |r.tables.profiles| ::
      && r.tables.profiles[k].email == sub.email && r.tables.profiles[k].id == r.userId
      && r.tables.profiles[k].firstName == sub.firstName && r.tables.profiles[k].lastName == sub.lastName
      && r.tables.profiles[k].classYear == sub.classYear
  {
    match FindByEmail(t.profiles, sub.email)
    case Some(k) =>
      var uid := t.profiles[k].id;
      var row := t.profiles[k].(firstName := sub.firstName, lastName := sub.lastName,
                                classYear := sub.classYear);
      assert t.profiles[k := row][k] == row && row.email == sub.email;
      UpsertResult(
        Tables(t.profiles[k := row],
               Delete(t.interests, uid) + RowsFor(uid, sub.interests),
               Delete(t.skills, uid) + RowsFor(uid, ColumnsOf(sub.skills)),
               Delete(t.goals, uid) + RowsFor(uid, sub.goals)),
        uid, nextId)
    case None =>
      var row := ProfileRow(nextId, sub.email, sub.firstName, sub.lastName, sub.classYear);
      assert (t.profiles + [row])[|t.profiles|] == row;
      UpsertResult(
        Tables(t.profiles + [row],
               t.interests + RowsFor(nextId, sub.interests),
               t.skills + RowsFor(nextId, ColumnsOf(sub.skills)),
               t.goals + RowsFor(nextId, sub.goals)),
        nextId, nextId + 1)
  }

  /** The number of `client.query` calls of a request that succeeds: BEGIN, the SELECT,
      the UPDATE and three DELETEs or the INSERT, one INSERT per child row, COMMIT. */
  function QueryCount(t: Tables, sub: Submission): nat {
    2 + (if FindByEmail(t.profiles, sub.email).Some? then 4 else 1)
      + |sub.interests| + |sub.skills| + |sub.goals| + 1
  }

  /** One of the `n` queries numbered from `first` throws. */
  predicate FaultIn(fault: Option<nat>, first: nat, n: nat) {
    fault.Some? && first <= fault.value < first + n
  }

  /** The request fails when one of its queries throws. */
  predicate Aborts(fault: Option<nat>, queries: nat) {
    fault.Some? && fault.value < queries
  }

  /** Resubmitting a known email keeps its id, sets its scalar columns, keeps its email
      and the other profiles, and does not advance the id sequence. */
  lemma UpsertExistingProfile(t: Tables, nextId: nat, sub: Submission, k: nat)
    requires FindByEmail(t.profiles, sub.email) == Some(k)
    ensures var u := Upserted(t, nextId, sub);
      && u.userId == t.profiles[k].id
      && |u.tables.profiles| == |t.profiles|
      && u.tables.profiles[k] ==
           ProfileRow(t.profiles[k].id, t.profiles[k].email, sub.firstName, sub.lastName, sub.classYear)
      && t.profiles[k].email == sub.email
      && (forall j | 0 <= j < |t.profiles| && j != k :: u.tables.profiles[j] == t.profiles[j])
      && u.nextId == nextId
  {
  }

  /** An unseen email adds exactly one profile row at the end, and its id, the
      sequence's next value, is the `userId` returned. */
  lemma UpsertNewProfile(t: Tables, nextId: nat, sub: Submission)
    requires FindByEmail(t.profiles, sub.email) == None
    ensures var u := Upserted(t, nextId, sub);
      && u.userId == nextId
      && u.tables.profiles == t.profiles +
           [ProfileRow(nextId, sub.email, sub.firstName, sub.lastName, sub.classYear)]
      && u.nextId == nextId + 1
  {
  }

  /** After a committed upsert the profile's child rows are exactly the submitted lists,
      in the submitted order, duplicates and any skill type included; every other
      profile's child rows are what they were. */
  lemma UpsertReplacesChildren(t: Tables, nextId: nat, sub: Submission, other: nat)
    requires StoreInvariant(t, nextId)
    ensures var u := Upserted(t, nextId, sub);
      && Select(u.tables.interests, u.userId) == sub.interests
      && Select(u.tables.skills, u.userId) == ColumnsOf(sub.skills)
      && Select(u.tables.goals, u.userId) == sub.goals
      && (other != u.userId ==>
            && Select(u.tables.interests, other) == Select(t.interests, other)
            && Select(u.tables.skills, other) == Select(t.skills, other)
            && Select(u.tables.goals, other) == Select(t.goals, other))
  {
    var u := Upserted(t, nextId, sub);
    var uid := u.userId;
    match FindByEmail(t.profiles, sub.email)
    case Some(k) =>
      ReplaceRows(t.interests, uid, sub.interests, other);
      ReplaceRows(t.skills, uid, ColumnsOf(sub.skills), other);
      ReplaceRows(t.goals, uid, sub.goals, other);
    case None =>
      FreshIdHasNoRows(t, nextId);
      AppendRows(t.interests, uid, sub.interests, other);
      AppendRows(t.skills, uid, ColumnsOf(sub.skills), other);
      AppendRows(t.goals, uid, sub.goals, other);
  }

  lemma ReplaceRows<V(!new)>(rows: seq<ChildRow<V>>, uid: nat, vs: seq<V>, other: nat)
    ensures Select(Delete(rows, uid) + RowsFor(uid, vs), uid) == vs
    ensures other != uid ==> Select(Delete(rows, uid) + RowsFor(uid, vs), other) == Select(rows, other)
  {
    SelectConcat(Delete(rows, uid), RowsFor(uid, vs), uid);
    SelectConcat(Delete(rows, uid), RowsFor(uid, vs), other);
    SelectDelete(rows, uid, other);
    SelectRowsFor(uid, vs, other);
  }

  lemma AppendRows<V>(rows: seq<ChildRow<V>>, uid: nat, vs: seq<V>, other: nat)
    requires Select(rows, uid) == []
    ensures Select(rows + RowsFor(uid, vs), uid) == vs
    ensures other != uid ==> Select(rows + RowsFor(uid, vs), other) == Select(rows, other)
  {
    SelectConcat(rows, RowsFor(uid, vs), uid);
    SelectConcat(rows, RowsFor(uid, vs), other);
    SelectRowsFor(uid, vs, other);
  }

  /** No child row belongs to the id the sequence hands out next. */
  lemma FreshIdHasNoRows(t: Tables, nextId: nat)
    requires StoreInvariant(t, nextId)
    ensures Select(t.interests, nextId) == []
    ensures Select(t.skills, nextId) == []
    ensures Select(t.goals, nextId) == []
  {
    assert nextId !in Ids(t.profiles);
    SelectNone(t.interests, nextId);
    SelectNone(t.skills, nextId);
    SelectNone(t.goals, nextId);
  }

  /** The table sizes after a committed upsert: the profile's old child rows are gone
      and one row per submitted value is added; for an unseen email nothing is removed. */
  lemma UpsertRowCounts(t: Tables, nextId: nat, sub: Submission)
    requires StoreInvariant(t, nextId)
    ensures var u := Upserted(t, nextId, sub);
      && |u.tables.interests| == |t.interests| - |Select(t.interests, u.userId)| + |sub.interests|
      && |u.tables.skills| == |t.skills| - |Select(t.skills, u.userId)| + |sub.skills|
      && |u.tables.goals| == |t.goals| - |Select(t.goals, u.userId)| + |sub.goals|
    ensures FindByEmail(t.profiles, sub.email).None? ==>
      var u := Upserted(t, nextId, sub);
      && |u.tables.profiles| == |t.profiles| + 1
      && |u.tables.interests| == |t.interests| + |sub.interests|
      && |u.tables.skills| == |t.skills| + |sub.skills|
      && |u.tables.goals| == |t.goals| + |sub.goals|
  {
    var u := Upserted(t, nextId, sub);
    match FindByEmail(t.profiles, sub.email)
    case Some(k) =>
      DeleteSize(t.interests, u.userId);
      DeleteSize(t.skills, u.userId);
      DeleteSize(t.goals, u.userId);
    case None =>
      FreshIdHasNoRows(t, nextId);
  }

  /** A committed upsert keeps the store's invariant. */
  lemma UpsertPreservesInvariant(t: Tables, nextId: nat, sub: Submission)
    requires StoreInvariant(t, nextId)
    ensures var u := Upserted(t, nextId, sub); StoreInvariant(u.tables, u.nextId)
  {
    var u := Upserted(t, nextId, sub);
    var ps' := u.tables.profiles;
    match FindByEmail(t.profiles, sub.email)
    case Some(k) =>
      assert Ids(ps') == Ids(t.profiles) by {
        forall i | 0 <= i < |ps'| ensures ps'[i].id == t.profiles[i].id { }
      }
      RowsReference(Delete(t.interests, u.userId), u.userId, sub.interests, ps');
      RowsReference(Delete(t.skills, u.userId), u.userId, ColumnsOf(sub.skills), ps');
      RowsReference(Delete(t.goals, u.userId), u.userId, sub.goals, ps');
    case None =>
      assert ps'[|t.profiles|].id == nextId;
      assert Ids(t.profiles) <= Ids(ps') by {
        forall i | 0 <= i < |t.profiles| ensures t.profiles[i].id in Ids(ps') {
          assert ps'[i] == t.profiles[i];
        }
      }
      RowsReference(t.interests, nextId, sub.interests, ps');
      RowsReference(t.skills, nextId, ColumnsOf(sub.skills), ps');
      RowsReference(t.goals, nextId, sub.goals, ps');
  }

  lemma RowsReference<V>(rows: seq<ChildRow<V>>, uid: nat, vs: seq<V>, ps: seq<ProfileRow>)
    requires References(rows, ps) && uid in Ids(ps)
    ensures References(rows + RowsFor(uid, vs), ps)
  {
  }

  // ---------- lookup ----------

  /** `GET /profile/:email` as a function of the store: the profile row with its child
      rows' payloads, or nothing when no profile has that email. */
  function Lookup(t: Tables, email: string): (r: Option<ProfileView>)
    ensures r.None? <==> forall i | 0 <= i < |t.profiles| :: t.profiles[i].email != email
    ensures r.Some? ==>
      exists k | 0 <= k < |t.profiles| ::
        && t.profiles[k].email == email && r.value.id == t.profiles[k].id
        && r.value.firstName == t.profiles[k].firstName && r.value.lastName == t.profiles[k].lastName
        && r.value.classYear == t.profiles[k].classYear
    ensures r.Some? ==>
      && r.value.email == email
      && r.value.interests == Select(t.interests, r.value.id)
      && r.value.skills == SkillsView(Select(t.skills, r.value.id))
      && r.value.goals == Select(t.goals, r.value.id)
  {
    match FindByEmail(t.profiles, email)
    case None => None
    case Some(k) =>
      var p := t.profiles[k];
      Some(ProfileView(p.id, p.email, p.firstName, p.lastName, p.classYear,
                       Select(t.interests, p.id), SkillsView(Select(t.skills, p.id)),
                       Select(t.goals, p.id)))
  }

  /** What a committed upsert stored is what the lookup of that email returns: the
      submitted names, class year and lists, under the id the POST returned. */
  lemma SaveThenLookup(t: Tables, nextId: nat, sub: Submission)
    requires StoreInvariant(t, nextId)
    ensures var u := Upserted(t, nextId, sub);
      Lookup(u.tables, sub.email) ==
        Some(ProfileView(u.userId, sub.email, sub.firstName, sub.lastName, sub.classYear,
                         sub.interests, sub.skills, sub.goals))
  {
    var u := Upserted(t, nextId, sub);
    UpsertReplacesChildren(t, nextId, sub, u.userId);
    SkillColumnsRoundTrip(sub.skills);
    match FindByEmail(t.profiles, sub.email)
    case Some(k) =>
      assert FindByEmail(u.tables.profiles, sub.email) == Some(k) by {
        assert u.tables.profiles[k].email == sub.email;
        assert forall i | 0 <= i < k :: u.tables.profiles[i] == t.profiles[i];
      }
    case None =>
      assert FindByEmail(u.tables.profiles, sub.email) == Some(|t.profiles|) by {
        assert u.tables.profiles[|t.profiles|].email == sub.email;
        assert forall i | 0 <= i < |t.profiles| :: u.tables.profiles[i] == t.profiles[i];
      }
  }

  /** The server stores what it is given: two case variants of a skill, and a type
      that is neither "technical" nor "soft", both come back from the lookup. */
  lemma NoServerSideSkillChecks(t: Tables, nextId: nat, sub: Submission)
    requires StoreInvariant(t, nextId)
    requires sub.skills == [Skill("Python", "technical"), Skill("python", "other")]
    ensures var u := Upserted(t, nextId, sub);
      Lookup(u.tables, sub.email).Some? &&
      Lookup(u.tables, sub.email).value.skills == [Skill("Python", "technical"), Skill("python", "other")]
  {
    SaveThenLookup(t, nextId, sub);
  }

  // ---------- the route handlers over a mutable store ----------

  class ProfileDb {
    var profiles: seq<ProfileRow>
    var interests: seq<ChildRow<string>>
    var skills: seq<ChildRow<SkillColumns>>
    var goals: seq<ChildRow<string>>
    /** The next value of the `SERIAL` sequence behind `user_profiles.id`. */
    var nextId: nat

    function Snapshot(): Tables
      reads this
    {
      Tables(profiles, interests, skills, goals)
    }

    ghost predicate Valid()
      reads this
    {
      StoreInvariant(Snapshot(), nextId)
    }

    /** An empty database; `SERIAL` ids start at 1. */
    constructor ()
      ensures Valid()
      ensures Snapshot() == Tables([], [], [], []) && nextId == 1
    {
      profiles, interests, skills, goals := [], [], [], [];
      nextId := 1;
    }

    /** ROLLBACK, then the 500 response carrying the error's message. The sequence is
        not transactional and keeps its value. */
    method Rollback(saved: Tables, errorMessage: string) returns (resp: Response)
      modifies this
      ensures Snapshot() == saved && nextId == old(nextId)
      ensures resp == ServerError(SaveFailed, Some(errorMessage))
    {
      profiles, interests, skills, goals := saved.profiles, saved.interests, saved.skills, saved.goals;
      resp := ServerError(SaveFailed, Some(errorMessage));
    }

    /** The SELECT by email, then the UPDATE of the row and the three DELETEs of its
        child rows (queries 1 to 5), or the INSERT of a new row (queries 1 and 2).
        `next` is the number of the query that follows; `ok` is false when one of these
        queries throws, and then the caller rolls back. */
    method WriteProfile(sub: Submission, fault: Option<nat>) returns (userId: nat, next: nat, ok: bool)
      modifies this
      ensures next == if FindByEmail(old(profiles), sub.email).Some? then 6 else 3
      ensures ok == !FaultIn(fault, 1, next - 1)
      ensures old(nextId) <= nextId
      ensures ok ==> var u := Upserted(old(Snapshot()), old(nextId), sub);
        && userId == u.userId && nextId == u.nextId && profiles == u.tables.profiles
        && u.tables.interests == interests + RowsFor(userId, sub.interests)
        && u.tables.skills == skills + RowsFor(userId, ColumnsOf(sub.skills))
        && u.tables.goals == goals + RowsFor(userId, sub.goals)
    {
      var existing := FindByEmail(profiles, sub.email);
      next := if existing.Some? then 6 else 3;
      userId := 0;
      // query 1: SELECT id FROM user_profiles WHERE email = $1
      if fault == Some(1) {
        return userId, next, false;
      }
      if existing.Some? {
        var k := existing.value;
        userId := profiles[k].id;
        // query 2: UPDATE user_profiles SET first_name, last_name, class_year WHERE id = $4
        if fault == Some(2) {
          return userId, next, false;
        }
        profiles := profiles[k := profiles[k].(firstName := sub.firstName, lastName := sub.lastName,
                                               classYear := sub.classYear)];
        // queries 3 to 5: DELETE FROM user_interests, user_skills, user_goals WHERE user_id = $1
        if fault == Some(3) {
          return userId, next, false;
        }
        interests := Delete(interests, userId);
        if fault == Some(4) {
          return userId, next, false;
        }
        skills := Delete(skills, userId);
        if fault == Some(5) {
          return userId, next, false;
        }
        goals := Delete(goals, userId);
      } else {
        // query 2: INSERT INTO user_profiles (email, first_name, last_name, class_year) RETURNING id
        if fault == Some(2) {
          return userId, next, false;
        }
        userId := nextId;
        nextId := nextId + 1;
        profiles := profiles + [ProfileRow(userId, sub.email, sub.firstName, sub.lastName, sub.classYear)];
      }
      ok := true;
    }

    /** `for (const interest of interests)`: one INSERT per interest, queries
        `first` to `first + |values| - 1`. */
    method InsertInterests(userId: nat, values: seq<string>, fault: Option<nat>, first: nat)
      returns (ok: bool)
      modifies this`interests
      ensures ok == !FaultIn(fault, first, |values|)
      ensures ok ==> interests == old(interests) + RowsFor(userId, values)
    {
      for i := 0 to |values|
        invariant !FaultIn(fault, first, i)
        invariant interests == old(interests) + RowsFor(userId, values[..i])
      {
        if fault == Some(first + i) {
          return false;
        }
        interests := interests + [ChildRow(userId, values[i])];
        assert values[..i + 1] == values[..i] + [values[i]];
      }
      assert values[..|values|] == values;
      ok := true;
    }

    /** `for (const skillObj of skills)`: one INSERT of `skillObj.skill` and
        `skillObj.type` per skill. */
    method InsertSkills(userId: nat, values: seq<Skill>, fault: Option<nat>, first: nat)
      returns (ok: bool)
      modifies this`skills
      ensures ok == !FaultIn(fault, first, |values|)
      ensures ok ==> skills == old(skills) + RowsFor(userId, ColumnsOf(values))
    {
      for i := 0 to |values|
        invariant !FaultIn(fault, first, i)
        invariant skills == old(skills) + RowsFor(userId, ColumnsOf(values[..i]))
      {
        if fault == Some(first + i) {
          return false;
        }
        skills := skills + [ChildRow(userId, SkillColumns(values[i].skill, values[i].kind))];
        assert values[..i + 1] == values[..i] + [values[i]];
        assert ColumnsOf(values[..i + 1]) == ColumnsOf(values[..i]) + [SkillColumns(values[i].skill, values[i].kind)];
      }
      assert values[..|values|] == values;
      ok := true;
    }

    /** `for (const goal of goals)`: one INSERT per goal. */
    method InsertGoals(userId: nat, values: seq<string>, fault: Option<nat>, first: nat)
      returns (ok: bool)
      modifies this`goals
      ensures ok == !FaultIn(fault, first, |values|)
      ensures ok ==> goals == old(goals) + RowsFor(userId, values)
    {
      for i := 0 to |values|
        invariant !FaultIn(fault, first, i)
        invariant goals == old(goals) + RowsFor(userId, values[..i])
      {
        if fault == Some(first + i) {
          return false;
        }
        goals := goals + [ChildRow(userId, values[i])];
        assert values[..i + 1] == values[..i] + [values[i]];
      }
      assert values[..|values|] == values;
      ok := true;
    }

    /** Every query between BEGIN and COMMIT: the profile row, then the interests,
        skills and goals. `ok` is false when one of them throws; otherwise the tables
        and the sequence are those of the upsert. */
    method WriteAll(sub: Submission, fault: Option<nat>) returns (userId: nat, ok: bool)
      modifies this
      ensures old(nextId) <= nextId
      ensures ok == !FaultIn(fault, 1, QueryCount(old(Snapshot()), sub) - 2)
      ensures ok ==> var u := Upserted(old(Snapshot()), old(nextId), sub);
        userId == u.userId && Snapshot() == u.tables && nextId == u.nextId
    {
      var q;
      userId, q, ok := WriteProfile(sub, fault);
      if !ok {
        return;
      }
      ok := InsertInterests(userId, sub.interests, fault, q);
      if !ok {
        return;
      }
      q := q + |sub.interests|;
      ok := InsertSkills(userId, sub.skills, fault, q);
      if !ok {
        return;
      }
      q := q + |sub.skills|;
      ok := InsertGoals(userId, sub.goals, fault, q);
    }

    /** `POST /profile`. `fault` numbers the `client.query` call that throws, if any
        (0 is BEGIN), and `errorMessage` is that error's message. A request that fails
        validation gets its 400 before any table is touched; one whose query throws is
        rolled back and gets a 500; otherwise the upsert commits and the id is returned. */
    method SaveProfile(req: ProfileRequest, fault: Option<nat>, errorMessage: string)
      returns (resp: Response)
      requires Valid()
      modifies this
      ensures Valid()
      ensures fault == Some(0) ==>
        resp == ServerError(SaveFailed, Some(errorMessage)) &&
        Snapshot() == old(Snapshot()) && nextId == old(nextId)
      ensures fault != Some(0) && Validate(req).None? ==>
        resp == BadRequest(MissingFields, RequiredFields) &&
        Snapshot() == old(Snapshot()) && nextId == old(nextId)
      ensures fault != Some(0) && Validate(req).Some? ==>
        var sub := Validate(req).value;
        var u := Upserted(old(Snapshot()), old(nextId), sub);
        if Aborts(fault, QueryCount(old(Snapshot()), sub)) then
          resp == ServerError(SaveFailed, Some(errorMessage)) &&
          Snapshot() == old(Snapshot()) && old(nextId) <= nextId
        else
          resp == Created(SavedMessage, u.userId) &&
          Snapshot() == u.tables && nextId == u.nextId
    {
      // query 0: BEGIN
      if fault == Some(0) {
        resp := ServerError(SaveFailed, Some(errorMessage));
        return;
      }
      var saved := Snapshot();
      ghost var savedId := nextId;
      var validated := Validate(req);
      if validated.None? {
        resp := BadRequest(MissingFields, RequiredFields);
        return;
      }
      var sub := validated.value;

      var userId, ok := WriteAll(sub, fault);
      if !ok {
        resp := Rollback(saved, errorMessage);
        return;
      }
      // the last query: COMMIT
      if fault == Some(QueryCount(saved, sub) - 1) {
        resp := Rollback(saved, errorMessage);
        return;
      }
      UpsertPreservesInvariant(saved, savedId, sub);
      resp := Created(SavedMessage, userId);
    }

    /** `GET /profile/:email`: the profile row, then its interests, skills and goals,
        four queries; `fault` numbers the one that throws, if any. */
    method GetProfile(email: string, fault: Option<nat>) returns (resp: Response)
      ensures Lookup(Snapshot(), email).None? ==>
        resp == if fault == Some(0) then ServerError(FetchFailed, None) else NotFound(UserNotFound)
      ensures Lookup(Snapshot(), email).Some? ==>
        resp == if Aborts(fault, 4) then ServerError(FetchFailed, None)
                else Found(Lookup(Snapshot(), email).value)
    {
      // query 0: SELECT * FROM user_profiles WHERE email = $1
      if fault == Some(0) {
        return ServerError(FetchFailed, None);
      }
      var found := FindByEmail(profiles, email);
      if found.None? {
        return NotFound(UserNotFound);
      }
      var user := profiles[found.value];
      // queries 1 to 3: the interests, skills and goals of `user.id`
      if fault == Some(1) {
        return ServerError(FetchFailed, None);
      }
      var userInterests := Select(interests, user.id);
      if fault == Some(2) {
        return ServerError(FetchFailed, None);
      }
      var userSkills := Select(skills, user.id);
      if fault == Some(3) {
        return ServerError(FetchFailed, None);
      }
      var userGoals := Select(goals, user.id);
      resp := Found(ProfileView(user.id, user.email, user.firstName, user.lastName, user.classYear,
                                userInterests, SkillsView(userSkills), userGoals));
    }
  }
}
