/** The sync routes: storing Brightspace credentials as a token, and pulling
    Brightspace assignments into the task table without duplicating titles.
    The token and task tables are fields of a `Database` object; the
    Brightspace API's answers are supplied by the caller. Token encryption is
    left out, so a stored access token is the encoded credential itself. */
module Sync {
  import opened Wrappers
  import opened Tasks
  import opened Credentials
  import opened Brightspace

  type UserId = nat

  datatype Provider = BrightspaceProvider | GoogleCalendarProvider

  /** A row of the token table. */
  datatype OAuthToken = OAuthToken(userId: UserId, provider: Provider, accessToken: string, scope: Option<string>)

  /** A row of the task table. */
  datatype StoredTask = StoredTask(userId: UserId, task: TaskData)

  /** The HTTP error a route raises. */
  datatype HttpError = HttpError(status: int, detail: string)

  /** A course entry of `get_courses`; None stands for an absent key. */
  datatype OrgUnit = OrgUnit(id: Option<int>, name: Option<string>)

  /** The `OrgUnit` key of a course: absent, present with value null, or an
      object. */
  datatype OrgUnitField = NoOrgUnit | NullOrgUnit | HasOrgUnit(unit: OrgUnit)
  datatype Course = Course(orgUnit: OrgUnitField)

  /** What requesting and handling a course's assignments yields: the
      assignments, and the index of the one whose handling raises an
      exception, if any (malformed data or a database error, outside the
      model); or a failed request. */
  datatype Fetch = Fetched(assignments: seq<Assignment>, raisesAt: Option<nat>) | FetchFailed

  predicate IsTokenOf(t: OAuthToken, user: UserId, provider: Provider) {
    t.userId == user && t.provider == provider
  }

  /** The unique index on (user, provider). */
  predicate UniqueTokens(ts: seq<OAuthToken>) {
    forall i, j | 0 <= i < j < |ts| :: !(ts[i].userId == ts[j].userId && ts[i].provider == ts[j].provider)
  }

  /** The first token of a user for a provider (the `.first()` query). */
  function FirstToken(ts: seq<OAuthToken>, user: UserId, provider: Provider): (r: Option<nat>)
    ensures r.Some? ==> r.value < |ts| && IsTokenOf(ts[r.value], user, provider)
    ensures r.Some? ==> forall k | 0 <= k < r.value :: !IsTokenOf(ts[k], user, provider)
    ensures r.None? ==> forall k | 0 <= k < |ts| :: !IsTokenOf(ts[k], user, provider)
  {
    if ts == [] then None
    else if IsTokenOf(ts[0], user, provider) then Some(0)
    else
      var rest := FirstToken(ts[1..], user, provider);
      if rest.Some? then Some(rest.value + 1) else None
  }

  /** The token table after `authorize_brightspace`. */
  function Upsert(ts: seq<OAuthToken>, user: UserId, access: string): seq<OAuthToken> {
    var existing := FirstToken(ts, user, BrightspaceProvider);
    if existing.Some? then ts[existing.value := ts[existing.value].(accessToken := access)]
    else ts + [OAuthToken(user, BrightspaceProvider, access, Some("read"))]
  }

  /** A user's Brightspace task with this title already exists. */
  predicate TitleTaken(tasks: seq<StoredTask>, user: UserId, title: string) {
    exists i | 0 <= i < |tasks| ::
      tasks[i].userId == user && tasks[i].task.title == title && tasks[i].task.source == BrightspaceSource
  }

  function Rows(user: UserId, ts: seq<TaskData>): (rows: seq<StoredTask>)
    ensures |rows| == |ts| && forall i | 0 <= i < |ts| :: rows[i] == StoredTask(user, ts[i])
  {
    if ts == [] then [] else Rows(user, ts[..|ts| - 1]) + [StoredTask(user, ts[|ts| - 1])]
  }

  function CourseId(c: Course): Option<int> {
    if c.orgUnit.HasOrgUnit? then c.orgUnit.unit.id else None
  }

  function CourseName(c: Course): string {
    if c.orgUnit.HasOrgUnit? then c.orgUnit.unit.name.GetOr("Unknown Course") else "Unknown Course"
  }

  /** `course.get('OrgUnit', {})` is None when the key holds null, so the
      `.get('Id')` after it raises, outside the per-course handler: the
      whole sync ends there. */
  predicate Aborts(c: Course) {
    c.orgUnit.NullOrgUnit?
  }

  /** The index of the first course that ends the sync, or the number of
      courses when none does. */
  function FirstAbort(cs: seq<Course>): (i: nat)
    ensures i <= |cs|
    ensures i < |cs| ==> Aborts(cs[i])
  {
    if cs == [] || Aborts(cs[0]) then 0 else FirstAbort(cs[1..]) + 1
  }

  /** No course before `FirstAbort` ends the sync. */
  lemma {:induction false} BeforeFirstAbort(cs: seq<Course>, k: nat)
    requires k < FirstAbort(cs)
    ensures !Aborts(cs[k])
  {
    if k > 0 {
      BeforeFirstAbort(cs[1..], k - 1);
    }
  }

  /** A course that ends the sync, with none before it, is the first. */
  lemma {:induction false} FirstAbortAt(cs: seq<Course>, i: nat)
    requires i < |cs| && Aborts(cs[i])
    requires forall k | 0 <= k < i :: !Aborts(cs[k])
    ensures FirstAbort(cs) == i
  {
    if i > 0 {
      assert !Aborts(cs[0]);
      forall k | 0 <= k < i - 1
        ensures !Aborts(cs[1..][k])
      {
        assert cs[1..][k] == cs[k + 1];
      }
      FirstAbortAt(cs[1..], i - 1);
    }
  }

  /** Every course that ends the sync comes at or after `FirstAbort`. */
  lemma {:induction false} FirstAbortIsFirst(cs: seq<Course>, k: nat)
    requires k < |cs| && Aborts(cs[k])
    ensures FirstAbort(cs) <= k
  {
    if k > 0 && !Aborts(cs[0]) {
      FirstAbortIsFirst(cs[1..], k - 1);
    }
  }

  /** `if not org_unit_id: continue`: no id, or id 0. */
  predicate Skipped(c: Course) {
    CourseId(c).None? || CourseId(c).value == 0
  }

  /** The assignments handled before an exception ends the course. */
  function Handled(f: Fetch): (hs: seq<Assignment>)
    ensures f.Fetched? ==> hs <= f.assignments
  {
    match f
    case FetchFailed => []
    case Fetched(asg, raisesAt) =>
      if raisesAt.Some? && raisesAt.value < |asg| then asg[..raisesAt.value] else asg
  }

  function ToTasks(asg: seq<Assignment>, courseName: string, parseIso: string -> Option<Instant>): (ts: seq<TaskData>)
    ensures |ts| == |asg| && forall i | 0 <= i < |asg| :: ts[i] == AssignmentToTask(asg[i], courseName, parseIso)
  {
    if asg == [] then []
    else ToTasks(asg[..|asg| - 1], courseName, parseIso) + [AssignmentToTask(asg[|asg| - 1], courseName, parseIso)]
  }

  /** The tasks one course offers for creation, in assignment order. */
  function CourseCandidates(c: Course, fetch: int -> Fetch, parseIso: string -> Option<Instant>): seq<TaskData> {
    if Skipped(c) then [] else ToTasks(Handled(fetch(CourseId(c).value)), CourseName(c), parseIso)
  }

  /** The tasks all courses offer, course after course. */
  function Candidates(cs: seq<Course>, fetch: int -> Fetch, parseIso: string -> Option<Instant>): seq<TaskData> {
    if cs == [] then []
    else Candidates(cs[..|cs| - 1], fetch, parseIso) + CourseCandidates(cs[|cs| - 1], fetch, parseIso)
  }

  /** The tasks created from the candidates: each one whose title is not yet
      taken, counting the ones created before it. */
  function Created(tasks: seq<StoredTask>, user: UserId, cands: seq<TaskData>): seq<TaskData> {
    if cands == [] then []
    else
      var prev := Created(tasks, user, cands[..|cands| - 1]);
      var c := cands[|cands| - 1];
      if TitleTaken(tasks + Rows(user, prev), user, c.title) then prev else prev + [c]
  }

  /** The user has a Brightspace token and it decodes into credentials. */
  predicate Usable(tokens: seq<OAuthToken>, user: UserId) {
    var token := FirstToken(tokens, user, BrightspaceProvider);
    token.Some? && Decode(tokens[token.value].accessToken).Success?
  }

  /** The outcome of `sync_brightspace_tasks`; `courses` is None when
      `get_courses` raises. */
  function SyncOutcome(tokens: seq<OAuthToken>, tasks: seq<StoredTask>, user: UserId,
                       courses: Option<seq<Course>>, fetch: int -> Fetch,
                       parseIso: string -> Option<Instant>): Result<seq<TaskData>, HttpError> {
    var token := FirstToken(tokens, user, BrightspaceProvider);
    if token.None? then Failure(HttpError(400, "Brightspace not authorized. Please authorize first."))
    else if Decode(tokens[token.value].accessToken).Failure? then Failure(HttpError(500, "Invalid stored credentials"))
    else if courses.None? then Failure(HttpError(500, "Failed to sync Brightspace tasks"))
    else if FirstAbort(courses.value) < |courses.value| then Failure(HttpError(500, "Failed to sync Brightspace tasks"))
    else Success(Created(tasks, user, Candidates(courses.value, fetch, parseIso)))
  }

  /** The tasks a sync commits to the table, whatever it answers: those
      created from the courses before the first one that ends it, since each
      creation is committed at once; none when it fails before the loop. */
  function Committed(tokens: seq<OAuthToken>, tasks: seq<StoredTask>, user: UserId,
                     courses: Option<seq<Course>>, fetch: int -> Fetch,
                     parseIso: string -> Option<Instant>): seq<TaskData> {
    if Usable(tokens, user) && courses.Some? then
      Created(tasks, user, Candidates(courses.value[..FirstAbort(courses.value)], fetch, parseIso))
    else []
  }

  class Database {
    var tokens: seq<OAuthToken>
    var tasks: seq<StoredTask>

    ghost predicate Valid()
      reads this
    {
      UniqueTokens(tokens)
    }

    constructor()
      ensures tokens == [] && tasks == [] && Valid()
    {
      tokens := [];
      tasks := [];
    }

    /** `authorize_brightspace`: update the user's Brightspace token or
        insert one with scope `"read"`. */
    method AuthorizeBrightspace(user: UserId, creds: Credentials) returns (message: string)
      requires Valid()
      modifies this
      ensures Valid()
      ensures tokens == Upsert(old(tokens), user, Encode(creds))
      ensures tasks == old(tasks)
      ensures message == "Brightspace credentials stored successfully"
    {
      UpsertKeepsUnique(tokens, user, Encode(creds));
      var existing := FirstToken(tokens, user, BrightspaceProvider);
      if existing.Some? {
        tokens := tokens[existing.value := tokens[existing.value].(accessToken := Encode(creds))];
      } else {
        tokens := tokens + [OAuthToken(user, BrightspaceProvider, Encode(creds), Some("read"))];
      }
      message := "Brightspace credentials stored successfully";
    }

    /** `sync_brightspace_tasks`: for each course with an id, convert each
        assignment handled before any exception and create it unless a
        Brightspace task of the user already has its title; a course whose
        `OrgUnit` is null ends the sync with 500, keeping what was created. */
    method SyncBrightspaceTasks(user: UserId, courses: Option<seq<Course>>, fetch: int -> Fetch,
                                parseIso: string -> Option<Instant>)
      returns (r: Result<seq<TaskData>, HttpError>)
      modifies this
      ensures r == SyncOutcome(old(tokens), old(tasks), user, courses, fetch, parseIso)
      ensures tokens == old(tokens)
      ensures tasks == old(tasks) + Rows(user, Committed(old(tokens), old(tasks), user, courses, fetch, parseIso))
    {
      var token := FirstToken(tokens, user, BrightspaceProvider);
      if token.None? {
        return Failure(HttpError(400, "Brightspace not authorized. Please authorize first."));
      }
      var credentials := Decode(tokens[token.value].accessToken);
      if credentials.Failure? {
        return Failure(HttpError(500, "Invalid stored credentials"));
      }
      if courses.None? {
        return Failure(HttpError(500, "Failed to sync Brightspace tasks"));
      }
      var created, aborted := SyncCourses(user, courses.value, fetch, parseIso);
      if aborted {
        return Failure(HttpError(500, "Failed to sync Brightspace tasks"));
      }
      assert courses.value[..|courses.value|] == courses.value;
      return Success(created);
    }

    /** The course loop: the tasks created from the courses before the first
        one that ends the sync, in order, and whether one did. */
    method SyncCourses(user: UserId, cs: seq<Course>, fetch: int -> Fetch, parseIso: string -> Option<Instant>)
      returns (created: seq<TaskData>, aborted: bool)
      modifies this
      ensures aborted <==> FirstAbort(cs) < |cs|
      ensures created == Created(old(tasks), user, Candidates(cs[..FirstAbort(cs)], fetch, parseIso))
      ensures tasks == old(tasks) + Rows(user, created)
      ensures tokens == old(tokens)
    {
      ghost var base := tasks;
      ghost var n := FirstAbort(cs);
      created := [];
      var ci := 0;
      while ci < |cs| && !Aborts(cs[ci])
        invariant ci <= |cs|
        invariant ci <= n
        invariant created == Created(base, user, Candidates(cs[..ci], fetch, parseIso))
        invariant tasks == base + Rows(user, created)
        invariant tokens == old(tokens)
      {
        CandidatesLast(cs[..ci + 1], fetch, parseIso);
        assert cs[..ci + 1][..ci] == cs[..ci];
        created := SyncCourse(user, cs[ci], fetch, parseIso, base, Candidates(cs[..ci], fetch, parseIso), created);
        ci := ci + 1;
      }
      if ci < |cs| {
        FirstAbortIsFirst(cs, ci);
      }
      assert ci == n;
      aborted := ci < |cs|;
    }

    /** One pass of the course loop: skip a course without an id, otherwise
        fetch its assignments and create the new ones until the course is
        done or an exception ends it. */
    method SyncCourse(user: UserId, course: Course, fetch: int -> Fetch, parseIso: string -> Option<Instant>,
                      ghost base: seq<StoredTask>, ghost prior: seq<TaskData>, created0: seq<TaskData>)
      returns (created: seq<TaskData>)
      requires created0 == Created(base, user, prior)
      requires tasks == base + Rows(user, created0)
      modifies this
      ensures created == Created(base, user, prior + CourseCandidates(course, fetch, parseIso))
      ensures tasks == base + Rows(user, created)
      ensures tokens == old(tokens)
    {
      created := created0;
      var orgUnitId := CourseId(course);
      var courseName := CourseName(course);
      if orgUnitId.None? || orgUnitId.value == 0 {
        assert prior + CourseCandidates(course, fetch, parseIso) == prior;
        return;
      }
      var fetched := fetch(orgUnitId.value);
      if fetched.FetchFailed? {
        assert prior + CourseCandidates(course, fetch, parseIso) == prior;
        return;
      }
      var assignments := fetched.assignments;
      var stop := if fetched.raisesAt.Some? && fetched.raisesAt.value < |assignments| then fetched.raisesAt.value else |assignments|;
      var rows;
      rows, created := CreateTasks(user, assignments, stop, courseName, parseIso, base, prior, tasks, created);
      tasks := rows;
      assert assignments[..stop] == Handled(fetched);
    }
  }

  /** The assignment loop of one course: add each of the first `stop`
      assignments' tasks to the rows unless a Brightspace task of the user
      already has its title. */
  method CreateTasks(user: UserId, asg: seq<Assignment>, stop: nat, courseName: string,
                     parseIso: string -> Option<Instant>, ghost base: seq<StoredTask>, ghost prior: seq<TaskData>,
                     rows0: seq<StoredTask>, created0: seq<TaskData>)
    returns (rows: seq<StoredTask>, created: seq<TaskData>)
    requires stop <= |asg|
    requires created0 == Created(base, user, prior)
    requires rows0 == base + Rows(user, created0)
    ensures created == Created(base, user, prior + ToTasks(asg[..stop], courseName, parseIso))
    ensures rows == base + Rows(user, created)
  {
    rows, created := rows0, created0;
    assert prior + ToTasks(asg[..0], courseName, parseIso) == prior;
    for ai := 0 to stop
      invariant created == Created(base, user, prior + ToTasks(asg[..ai], courseName, parseIso))
      invariant rows == base + Rows(user, created)
    {
      var taskData := AssignmentToTask(asg[ai], courseName, parseIso);
      CreateTasksStep(base, user, prior, asg, ai, courseName, parseIso, rows, created);
      if !TitleTaken(rows, user, taskData.title) {
        rows := rows + [StoredTask(user, taskData)];
        created := created + [taskData];
      }
    }
  }

  /** One pass of the assignment loop keeps its invariant. */
  lemma CreateTasksStep(base: seq<StoredTask>, user: UserId, prior: seq<TaskData>, asg: seq<Assignment>, ai: nat,
                        courseName: string, parseIso: string -> Option<Instant>,
                        rows: seq<StoredTask>, created: seq<TaskData>)
    requires ai < |asg|
    requires created == Created(base, user, prior + ToTasks(asg[..ai], courseName, parseIso))
    requires rows == base + Rows(user, created)
    ensures var t := AssignmentToTask(asg[ai], courseName, parseIso);
            var after := Created(base, user, prior + ToTasks(asg[..ai + 1], courseName, parseIso));
            if TitleTaken(rows, user, t.title) then after == created
            else after == created + [t] && rows + [StoredTask(user, t)] == base + Rows(user, after)
  {
    var t := AssignmentToTask(asg[ai], courseName, parseIso);
    CreatedStep(base, user, prior, asg, ai, courseName, parseIso);
    RowsAppend(user, created, t);
    ConcatAssoc(base, Rows(user, created), [StoredTask(user, t)]);
  }

  lemma RowsAppend(user: UserId, ts: seq<TaskData>, t: TaskData)
    ensures Rows(user, ts + [t]) == Rows(user, ts) + [StoredTask(user, t)]
  {
    assert (ts + [t])[..|ts|] == ts;
  }

  /** One more candidate: it is created exactly when its title is not
      taken by the tasks so far. */
  lemma CreatedStep(base: seq<StoredTask>, user: UserId, prior: seq<TaskData>, asg: seq<Assignment>, ai: nat,
                    courseName: string, parseIso: string -> Option<Instant>)
    requires ai < |asg|
    ensures var before := prior + ToTasks(asg[..ai], courseName, parseIso);
            var t := AssignmentToTask(asg[ai], courseName, parseIso);
            var prev := Created(base, user, before);
            Created(base, user, prior + ToTasks(asg[..ai + 1], courseName, parseIso)) ==
              if TitleTaken(base + Rows(user, prev), user, t.title) then prev else prev + [t]
  {
    var before := prior + ToTasks(asg[..ai], courseName, parseIso);
    var t := AssignmentToTask(asg[ai], courseName, parseIso);
    assert ToTasks(asg[..ai + 1], courseName, parseIso) == ToTasks(asg[..ai], courseName, parseIso) + [t];
    var after := prior + ToTasks(asg[..ai + 1], courseName, parseIso);
    assert after == before + [t];
    assert after[..|after| - 1] == before;
  }

  /** The Google Calendar authorization is not implemented. */
  function AuthorizeGoogleCalendar(code: string, redirectUri: string): (e: HttpError)
    ensures e.status == 501
  {
    HttpError(501, "Google Calendar OAuth not fully implemented. Use OAuth flow in production.")
  }

  /** The Google Calendar sync fails: 400 without a token, 501 with one. */
  function SyncCalendarEvents(tokens: seq<OAuthToken>, user: UserId): (e: HttpError)
    ensures e.status == 400 <==> forall k | 0 <= k < |tokens| :: !IsTokenOf(tokens[k], user, GoogleCalendarProvider)
    ensures e.status == 501 <==> exists k | 0 <= k < |tokens| :: IsTokenOf(tokens[k], user, GoogleCalendarProvider)
  {
    if FirstToken(tokens, user, GoogleCalendarProvider).None? then
      HttpError(400, "Google Calendar not authorized. Please authorize first.")
    else
      HttpError(501, "Google Calendar sync not fully implemented. Requires OAuth token handling.")
  }

  // ---------------------------------------------------------------------
  // Properties

  /** After the upsert the user has exactly one Brightspace token and it
      holds the new encoding; every other token is untouched; the unique
      index keeps holding. */
  lemma UpsertKeepsUnique(ts: seq<OAuthToken>, user: UserId, access: string)
    requires UniqueTokens(ts)
    ensures var after := Upsert(ts, user, access);
            UniqueTokens(after) &&
            (exists i | 0 <= i < |after| :: IsTokenOf(after[i], user, BrightspaceProvider) && after[i].accessToken == access) &&
            (forall i, j | 0 <= i < |after| && 0 <= j < |after| ::
               IsTokenOf(after[i], user, BrightspaceProvider) && IsTokenOf(after[j], user, BrightspaceProvider) ==> i == j) &&
            (forall i | 0 <= i < |ts| :: !IsTokenOf(ts[i], user, BrightspaceProvider) ==> after[i] == ts[i])
  {
    var after := Upsert(ts, user, access);
    var existing := FirstToken(ts, user, BrightspaceProvider);
    if existing.Some? {
      assert IsTokenOf(after[existing.value], user, BrightspaceProvider);
    } else {
      assert IsTokenOf(after[|ts|], user, BrightspaceProvider);
    }
  }

  /** The sync fails with 400 exactly when there is no token, with 500 when
      the stored credentials do not split into five fields, fetching the
      courses fails or a course's `OrgUnit` is null, and otherwise
      succeeds. */
  lemma SyncErrors(tokens: seq<OAuthToken>, tasks: seq<StoredTask>, user: UserId, courses: Option<seq<Course>>,
                   fetch: int -> Fetch, parseIso: string -> Option<Instant>)
    ensures var r := SyncOutcome(tokens, tasks, user, courses, fetch, parseIso);
            (r.Failure? && r.error.status == 400 <==> forall k | 0 <= k < |tokens| :: !IsTokenOf(tokens[k], user, BrightspaceProvider)) &&
            (r.Success? <==> FirstToken(tokens, user, BrightspaceProvider).Some? &&
                             Decode(tokens[FirstToken(tokens, user, BrightspaceProvider).value].accessToken).Success? &&
                             courses.Some? && forall k | 0 <= k < |courses.value| :: !Aborts(courses.value[k]))
  {
    if courses.Some? {
      forall k | 0 <= k < FirstAbort(courses.value)
        ensures !Aborts(courses.value[k])
      {
        BeforeFirstAbort(courses.value, k);
      }
    }
  }

  /** What a sync leaves in the task table: on success exactly the tasks it
      returns, and after a failure before the course loop nothing. */
  lemma SyncCommits(tokens: seq<OAuthToken>, tasks: seq<StoredTask>, user: UserId, courses: Option<seq<Course>>,
                    fetch: int -> Fetch, parseIso: string -> Option<Instant>)
    ensures var r := SyncOutcome(tokens, tasks, user, courses, fetch, parseIso);
            (r.Success? ==> Committed(tokens, tasks, user, courses, fetch, parseIso) == r.value) &&
            (!Usable(tokens, user) || courses.None? ==> r.Failure? && Committed(tokens, tasks, user, courses, fetch, parseIso) == [])
  {
    var r := SyncOutcome(tokens, tasks, user, courses, fetch, parseIso);
    if r.Success? {
      var cs := courses.value;
      assert FirstAbort(cs) == |cs|;
      assert cs[..|cs|] == cs;
    }
  }

  /** A course whose `OrgUnit` is null ends the sync with 500, yet the tasks
      created from the courses before it stay in the table. */
  lemma NullOrgUnitKeepsEarlier(tokens: seq<OAuthToken>, tasks: seq<StoredTask>, user: UserId, cs: seq<Course>, i: nat,
                                fetch: int -> Fetch, parseIso: string -> Option<Instant>)
    requires Usable(tokens, user)
    requires i < |cs| && Aborts(cs[i])
    requires forall k | 0 <= k < i :: !Aborts(cs[k])
    ensures SyncOutcome(tokens, tasks, user, Some(cs), fetch, parseIso) == Failure(HttpError(500, "Failed to sync Brightspace tasks"))
    ensures Committed(tokens, tasks, user, Some(cs), fetch, parseIso) == Created(tasks, user, Candidates(cs[..i], fetch, parseIso))
  {
    FirstAbortAt(cs, i);
  }

  /** Whatever the sync answers, the tasks it commits have fresh titles, no
      two alike, in course-then-assignment order. */
  lemma CommittedAreFresh(tokens: seq<OAuthToken>, tasks: seq<StoredTask>, user: UserId, courses: Option<seq<Course>>,
                          fetch: int -> Fetch, parseIso: string -> Option<Instant>)
    requires courses.Some?
    ensures var cr := Committed(tokens, tasks, user, courses, fetch, parseIso);
            (forall i | 0 <= i < |cr| :: !TitleTaken(tasks, user, cr[i].title)) &&
            (forall i, j | 0 <= i < j < |cr| :: cr[i].title != cr[j].title) &&
            Subsequence(cr, Candidates(courses.value, fetch, parseIso))
  {
    if Usable(tokens, user) {
      PrefixCreatedFresh(tasks, user, courses.value, FirstAbort(courses.value), fetch, parseIso);
    } else {
      SubsequenceOfNothing(Candidates(courses.value, fetch, parseIso));
    }
  }

  /** The tasks created from the first n courses have fresh titles, no two
      alike, in the order of all courses' candidates. */
  lemma PrefixCreatedFresh(tasks: seq<StoredTask>, user: UserId, cs: seq<Course>, n: nat,
                           fetch: int -> Fetch, parseIso: string -> Option<Instant>)
    requires n <= |cs|
    ensures var cr := Created(tasks, user, Candidates(cs[..n], fetch, parseIso));
            (forall i | 0 <= i < |cr| :: !TitleTaken(tasks, user, cr[i].title)) &&
            (forall i, j | 0 <= i < j < |cr| :: cr[i].title != cr[j].title) &&
            Subsequence(cr, Candidates(cs, fetch, parseIso))
  {
    var pre := Candidates(cs[..n], fetch, parseIso);
    CandidatesAreBrightspace(cs[..n], fetch, parseIso);
    CreatedIsFresh(tasks, user, pre);
    PrefixCreatedInOrder(tasks, user, cs, n, fetch, parseIso);
  }

  lemma PrefixCreatedInOrder(tasks: seq<StoredTask>, user: UserId, cs: seq<Course>, n: nat,
                             fetch: int -> Fetch, parseIso: string -> Option<Instant>)
    requires n <= |cs|
    ensures Subsequence(Created(tasks, user, Candidates(cs[..n], fetch, parseIso)), Candidates(cs, fetch, parseIso))
  {
    var pre, rest := Candidates(cs[..n], fetch, parseIso), Candidates(cs[n..], fetch, parseIso);
    var cr := Created(tasks, user, pre);
    assert Subsequence(cr, pre) by {
      CreatedKeepsOrder(tasks, user, pre);
    }
    assert Candidates(cs, fetch, parseIso) == pre + rest by {
      assert cs == cs[..n] + cs[n..];
      CandidatesAppend(cs[..n], cs[n..], fetch, parseIso);
    }
    SubsequenceExtend(cr, pre, rest);
  }

  /** Credentials stored with a host of the documented `https://` form can
      never be used: the next sync fails with 500. */
  lemma UrlHostBreaksSync(ts: seq<OAuthToken>, tasks: seq<StoredTask>, user: UserId, creds: Credentials,
                          courses: Option<seq<Course>>, fetch: int -> Fetch, parseIso: string -> Option<Instant>)
    requires UniqueTokens(ts)
    requires |creds.host| >= 8 && creds.host[..8] == "https://"
    ensures SyncOutcome(Upsert(ts, user, Encode(creds)), tasks, user, courses, fetch, parseIso) ==
              Failure(HttpError(500, "Invalid stored credentials"))
  {
    UpsertKeepsUnique(ts, user, Encode(creds));
    UrlHostNeverDecodes(creds);
    var after := Upsert(ts, user, Encode(creds));
    var first := FirstToken(after, user, BrightspaceProvider);
    assert first.Some?;
    assert after[first.value].accessToken == Encode(creds);
  }

  predicate AllBrightspace(ts: seq<TaskData>) {
    forall i | 0 <= i < |ts| :: ts[i].source == BrightspaceSource
  }

  /** `xs` is `ys` with some elements left out, order kept. */
  predicate Subsequence(xs: seq<TaskData>, ys: seq<TaskData>) {
    if ys == [] then xs == []
    else if xs != [] && xs[|xs| - 1] == ys[|ys| - 1] then Subsequence(xs[..|xs| - 1], ys[..|ys| - 1])
    else Subsequence(xs, ys[..|ys| - 1])
  }

  lemma CandidatesAreBrightspace(cs: seq<Course>, fetch: int -> Fetch, parseIso: string -> Option<Instant>)
    ensures AllBrightspace(Candidates(cs, fetch, parseIso))
  {
    if cs != [] {
      CandidatesAreBrightspace(cs[..|cs| - 1], fetch, parseIso);
    }
  }

  lemma ConcatAssoc<T>(a: seq<T>, b: seq<T>, c: seq<T>)
    ensures (a + b) + c == a + (b + c)
  {
  }

  /** The candidates keep course order: those of a longer course list extend
      those of its prefix, and a skipped course adds none. */
  lemma {:induction false} CandidatesAppend(cs: seq<Course>, ds: seq<Course>, fetch: int -> Fetch, parseIso: string -> Option<Instant>)
    ensures Candidates(cs + ds, fetch, parseIso) == Candidates(cs, fetch, parseIso) + Candidates(ds, fetch, parseIso)
  {
    if ds == [] {
      assert cs + ds == cs;
    } else {
      var ds' := ds[..|ds| - 1];
      CandidatesAppend(cs, ds', fetch, parseIso);
      var all := cs + ds;
      assert all[..|all| - 1] == cs + ds';
      assert all[|all| - 1] == ds[|ds| - 1];
      CandidatesLast(all, fetch, parseIso);
      CandidatesLast(ds, fetch, parseIso);
      ConcatAssoc(Candidates(cs, fetch, parseIso), Candidates(ds', fetch, parseIso), CourseCandidates(ds[|ds| - 1], fetch, parseIso));
    }
  }

  lemma CandidatesLast(cs: seq<Course>, fetch: int -> Fetch, parseIso: string -> Option<Instant>)
    requires cs != []
    ensures Candidates(cs, fetch, parseIso) == Candidates(cs[..|cs| - 1], fetch, parseIso) + CourseCandidates(cs[|cs| - 1], fetch, parseIso)
  {
  }

  lemma SkippedCourse(c: Course, fetch: int -> Fetch, parseIso: string -> Option<Instant>)
    requires Skipped(c) || fetch(CourseId(c).value).FetchFailed?
    ensures CourseCandidates(c, fetch, parseIso) == []
  {
  }

  /** An exception while handling assignment k ends the course after the
      first k assignments. */
  lemma RaisingCourse(c: Course, fetch: int -> Fetch, parseIso: string -> Option<Instant>, k: nat)
    requires !Skipped(c)
    requires fetch(CourseId(c).value).Fetched? && fetch(CourseId(c).value).raisesAt == Some(k)
    requires k <= |fetch(CourseId(c).value).assignments|
    ensures CourseCandidates(c, fetch, parseIso) == ToTasks(fetch(CourseId(c).value).assignments[..k], CourseName(c), parseIso)
  {
    var asg := fetch(CourseId(c).value).assignments;
    if k == |asg| {
      assert asg[..k] == asg;
    }
  }

  /** No created task duplicates the title of an earlier Brightspace task of
      the user, no two created tasks share a title, and every candidate's
      title ends up either already taken or created. */
  lemma {:induction false} CreatedIsFresh(tasks: seq<StoredTask>, user: UserId, cands: seq<TaskData>)
    requires AllBrightspace(cands)
    ensures var cr := Created(tasks, user, cands);
            AllBrightspace(cr) &&
            (forall i | 0 <= i < |cr| :: !TitleTaken(tasks, user, cr[i].title)) &&
            (forall i, j | 0 <= i < j < |cr| :: cr[i].title != cr[j].title) &&
            (forall i | 0 <= i < |cands| ::
               TitleTaken(tasks, user, cands[i].title) || exists j | 0 <= j < |cr| :: cr[j].title == cands[i].title)
  {
    if cands != [] {
      var init, c := cands[..|cands| - 1], cands[|cands| - 1];
      var prev := Created(tasks, user, init);
      CreatedIsFresh(tasks, user, init);
      var rows := tasks + Rows(user, prev);
      var cr := Created(tasks, user, cands);
      if TitleTaken(rows, user, c.title) {
        var k :| 0 <= k < |rows| && rows[k].userId == user && rows[k].task.title == c.title && rows[k].task.source == BrightspaceSource;
        if k >= |tasks| {
          assert prev[k - |tasks|].title == c.title;
        } else {
          assert tasks[k] == rows[k];
        }
      } else {
        forall i | 0 <= i < |prev|
          ensures prev[i].title != c.title
        {
          assert rows[|tasks| + i] == StoredTask(user, prev[i]);
        }
        forall i | 0 <= i < |tasks|
          ensures !(tasks[i].userId == user && tasks[i].task.title == c.title && tasks[i].task.source == BrightspaceSource)
        {
          assert rows[i] == tasks[i];
        }
        assert cr == prev + [c];
        assert cr[|prev|].title == c.title;
      }
      forall i | 0 <= i < |cands|
        ensures TitleTaken(tasks, user, cands[i].title) || exists j | 0 <= j < |cr| :: cr[j].title == cands[i].title
      {
        if i < |init| {
          assert cands[i] == init[i];
          if !TitleTaken(tasks, user, init[i].title) {
            var j :| 0 <= j < |prev| && prev[j].title == init[i].title;
            assert cr[j] == prev[j];
          }
        }
      }
    }
  }

  /** The created tasks are the candidates with some left out, in order. */
  lemma {:induction false} CreatedKeepsOrder(tasks: seq<StoredTask>, user: UserId, cands: seq<TaskData>)
    ensures Subsequence(Created(tasks, user, cands), cands)
  {
    if cands != [] {
      var init, c := cands[..|cands| - 1], cands[|cands| - 1];
      var prev := Created(tasks, user, init);
      CreatedKeepsOrder(tasks, user, init);
      if Created(tasks, user, cands) == prev + [c] {
        assert (prev + [c])[..|prev|] == prev;
      } else {
        SubsequenceDropLast(prev, cands);
      }
    }
  }

  /** A subsequence stays one when more elements follow. */
  lemma {:induction false} SubsequenceExtend(xs: seq<TaskData>, ys: seq<TaskData>, zs: seq<TaskData>)
    requires Subsequence(xs, ys)
    ensures Subsequence(xs, ys + zs)
    decreases |zs|
  {
    if zs == [] {
      assert ys + zs == ys;
    } else {
      var init := zs[..|zs| - 1];
      SubsequenceExtend(xs, ys, init);
      assert (ys + zs)[..|ys + zs| - 1] == ys + init;
      SubsequenceDropLast(xs, ys + zs);
    }
  }

  lemma {:induction false} SubsequenceOfNothing(ys: seq<TaskData>)
    ensures Subsequence([], ys)
    decreases |ys|
  {
    if ys != [] {
      SubsequenceOfNothing(ys[..|ys| - 1]);
    }
  }

  lemma {:induction false} SubsequenceDropLast(xs: seq<TaskData>, ys: seq<TaskData>)
    requires ys != [] && Subsequence(xs, ys[..|ys| - 1])
    ensures Subsequence(xs, ys)
    decreases |xs| + |ys|
  {
    if xs != [] && xs[|xs| - 1] == ys[|ys| - 1] {
      SubsequenceWeaken(xs[..|xs| - 1], xs, ys[..|ys| - 1]);
    }
  }

  /** Dropping the last element of a subsequence keeps it a subsequence. */
  lemma {:induction false} SubsequenceWeaken(init: seq<TaskData>, xs: seq<TaskData>, ys: seq<TaskData>)
    requires xs != [] && init == xs[..|xs| - 1] && Subsequence(xs, ys)
    ensures Subsequence(init, ys)
    decreases |xs| + |ys|
  {
    if ys != [] {
      var ys' := ys[..|ys| - 1];
      if xs[|xs| - 1] == ys[|ys| - 1] {
        SubsequenceDropLast(init, ys);
      } else {
        SubsequenceWeaken(init, xs, ys');
        SubsequenceDropLast(init, ys);
      }
    }
  }

  /** The sync creates no duplicate titles and none clashing with earlier
      Brightspace tasks of the user, in course-then-assignment order. */
  lemma SyncCreatesFreshTitles(tokens: seq<OAuthToken>, tasks: seq<StoredTask>, user: UserId, courses: Option<seq<Course>>,
                               fetch: int -> Fetch, parseIso: string -> Option<Instant>)
    requires SyncOutcome(tokens, tasks, user, courses, fetch, parseIso).Success?
    ensures var cr := SyncOutcome(tokens, tasks, user, courses, fetch, parseIso).value;
            (forall i | 0 <= i < |cr| :: !TitleTaken(tasks, user, cr[i].title)) &&
            (forall i, j | 0 <= i < j < |cr| :: cr[i].title != cr[j].title) &&
            Subsequence(cr, Candidates(courses.value, fetch, parseIso))
  {
    CandidatesAreBrightspace(courses.value, fetch, parseIso);
    CreatedIsFresh(tasks, user, Candidates(courses.value, fetch, parseIso));
    CreatedKeepsOrder(tasks, user, Candidates(courses.value, fetch, parseIso));
  }
}
