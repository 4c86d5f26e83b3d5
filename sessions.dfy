/** The chat-session and submission actions (lib/actions/sessions.ts): a
    student's sessions, handing one to an instructor, and the instructor's
    review. A session moves from "not submitted" to a `Pending` submission,
    and a review sets it to `Reviewed` or `Graded`, as often as the
    instructor saves. */
module Sessions {
  import opened Wrappers
  import opened Text
  import opened Store
  import opened Listing

  const SessionNotFound := "Session not found"
  const NotYourSession := "Unauthorized: This session does not belong to you"
  const CannotView := "Unauthorized: You cannot view this session"
  const UserNotFound := "User not found"
  const AlreadySubmitted := "This session has already been submitted"
  const InstructorNotFound := "Instructor not found"
  const NotAnInstructor := "The specified user is not an instructor"
  const OnlyInstructorsView := "Only instructors can view submitted sessions"
  const OnlyInstructorsFeedback := "Only instructors can provide feedback"
  const SubmissionNotFound := "Submission not found"
  const NotAssigned := "Unauthorized: This submission is not assigned to you"

  /** What the store reports when a new session refers to a user or persona
      it does not hold. */
  const ForeignKeyViolation := "Foreign key constraint violated"

  // ---------------------------------------------------------------------
  // createChatSession

  /** `createChatSession`: an empty session of the caller's with the persona.
      `id` and `now` stand for the store's generated id and clock. */
  method CreateChatSession(db: Db, caller: Option<string>, personaId: string, id: string, now: int)
    returns (r: Result<string>)
    requires db.Valid() && id !in db.sessions
    modifies db
    ensures db.Valid()
    ensures r.Ok? <==> caller.Some? && caller.value in old(db.users) && personaId in old(db.actors)
    ensures caller.None? ==> r == Err(NotSignedIn)
    ensures caller.Some? && !(caller.value in old(db.users) && personaId in old(db.actors)) ==> r == Err(ForeignKeyViolation)
    ensures r.Err? ==> db.sessions == old(db.sessions)
    ensures r.Ok? ==> (r.value == id
      && db.sessions == old(db.sessions)[id := ChatSession(id, caller.value, personaId, [], 0, now)])
    ensures db.users == old(db.users) && db.actors == old(db.actors)
    ensures db.submissions == old(db.submissions) && db.rubrics == old(db.rubrics)
  {
    if caller.None? {
      return Err(NotSignedIn);
    }
    if caller.value !in db.users || personaId !in db.actors {
      return Err(ForeignKeyViolation);
    }
    db.sessions := db.sessions[id := ChatSession(id, caller.value, personaId, [], 0, now)];
    r := Ok(id);
  }

  // ---------------------------------------------------------------------
  // updateChatSession

  /** The caller's own session: a missing session is reported before a
      foreign one. */
  function OwnSession(sessions: map<string, ChatSession>, caller: Option<string>, sessionId: string): (r: Result<ChatSession>)
    ensures r.Ok? <==> caller.Some? && sessionId in sessions && sessions[sessionId].userId == caller.value
    ensures r.Ok? ==> r.value == sessions[sessionId]
    ensures caller.None? ==> r == Err(NotSignedIn)
    ensures caller.Some? && sessionId !in sessions ==> r == Err(SessionNotFound)
    ensures caller.Some? && sessionId in sessions && sessions[sessionId].userId != caller.value ==> r == Err(NotYourSession)
  {
    var user :- RequireAuth(caller);
    if sessionId !in sessions then Err(SessionNotFound)
    else if sessions[sessionId].userId != user then Err(NotYourSession)
    else Ok(sessions[sessionId])
  }

  /** The session after a save: the whole message list is replaced and the
      count follows it. */
  function Saved(s: ChatSession, messages: seq<Message>, now: int): (r: ChatSession)
    ensures r.id == s.id && r.userId == s.userId && r.personaId == s.personaId
    ensures r.messages == messages && r.messageCount == |r.messages| && r.lastMessageAt == now
  {
    s.(messages := messages, messageCount := |messages|, lastMessageAt := now)
  }

  /** `updateChatSession`: the owner's save replaces the session's messages;
      nothing else in the store changes. */
  method UpdateChatSession(db: Db, caller: Option<string>, sessionId: string, messages: seq<Message>, now: int)
    returns (r: Result<()>)
    requires db.Valid()
    modifies db
    ensures db.Valid()
    ensures r.Ok? <==> OwnSession(old(db.sessions), caller, sessionId).Ok?
    ensures r.Err? ==> r.msg == OwnSession(old(db.sessions), caller, sessionId).msg && db.sessions == old(db.sessions)
    ensures r.Ok? ==> db.sessions == old(db.sessions)[sessionId := Saved(old(db.sessions)[sessionId], messages, now)]
    ensures db.users == old(db.users) && db.actors == old(db.actors)
    ensures db.submissions == old(db.submissions) && db.rubrics == old(db.rubrics)
  {
    var own := OwnSession(db.sessions, caller, sessionId);
    if own.Err? {
      return Err(own.msg);
    }
    db.sessions := db.sessions[sessionId := Saved(own.value, messages, now)];
    r := Ok(());
  }

  // ---------------------------------------------------------------------
  // getStudentSessions and getChatSession

  function SessionsOf(sessions: map<string, ChatSession>, userId: string): set<ChatSession> {
    set id | id in sessions && sessions[id].userId == userId :: sessions[id]
  }

  function LatestActivityFirst(a: ChatSession, b: ChatSession): bool {
    a.lastMessageAt >= b.lastMessageAt
  }

  /** `getStudentSessions`: exactly the caller's sessions, the most recently
      active first. */
  method GetStudentSessions(db: Db, caller: Option<string>) returns (r: Result<seq<ChatSession>>)
    ensures caller.None? ==> r == Err(NotSignedIn)
    ensures caller.Some? ==> (r.Ok? && Ordered(r.value, LatestActivityFirst)
      && |r.value| == |SessionsOf(db.sessions, caller.value)|
      && forall s :: s in r.value <==> s in db.sessions.Values && s.userId == caller.value)
  {
    if caller.None? {
      return Err(NotSignedIn);
    }
    var mine := SessionsOf(db.sessions, caller.value);
    var list := OrderBy(mine, LatestActivityFirst);
    forall s ensures s in mine <==> s in db.sessions.Values && s.userId == caller.value {
      if s in db.sessions.Values {
        var id :| id in db.sessions && db.sessions[id] == s;
      }
    }
    r := Ok(list);
  }

  /** `getChatSession`: a session is visible to its student and to the
      instructor its submission is assigned to. */
  function GetChatSession(sessions: map<string, ChatSession>, submissions: map<string, Submission>,
                          caller: Option<string>, sessionId: string): (r: Result<ChatSession>)
    ensures r.Ok? <==> (caller.Some? && sessionId in sessions
      && (sessions[sessionId].userId == caller.value || AssignedIn(submissions, sessionId, caller.value)))
    ensures r.Ok? ==> r.value == sessions[sessionId]
    ensures caller.None? ==> r == Err(NotSignedIn)
    ensures caller.Some? && sessionId !in sessions ==> r == Err(SessionNotFound)
    ensures r.Err? && caller.Some? && sessionId in sessions ==> r == Err(CannotView)
  {
    var user :- RequireAuth(caller);
    if sessionId !in sessions then Err(SessionNotFound)
    else if sessions[sessionId].userId != user && !AssignedIn(submissions, sessionId, user) then Err(CannotView)
    else Ok(sessions[sessionId])
  }

  /** Whoever may save a session may also open it. */
  lemma OwnerCanView(sessions: map<string, ChatSession>, submissions: map<string, Submission>,
                     caller: Option<string>, sessionId: string)
    requires OwnSession(sessions, caller, sessionId).Ok?
    ensures GetChatSession(sessions, submissions, caller, sessionId) == OwnSession(sessions, caller, sessionId)
  {
  }

  // ---------------------------------------------------------------------
  // submitSessionToInstructor

  /** The checks of `submitSessionToInstructor`, in the order it makes them:
      the caller's account, the session, its owner, an earlier submission,
      the instructor's account, and the instructor's role. */
  function SubmitCheck(users: map<string, User>, sessions: map<string, ChatSession>,
                       submissions: map<string, Submission>, caller: Option<string>,
                       sessionId: string, instructorId: string): (r: Result<()>)
    ensures r.Ok? <==> (caller.Some? && caller.value in users
      && sessionId in sessions && sessions[sessionId].userId == caller.value
      && !HasSubmission(submissions, sessionId)
      && instructorId in users && IsInstructorRole(users[instructorId].role))
    ensures caller.None? ==> r == Err(NotSignedIn)
    ensures caller.Some? && caller.value !in users ==> r == Err(UserNotFound)
    ensures (caller.Some? && caller.value in users && sessionId !in sessions) ==> r == Err(SessionNotFound)
    ensures (caller.Some? && caller.value in users && sessionId in sessions
      && sessions[sessionId].userId != caller.value) ==> r == Err(NotYourSession)
    ensures (caller.Some? && caller.value in users && sessionId in sessions
      && sessions[sessionId].userId == caller.value && HasSubmission(submissions, sessionId)) ==> r == Err(AlreadySubmitted)
    ensures (caller.Some? && caller.value in users && sessionId in sessions
      && sessions[sessionId].userId == caller.value && !HasSubmission(submissions, sessionId)
      && instructorId !in users) ==> r == Err(InstructorNotFound)
    ensures (caller.Some? && caller.value in users && sessionId in sessions
      && sessions[sessionId].userId == caller.value && !HasSubmission(submissions, sessionId)
      && instructorId in users && !IsInstructorRole(users[instructorId].role)) ==> r == Err(NotAnInstructor)
  {
    var user :- RequireAuth(caller);
    if user !in users then Err(UserNotFound)
    else if sessionId !in sessions then Err(SessionNotFound)
    else if sessions[sessionId].userId != user then Err(NotYourSession)
    else if HasSubmission(submissions, sessionId) then Err(AlreadySubmitted)
    else if instructorId !in users then Err(InstructorNotFound)
    else if !IsInstructorRole(users[instructorId].role) then Err(NotAnInstructor)
    else Ok(())
  }

  /** The owner who may submit a session gets "already submitted" once a
      submission for it exists, whichever instructor either call names. */
  lemma SubmitOnlyOnce(users: map<string, User>, sessions: map<string, ChatSession>,
                       submissions: map<string, Submission>, caller: Option<string>,
                       sessionId: string, instructorId: string, other: string, s: Submission)
    requires SubmitCheck(users, sessions, submissions, caller, sessionId, instructorId).Ok?
    requires s.sessionId == sessionId
    ensures SubmitCheck(users, sessions, submissions[s.id := s], caller, sessionId, other) == Err(AlreadySubmitted)
  {
    assert HasSubmission(submissions[s.id := s], sessionId) by {
      assert submissions[s.id := s][s.id].sessionId == sessionId;
    }
  }

  /** A session may be submitted only by its owner; no one else gets past
      the ownership check. */
  lemma SubmitByOwnerOnly(users: map<string, User>, sessions: map<string, ChatSession>,
                          submissions: map<string, Submission>, caller: Option<string>,
                          sessionId: string, instructorId: string)
    requires caller.Some? && caller.value in users && sessionId in sessions
    requires sessions[sessionId].userId != caller.value
    ensures SubmitCheck(users, sessions, submissions, caller, sessionId, instructorId) == Err(NotYourSession)
  {
  }

  /** `submitSessionToInstructor`: after the checks, one pending submission of
      the session, assigned to the instructor. `id` and `now` stand for the
      store's generated id and clock. */
  method SubmitSessionToInstructor(db: Db, caller: Option<string>, sessionId: string, instructorId: string,
                                   id: string, now: int)
    returns (r: Result<()>)
    requires db.Valid() && id !in db.submissions
    modifies db
    ensures db.Valid()
    ensures r == SubmitCheck(old(db.users), old(db.sessions), old(db.submissions), caller, sessionId, instructorId)
    ensures r.Err? ==> db.submissions == old(db.submissions)
    ensures r.Ok? ==> (db.submissions == old(db.submissions)[id := Submission(id, sessionId, instructorId, Pending, None, None, now, None)]
      && AssignedIn(db.submissions, sessionId, instructorId))
    ensures db.users == old(db.users) && db.actors == old(db.actors)
    ensures db.sessions == old(db.sessions) && db.rubrics == old(db.rubrics)
  {
    r := SubmitCheck(db.users, db.sessions, db.submissions, caller, sessionId, instructorId);
    if r.Err? {
      return;
    }
    var s := Submission(id, sessionId, instructorId, Pending, None, None, now, None);
    ghost var subs := db.submissions[id := s];
    forall a, b | a in subs && b in subs && subs[a].sessionId == subs[b].sessionId ensures a == b {
      if a != b && (a == id || b == id) {
        assert false;
      }
    }
    db.submissions := db.submissions[id := s];
    assert db.submissions[id].sessionId == sessionId;
  }

  // ---------------------------------------------------------------------
  // instructor listings

  /** The role check the instructor actions share: the caller must hold an
      account whose role is instructor or admin. `denied` is the action's
      own message for other roles. */
  function InstructorGate(users: map<string, User>, caller: Option<string>, denied: string): (r: Result<string>)
    ensures r.Ok? <==> caller.Some? && caller.value in users && IsInstructorRole(users[caller.value].role)
    ensures r.Ok? ==> r.value == caller.value
    ensures caller.None? ==> r == Err(NotSignedIn)
    ensures caller.Some? && caller.value !in users ==> r == Err(UserNotFound)
    ensures caller.Some? && caller.value in users && !IsInstructorRole(users[caller.value].role) ==> r == Err(denied)
  {
    var user :- RequireAuth(caller);
    if user !in users then Err(UserNotFound)
    else if !IsInstructorRole(users[user].role) then Err(denied)
    else Ok(user)
  }

  function AssignedTo(submissions: map<string, Submission>, instructorId: string): set<Submission> {
    set id | id in submissions && submissions[id].instructorId == instructorId :: submissions[id]
  }

  /** The submissions assigned to `instructorId` whose session is one with
      persona `personaId`. */
  function AssignedFor(submissions: map<string, Submission>, sessions: map<string, ChatSession>,
                       instructorId: string, personaId: string): set<Submission> {
    set id | id in submissions && submissions[id].instructorId == instructorId
             && submissions[id].sessionId in sessions
             && sessions[submissions[id].sessionId].personaId == personaId :: submissions[id]
  }

  function NewestSubmittedFirst(a: Submission, b: Submission): bool {
    a.submittedAt >= b.submittedAt
  }

  /** `getSubmittedSessions`: exactly the submissions assigned to the
      calling instructor, the newest first. */
  method GetSubmittedSessions(db: Db, caller: Option<string>) returns (r: Result<seq<Submission>>)
    ensures r.Ok? <==> InstructorGate(db.users, caller, OnlyInstructorsView).Ok?
    ensures r.Err? ==> r.msg == InstructorGate(db.users, caller, OnlyInstructorsView).msg
    ensures r.Ok? ==> (Ordered(r.value, NewestSubmittedFirst)
      && |r.value| == |AssignedTo(db.submissions, caller.value)|
      && forall s :: s in r.value <==> s in db.submissions.Values && s.instructorId == caller.value)
  {
    var gate := InstructorGate(db.users, caller, OnlyInstructorsView);
    if gate.Err? {
      return Err(gate.msg);
    }
    var mine := AssignedTo(db.submissions, gate.value);
    var list := OrderBy(mine, NewestSubmittedFirst);
    forall s ensures s in mine <==> s in db.submissions.Values && s.instructorId == gate.value {
      if s in db.submissions.Values {
        var id :| id in db.submissions && db.submissions[id] == s;
      }
    }
    r := Ok(list);
  }

  /** `getSubmissionsByPatientActor`: the same, narrowed to sessions with the
      given persona. */
  method GetSubmissionsByPatientActor(db: Db, caller: Option<string>, personaId: string)
    returns (r: Result<seq<Submission>>)
    ensures r.Ok? <==> InstructorGate(db.users, caller, OnlyInstructorsView).Ok?
    ensures r.Err? ==> r.msg == InstructorGate(db.users, caller, OnlyInstructorsView).msg
    ensures r.Ok? ==> (Ordered(r.value, NewestSubmittedFirst)
      && |r.value| == |AssignedFor(db.submissions, db.sessions, caller.value, personaId)|
      && forall s :: s in r.value <==> (s in db.submissions.Values && s.instructorId == caller.value
           && s.sessionId in db.sessions && db.sessions[s.sessionId].personaId == personaId))
  {
    var gate := InstructorGate(db.users, caller, OnlyInstructorsView);
    if gate.Err? {
      return Err(gate.msg);
    }
    var mine := AssignedFor(db.submissions, db.sessions, gate.value, personaId);
    var list := OrderBy(mine, NewestSubmittedFirst);
    forall s ensures s in mine <==> s in db.submissions.Values && s.instructorId == gate.value
                                    && s.sessionId in db.sessions && db.sessions[s.sessionId].personaId == personaId {
      if s in db.submissions.Values {
        var id :| id in db.submissions && db.submissions[id] == s;
      }
    }
    r := Ok(list);
  }

  // ---------------------------------------------------------------------
  // updateSubmissionFeedback

  /** `grade || null`: a missing or empty grade is stored as none. */
  function GradeOrNull(grade: Option<string>): (r: Option<string>)
    ensures r.Some? <==> grade.Some? && grade.value != ""
    ensures r.Some? ==> r == grade
  {
    if grade.Some? && grade.value != "" then grade else None
  }

  /** `grade ? "graded" : "reviewed"`. */
  function StatusFor(grade: Option<string>): (r: Status)
    ensures r != Pending
    ensures r == Graded <==> grade.Some? && grade.value != ""
  {
    if grade.Some? && grade.value != "" then Graded else Reviewed
  }

  /** The submission after an instructor's save. */
  function Review(s: Submission, feedback: string, grade: Option<string>, now: int): (r: Submission)
    ensures r.id == s.id && r.sessionId == s.sessionId && r.instructorId == s.instructorId
    ensures r.submittedAt == s.submittedAt
    ensures r.feedback == Some(feedback) && r.reviewedAt == Some(now)
    ensures r.grade == GradeOrNull(grade) && r.status == StatusFor(grade)
  {
    s.(feedback := Some(feedback), grade := GradeOrNull(grade), status := StatusFor(grade), reviewedAt := Some(now))
  }

  /** What a save stores depends only on the grade the instructor sends,
      whatever the submission held before: a non-empty grade is stored and
      marks it graded; a missing or empty one stores no grade and marks it
      reviewed, so a graded submission saved without a grade goes back to
      reviewed. A save never returns it to pending. */
  lemma ReviewStatus(s: Submission, feedback: string, grade: Option<string>, now: int)
    ensures var r := Review(s, feedback, grade, now);
      (r.status == Graded <==> grade.Some? && grade.value != "")
      && (r.status == Reviewed <==> !(grade.Some? && grade.value != ""))
      && (grade.Some? && grade.value != "" ==> r.grade == grade)
      && (!(grade.Some? && grade.value != "") ==> r.grade.None?)
  {
  }

  /** Saving the same review twice is the same as saving it once. */
  lemma ReviewIdempotent(s: Submission, feedback: string, grade: Option<string>, now: int)
    ensures Review(Review(s, feedback, grade, now), feedback, grade, now) == Review(s, feedback, grade, now)
  {
  }

  /** The checks of `updateSubmissionFeedback`: the instructor gate, then the
      submission, then its assignment to the caller. */
  function FeedbackCheck(users: map<string, User>, submissions: map<string, Submission>,
                         caller: Option<string>, submissionId: string): (r: Result<Submission>)
    ensures r.Ok? <==> (InstructorGate(users, caller, OnlyInstructorsFeedback).Ok?
      && submissionId in submissions && submissions[submissionId].instructorId == caller.value)
    ensures r.Ok? ==> r.value == submissions[submissionId]
    ensures InstructorGate(users, caller, OnlyInstructorsFeedback).Err? ==> r.msg == InstructorGate(users, caller, OnlyInstructorsFeedback).msg
    ensures InstructorGate(users, caller, OnlyInstructorsFeedback).Ok? && submissionId !in submissions ==> r == Err(SubmissionNotFound)
    ensures (InstructorGate(users, caller, OnlyInstructorsFeedback).Ok? && submissionId in submissions
      && submissions[submissionId].instructorId != caller.value) ==> r == Err(NotAssigned)
  {
    var user :- InstructorGate(users, caller, OnlyInstructorsFeedback);
    if submissionId !in submissions then Err(SubmissionNotFound)
    else if submissions[submissionId].instructorId != user then Err(NotAssigned)
    else Ok(submissions[submissionId])
  }

  /** `updateSubmissionFeedback`: the assigned instructor's save. */
  method UpdateSubmissionFeedback(db: Db, caller: Option<string>, submissionId: string, feedback: string,
                                  grade: Option<string>, now: int)
    returns (r: Result<()>)
    requires db.Valid()
    modifies db
    ensures db.Valid()
    ensures r.Ok? <==> FeedbackCheck(old(db.users), old(db.submissions), caller, submissionId).Ok?
    ensures r.Err? ==> (r.msg == FeedbackCheck(old(db.users), old(db.submissions), caller, submissionId).msg
      && db.submissions == old(db.submissions))
    ensures r.Ok? ==> db.submissions == old(db.submissions)[submissionId := Review(old(db.submissions)[submissionId], feedback, grade, now)]
    ensures db.users == old(db.users) && db.actors == old(db.actors)
    ensures db.sessions == old(db.sessions) && db.rubrics == old(db.rubrics)
  {
    var check := FeedbackCheck(db.users, db.submissions, caller, submissionId);
    if check.Err? {
      return Err(check.msg);
    }
    var s' := Review(check.value, feedback, grade, now);
    ghost var subs := db.submissions[submissionId := s'];
    assert forall id | id in subs :: subs[id].sessionId == db.submissions[id].sessionId;
    db.submissions := db.submissions[submissionId := s'];
    r := Ok(());
  }

  // ---------------------------------------------------------------------
  // getInstructors

  function ByName(a: User, b: User): bool {
    StrLe(a.name, b.name)
  }

  lemma ByNameIsTotalPreorder()
    ensures IsTotalPreorder(ByName)
  {
    forall a: User, b: User ensures ByName(a, b) || ByName(b, a) {
      StrLeTotal(a.name, b.name);
    }
    forall a: User, b: User, c: User | ByName(a, b) && ByName(b, c) ensures ByName(a, c) {
      StrLeTransitive(a.name, b.name, c.name);
    }
  }

  function Instructors(users: map<string, User>): set<User> {
    set id | id in users && IsInstructorRole(users[id].role) :: users[id]
  }

  /** `getInstructors`: every user whose role is instructor or admin, by name.
      Any signed-in caller may ask. */
  method GetInstructors(db: Db, caller: Option<string>) returns (r: Result<seq<User>>)
    ensures caller.None? ==> r == Err(NotSignedIn)
    ensures caller.Some? ==> (r.Ok? && Ordered(r.value, ByName)
      && |r.value| == |Instructors(db.users)|
      && forall u :: u in r.value <==> u in db.users.Values && IsInstructorRole(u.role))
  {
    if caller.None? {
      return Err(NotSignedIn);
    }
    var all := Instructors(db.users);
    ByNameIsTotalPreorder();
    var list := OrderBy(all, ByName);
    forall u ensures u in all <==> u in db.users.Values && IsInstructorRole(u.role) {
      if u in db.users.Values {
        var id :| id in db.users && db.users[id] == u;
      }
    }
    r := Ok(list);
  }
}
