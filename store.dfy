/** The records the server actions read and write, and the database that
    holds them: one finite map per table, keyed by record id (rubrics by the
    id of the persona they grade). */
module Store {
  import opened Wrappers
  import opened PromptUtils
  import opened RubricTypes

  /** A user account. `role` is free text; "instructor" and "admin" may grade. */
  datatype User = User(id: string, name: string, email: string, role: string)

  predicate IsInstructorRole(role: string) {
    role == "instructor" || role == "admin"
  }

  /** A patient actor ("persona"): the prompt the chat model receives, the
      structured profile the editor shows, and its public URL slug. */
  datatype Persona = Persona(
    id: string,
    name: string,
    age: int,
    prompt: string,
    slug: string,
    ownerId: string,
    isPublic: bool,
    createdAt: int,
    profile: StructuredPrompt)

  /** The columns a new persona takes from the database schema's defaults. */
  datatype PersonaDefaults = PersonaDefaults(isPublic: bool, profile: StructuredPrompt)

  datatype Speaker = UserSpeaker | AssistantSpeaker

  datatype Message = Message(role: Speaker, content: string)

  datatype ChatSession = ChatSession(
    id: string,
    userId: string,
    personaId: string,
    messages: seq<Message>,
    messageCount: nat,
    lastMessageAt: int)

  datatype Status = Pending | Reviewed | Graded

  /** A session handed to an instructor for review. */
  datatype Submission = Submission(
    id: string,
    sessionId: string,
    instructorId: string,
    status: Status,
    feedback: Option<string>,
    grade: Option<string>,
    submittedAt: int,
    reviewedAt: Option<int>)

  datatype GradingRubric = GradingRubric(
    personaId: string,
    categories: seq<RubricCategory>,
    totalPoints: int,
    passingThreshold: Option<int>,
    autoGradeEnabled: bool)

  /** `requireAuth` fails with this message when nobody is signed in. */
  const NotSignedIn := "Unauthorized"

  /** `requireAuth`: the signed-in user's id. */
  function RequireAuth(caller: Option<string>): (r: Result<string>)
    ensures r.Ok? <==> caller.Some?
    ensures r.Ok? ==> r.value == caller.value
    ensures r.Err? ==> r.msg == NotSignedIn
  {
    if caller.Some? then Ok(caller.value) else Err(NotSignedIn)
  }

  /** Every persona sits under its own id, and no two share a slug (the slug
      is a lookup key of its own). */
  predicate ActorsValid(actors: map<string, Persona>) {
    (forall id | id in actors :: actors[id].id == id)
    && (forall a, b | a in actors && b in actors && actors[a].slug == actors[b].slug :: a == b)
  }

  /** Every session sits under its own id, and its message count is the
      length of its message list. */
  predicate SessionsValid(sessions: map<string, ChatSession>) {
    forall id | id in sessions :: sessions[id].id == id && sessions[id].messageCount == |sessions[id].messages|
  }

  /** Every submission sits under its own id, and a session has at most one. */
  predicate SubmissionsValid(submissions: map<string, Submission>) {
    (forall id | id in submissions :: submissions[id].id == id)
    && (forall a, b | a in submissions && b in submissions
          && submissions[a].sessionId == submissions[b].sessionId :: a == b)
  }

  function SlugsOf(actors: map<string, Persona>): set<string> {
    set id | id in actors :: actors[id].slug
  }

  /** Some submission refers to session `sessionId`. */
  predicate HasSubmission(submissions: map<string, Submission>, sessionId: string) {
    exists id | id in submissions :: submissions[id].sessionId == sessionId
  }

  /** The session's submission is assigned to `instructorId`. */
  predicate AssignedIn(submissions: map<string, Submission>, sessionId: string, instructorId: string) {
    exists id | id in submissions :: submissions[id].sessionId == sessionId
                                     && submissions[id].instructorId == instructorId
  }

  class Db {
    var users: map<string, User>
    var actors: map<string, Persona>
    var sessions: map<string, ChatSession>
    var submissions: map<string, Submission>
    var rubrics: map<string, GradingRubric>

    /** Every record sits under its own id, slugs are unique, message counts
        match, a session has at most one submission, and a rubric sits under
        its persona's id. */
    predicate Valid()
      reads this
    {
      (forall id | id in users :: users[id].id == id)
      && ActorsValid(actors)
      && SessionsValid(sessions)
      && SubmissionsValid(submissions)
      && (forall id | id in rubrics :: rubrics[id].personaId == id)
    }

    /** The slugs in use. */
    function Slugs(): set<string>
      reads this
    {
      SlugsOf(actors)
    }

    constructor ()
      ensures users == map[] && actors == map[] && sessions == map[]
      ensures submissions == map[] && rubrics == map[]
      ensures Valid()
    {
      users, actors, sessions, submissions, rubrics := map[], map[], map[], map[], map[];
    }
  }
}
