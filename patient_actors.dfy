/** The persona server actions (lib/actions/patient-actors.ts): listing,
    owner-gated get, update and delete, creation with a unique slug, the
    public lookup by slug, and the starter persona given to new users. */
module PatientActors {
  import opened Wrappers
  import opened Text
  import opened Slugs
  import opened PromptUtils
  import opened Store
  import opened Listing

  const NotFound := "Patient actor not found"
  const NotOwner := "Unauthorized: You don't own this patient actor"

  /** What the store reports when a new record reuses a slug. */
  const SlugInUse := "Unique constraint failed on the fields: (`slug`)"

  /** `getPatientActor`: the persona, for its owner only. A missing persona is
      reported before a foreign one. The rubric actions and `generateResponse`
      make the same checks. */
  function GetPatientActor(actors: map<string, Persona>, caller: Option<string>, id: string): (r: Result<Persona>)
    ensures r.Ok? <==> caller.Some? && id in actors && actors[id].ownerId == caller.value
    ensures r.Ok? ==> r.value == actors[id]
    ensures caller.None? ==> r == Err(NotSignedIn)
    ensures caller.Some? && id !in actors ==> r == Err(NotFound)
    ensures caller.Some? && id in actors && actors[id].ownerId != caller.value ==> r == Err(NotOwner)
  {
    var user :- RequireAuth(caller);
    if id !in actors then Err(NotFound)
    else if actors[id].ownerId != user then Err(NotOwner)
    else Ok(actors[id])
  }

  // ---------------------------------------------------------------------
  // createPatientActor

  /** The slug creation starts from: the supplied one unless it is missing or
      empty, otherwise the name's `createSlug`. */
  function BaseSlug(name: string, slug: Option<string>): string {
    if slug.Some? && slug.value != "" then slug.value else CreateSlug(name)
  }

  /** Adding a persona whose slug is not in use keeps the personas valid. */
  lemma AddFreshSlugValid(actors: map<string, Persona>, p: Persona)
    requires ActorsValid(actors) && p.id !in actors && p.slug !in SlugsOf(actors)
    ensures ActorsValid(actors[p.id := p])
  {
    var a := actors[p.id := p];
    forall x, y | x in a && y in a && a[x].slug == a[y].slug ensures x == y {
      if x != y && (x == p.id || y == p.id) {
        assert false;
      }
    }
  }

  /** `createPatientActor`: the persona gets the caller as owner and the first
      free slug among `base`, `base-1`, `base-2`, …; nothing else in the store
      changes. `id` and `now` stand for the store's generated id and clock. */
  method CreatePatientActor(db: Db, caller: Option<string>, name: string, age: int, prompt: string,
                            slug: Option<string>, id: string, now: int, defaults: PersonaDefaults)
    returns (r: Result<Persona>)
    requires db.Valid() && id !in db.actors
    modifies db
    ensures db.Valid()
    ensures caller.None? ==> r == Err(NotSignedIn) && db.actors == old(db.actors)
    ensures caller.Some? ==> (r.Ok? && r.value.id == id && r.value.ownerId == caller.value
      && r.value.name == name && r.value.age == age && r.value.prompt == prompt
      && r.value.createdAt == now && r.value.isPublic == defaults.isPublic
      && r.value.profile == defaults.profile
      && db.actors == old(db.actors)[id := r.value])
    ensures caller.Some? ==> FirstFree(old(db.Slugs()), BaseSlug(name, slug), r.value.slug)
    ensures db.users == old(db.users) && db.sessions == old(db.sessions)
    ensures db.submissions == old(db.submissions) && db.rubrics == old(db.rubrics)
  {
    if caller.None? {
      return Err(NotSignedIn);
    }
    var base := BaseSlug(name, slug);
    var unique, k := FirstFreeSlug(db.Slugs(), base);
    var p := Persona(id, name, age, prompt, unique, caller.value, defaults.isPublic, now, defaults.profile);
    AddFreshSlugValid(db.actors, p);
    db.actors := db.actors[id := p];
    r := Ok(p);
  }

  // ---------------------------------------------------------------------
  // updatePatientActor

  /** The fields `updatePatientActor` accepts; a `None` field is left as it
      is. The slug, owner and visibility are not among them. */
  datatype ActorPatch = ActorPatch(
    name: Option<string>,
    age: Option<int>,
    prompt: Option<string>,
    demographics: Option<string>,
    chiefComplaint: Option<string>,
    medicalHistory: Option<string>,
    medications: Option<string>,
    socialHistory: Option<string>,
    personality: Option<string>,
    physicalFindings: Option<string>,
    additionalSymptoms: Option<string>,
    revelationLevel: Option<string>,
    stayInCharacter: Option<bool>,
    avoidMedicalJargon: Option<bool>,
    provideFeedback: Option<bool>,
    customInstructions: Option<string>)

  const EmptyPatch := ActorPatch(None, None, None, None, None, None, None, None, None, None, None, None, None, None, None, None)

  function Or<T>(v: Option<T>, old_: T): T {
    if v.Some? then v.value else old_
  }

  function PatchProfile(p: StructuredPrompt, u: ActorPatch): StructuredPrompt {
    StructuredPrompt(
      Or(u.demographics, p.demographics), Or(u.chiefComplaint, p.chiefComplaint),
      Or(u.medicalHistory, p.medicalHistory), Or(u.medications, p.medications),
      Or(u.socialHistory, p.socialHistory), Or(u.personality, p.personality),
      Or(u.physicalFindings, p.physicalFindings), Or(u.additionalSymptoms, p.additionalSymptoms),
      Or(u.revelationLevel, p.revelationLevel), Or(u.stayInCharacter, p.stayInCharacter),
      Or(u.avoidMedicalJargon, p.avoidMedicalJargon), Or(u.provideFeedback, p.provideFeedback),
      Or(u.customInstructions, p.customInstructions))
  }

  /** The persona with the supplied fields written over it. */
  function ApplyPatch(p: Persona, u: ActorPatch): (r: Persona)
    ensures r.id == p.id && r.slug == p.slug && r.ownerId == p.ownerId
    ensures r.isPublic == p.isPublic && r.createdAt == p.createdAt
  {
    p.(name := Or(u.name, p.name), age := Or(u.age, p.age), prompt := Or(u.prompt, p.prompt),
       profile := PatchProfile(p.profile, u))
  }

  /** An empty patch changes nothing, and a patch applied twice has the effect
      of applying it once. */
  lemma ApplyPatchLaws(p: Persona, u: ActorPatch)
    ensures ApplyPatch(p, EmptyPatch) == p
    ensures ApplyPatch(ApplyPatch(p, u), u) == ApplyPatch(p, u)
  {
  }

  /** `after` is the supplied value when the patch has one, and `before`
      otherwise (an `undefined` field is left out of the write). */
  predicate Written<T(==)>(v: Option<T>, before: T, after: T) {
    if v.Some? then after == v.value else after == before
  }

  /** Every field of the patch is written when supplied and kept when not. */
  lemma ApplyPatchWrites(p: Persona, u: ActorPatch)
    ensures Written(u.name, p.name, ApplyPatch(p, u).name)
    ensures Written(u.age, p.age, ApplyPatch(p, u).age)
    ensures Written(u.prompt, p.prompt, ApplyPatch(p, u).prompt)
    ensures Written(u.demographics, p.profile.demographics, ApplyPatch(p, u).profile.demographics)
    ensures Written(u.chiefComplaint, p.profile.chiefComplaint, ApplyPatch(p, u).profile.chiefComplaint)
    ensures Written(u.medicalHistory, p.profile.medicalHistory, ApplyPatch(p, u).profile.medicalHistory)
    ensures Written(u.medications, p.profile.medications, ApplyPatch(p, u).profile.medications)
    ensures Written(u.socialHistory, p.profile.socialHistory, ApplyPatch(p, u).profile.socialHistory)
    ensures Written(u.personality, p.profile.personality, ApplyPatch(p, u).profile.personality)
    ensures Written(u.physicalFindings, p.profile.physicalFindings, ApplyPatch(p, u).profile.physicalFindings)
    ensures Written(u.additionalSymptoms, p.profile.additionalSymptoms, ApplyPatch(p, u).profile.additionalSymptoms)
    ensures Written(u.revelationLevel, p.profile.revelationLevel, ApplyPatch(p, u).profile.revelationLevel)
    ensures Written(u.stayInCharacter, p.profile.stayInCharacter, ApplyPatch(p, u).profile.stayInCharacter)
    ensures Written(u.avoidMedicalJargon, p.profile.avoidMedicalJargon, ApplyPatch(p, u).profile.avoidMedicalJargon)
    ensures Written(u.provideFeedback, p.profile.provideFeedback, ApplyPatch(p, u).profile.provideFeedback)
    ensures Written(u.customInstructions, p.profile.customInstructions, ApplyPatch(p, u).profile.customInstructions)
  {
  }

  /** `updatePatientActor`: after the ownership checks, the persona with the
      patch applied replaces the old one. */
  method UpdatePatientActor(db: Db, caller: Option<string>, id: string, patch: ActorPatch)
    returns (r: Result<Persona>)
    requires db.Valid()
    modifies db
    ensures db.Valid()
    ensures r.Ok? <==> GetPatientActor(old(db.actors), caller, id).Ok?
    ensures r.Err? ==> r == GetPatientActor(old(db.actors), caller, id) && db.actors == old(db.actors)
    ensures r.Ok? ==> (r.value == ApplyPatch(old(db.actors)[id], patch)
      && db.actors == old(db.actors)[id := r.value])
    ensures db.users == old(db.users) && db.sessions == old(db.sessions)
    ensures db.submissions == old(db.submissions) && db.rubrics == old(db.rubrics)
  {
    var existing := GetPatientActor(db.actors, caller, id);
    if existing.Err? {
      return existing;
    }
    var p := ApplyPatch(existing.value, patch);
    ghost var a := db.actors[id := p];
    assert forall x | x in a :: a[x].slug == db.actors[x].slug;
    db.actors := db.actors[id := p];
    r := Ok(p);
  }

  // ---------------------------------------------------------------------
  // deletePatientActor

  /** `deletePatientActor`: after the ownership checks the persona is gone.
      What the schema deletes along with it is not part of this model. */
  method DeletePatientActor(db: Db, caller: Option<string>, id: string) returns (r: Result<bool>)
    requires db.Valid()
    modifies db
    ensures db.Valid()
    ensures r.Ok? <==> GetPatientActor(old(db.actors), caller, id).Ok?
    ensures r.Err? ==> r.msg == GetPatientActor(old(db.actors), caller, id).msg && db.actors == old(db.actors)
    ensures r.Ok? ==> r.value && db.actors == old(db.actors) - {id}
    ensures db.users == old(db.users) && db.sessions == old(db.sessions)
    ensures db.submissions == old(db.submissions) && db.rubrics == old(db.rubrics)
  {
    var existing := GetPatientActor(db.actors, caller, id);
    if existing.Err? {
      return Err(existing.msg);
    }
    db.actors := db.actors - {id};
    r := Ok(true);
  }

  // ---------------------------------------------------------------------
  // public lookup and listing

  /** `getPatientActorBySlug`: the persona with that slug when it is public;
      `None` both when there is none and when it is private. No sign-in. */
  method GetPatientActorBySlug(db: Db, slug: string) returns (r: Option<Persona>)
    requires db.Valid()
    ensures r.Some? <==> exists id | id in db.actors :: db.actors[id].slug == slug && db.actors[id].isPublic
    ensures r.Some? ==> (r.value.id in db.actors && db.actors[r.value.id] == r.value
      && r.value.slug == slug && r.value.isPublic)
  {
    if id :| id in db.actors && db.actors[id].slug == slug {
      var p := db.actors[id];
      if !p.isPublic {
        return None;
      }
      return Some(p);
    }
    return None;
  }

  /** The caller's personas. */
  function Owned(actors: map<string, Persona>, owner: string): set<Persona> {
    set id | id in actors && actors[id].ownerId == owner :: actors[id]
  }

  function NewestFirst(a: Persona, b: Persona): bool {
    a.createdAt >= b.createdAt
  }

  /** `getMyPatientActors`: exactly the caller's personas, newest first. */
  method GetMyPatientActors(db: Db, caller: Option<string>) returns (r: Result<seq<Persona>>)
    ensures caller.None? ==> r == Err(NotSignedIn)
    ensures caller.Some? ==> (r.Ok? && Ordered(r.value, NewestFirst)
      && |r.value| == |Owned(db.actors, caller.value)|
      && forall p :: p in r.value <==> p in db.actors.Values && p.ownerId == caller.value)
  {
    if caller.None? {
      return Err(NotSignedIn);
    }
    var mine := Owned(db.actors, caller.value);
    var list := OrderBy(mine, NewestFirst);
    forall p ensures p in mine <==> p in db.actors.Values && p.ownerId == caller.value {
      if p in db.actors.Values {
        var id :| id in db.actors && db.actors[id] == p;
      }
    }
    r := Ok(list);
  }

  // ---------------------------------------------------------------------
  // createStarterPatientActor

  /** `s.slice(-n)`: the last `n` characters, or all of a shorter string. */
  function LastChars(s: string, n: nat): (r: string)
    ensures |r| == if |s| < n then |s| else n
    ensures s == s[..|s| - |r|] + r
  {
    if |s| <= n then s else s[|s| - n..]
  }

  /** The starter persona's slug: `philip-walters-` and the last six
      characters of the user's id. */
  function StarterSlug(userId: string): string {
    "philip-walters-" + LastChars(userId, 6)
  }

  /** `createStarterPatientActor`: a public "Philip Walters", aged 55, owned
      by the new user. No sign-in and no uniqueness loop: when the slug is
      taken the store refuses the record. `prompt` stands for the fixed
      starter prompt text. */
  method CreateStarterPatientActor(db: Db, userId: string, id: string, now: int, prompt: string,
                                   defaults: PersonaDefaults)
    returns (r: Result<Persona>)
    requires db.Valid() && id !in db.actors
    modifies db
    ensures db.Valid()
    ensures r.Ok? <==> StarterSlug(userId) !in old(db.Slugs())
    ensures r.Err? ==> r.msg == SlugInUse && db.actors == old(db.actors)
    ensures r.Ok? ==> (r.value == Persona(id, "Philip Walters", 55, prompt, StarterSlug(userId), userId, true, now, defaults.profile)
      && db.actors == old(db.actors)[id := r.value])
    ensures db.users == old(db.users) && db.sessions == old(db.sessions)
    ensures db.submissions == old(db.submissions) && db.rubrics == old(db.rubrics)
  {
    var slug := StarterSlug(userId);
    if slug in db.Slugs() {
      return Err(SlugInUse);
    }
    var p := Persona(id, "Philip Walters", 55, prompt, slug, userId, true, now, defaults.profile);
    AddFreshSlugValid(db.actors, p);
    db.actors := db.actors[id := p];
    r := Ok(p);
  }

  /** The starter slug depends only on the last six characters of the user
      id: two users whose ids end alike get the same slug, and once the
      first one's starter persona is stored the slug is taken, so the
      second starter persona is refused. */
  lemma {:induction false} StarterSlugClash(a: string, b: string, actors: map<string, Persona>)
    requires |a| >= 6 && |b| >= 6 && a[|a| - 6..] == b[|b| - 6..]
    ensures StarterSlug(a) == StarterSlug(b)
    ensures (exists id | id in actors :: actors[id].slug == StarterSlug(a)) ==> StarterSlug(b) in SlugsOf(actors)
  {
    assert LastChars(a, 6) == a[|a| - 6..];
    assert LastChars(b, 6) == b[|b| - 6..];
  }

  /** Ids of at most six characters are used whole. */
  lemma ShortIdSlug(userId: string)
    requires |userId| <= 6
    ensures StarterSlug(userId) == "philip-walters-" + userId
  {
  }
}
