/** The rubric actions (lib/actions/rubrics.ts): each persona has at most
    one grading rubric, stored under the persona's id, which only the
    persona's owner may read, replace or delete. */
module Rubrics {
  import opened Wrappers
  import opened RubricTypes
  import opened Store
  import opened PatientActors

  /** `getRubricByPatientActor`: after the ownership checks, the persona's
      rubric if it has one. */
  function GetRubricByPatientActor(actors: map<string, Persona>, rubrics: map<string, GradingRubric>,
                                   caller: Option<string>, personaId: string)
    : (r: Result<Option<GradingRubric>>)
    ensures r.Ok? <==> GetPatientActor(actors, caller, personaId).Ok?
    ensures r.Err? ==> r.msg == GetPatientActor(actors, caller, personaId).msg
    ensures r.Ok? ==> (r.value.Some? <==> personaId in rubrics)
    ensures r.Ok? && r.value.Some? ==> r.value.value == rubrics[personaId]
  {
    var _ :- GetPatientActor(actors, caller, personaId);
    if personaId in rubrics then Ok(Some(rubrics[personaId])) else Ok(None)
  }

  /** The record `upsertRubric` leaves in the store, as written. The
      categories, total and flag are the ones sent, the total unchecked.
      A threshold that is not sent is left out of the write: a new rubric
      has none, and an existing rubric keeps the one it had. */
  function StoredRubric(existing: Option<GradingRubric>, personaId: string, data: RubricData): (r: GradingRubric)
    ensures r.personaId == personaId && r.categories == data.categories
    ensures r.totalPoints == data.totalPoints && r.autoGradeEnabled == data.autoGradeEnabled
    ensures data.passingThreshold.Some? ==> r.passingThreshold == data.passingThreshold
    ensures data.passingThreshold.None? && existing.None? ==> r.passingThreshold.None?
    ensures data.passingThreshold.None? && existing.Some? ==> r.passingThreshold == existing.value.passingThreshold
  {
    var threshold :=
      if data.passingThreshold.None? && existing.Some? then existing.value.passingThreshold
      else data.passingThreshold;
    GradingRubric(personaId, data.categories, data.totalPoints, threshold, data.autoGradeEnabled)
  }

  /** A threshold cleared in the editor is never cleared in the store: the
      rubric read back still has the old one. */
  lemma ClearedThresholdKept()
    ensures var old_ := GradingRubric("p", [], 50, Some(30), true);
      var data := RubricData([], 50, None, true);
      StoredRubric(Some(old_), "p", data).passingThreshold == Some(30)
      && StoredRubric(Some(old_), "p", data).passingThreshold != data.passingThreshold
  {
  }

  /** The record an upsert that writes every field of `data` would leave. */
  function StoredRubricIntended(personaId: string, data: RubricData): (r: GradingRubric)
    ensures r.personaId == personaId
  {
    GradingRubric(personaId, data.categories, data.totalPoints, data.passingThreshold, data.autoGradeEnabled)
  }

  /** With every field written, reading the rubric back gives exactly what
      was sent, whatever was stored before. */
  lemma IntendedUpsertRoundTrip(actors: map<string, Persona>, rubrics: map<string, GradingRubric>,
                                caller: Option<string>, personaId: string, data: RubricData)
    requires GetPatientActor(actors, caller, personaId).Ok?
    ensures var r := GetRubricByPatientActor(actors, rubrics[personaId := StoredRubricIntended(personaId, data)], caller, personaId);
      r.Ok? && r.value.Some?
      && RubricData(r.value.value.categories, r.value.value.totalPoints,
                    r.value.value.passingThreshold, r.value.value.autoGradeEnabled) == data
  {
  }

  /** The as-written upsert agrees with the intended one except on the
      threshold of an existing rubric when none is sent. */
  lemma StoredRubricDiffersOnlyThere(existing: Option<GradingRubric>, personaId: string, data: RubricData)
    requires !(data.passingThreshold.None? && existing.Some? && existing.value.passingThreshold.Some?)
    ensures StoredRubric(existing, personaId, data) == StoredRubricIntended(personaId, data)
  {
  }

  /** `upsertRubric`, with the threshold written as sent (see
      `StoredRubric` for the write as it stands): after the ownership checks
      the persona has exactly one rubric, holding the data sent; other
      personas' rubrics are untouched. */
  method UpsertRubric(db: Db, caller: Option<string>, personaId: string, data: RubricData)
    returns (r: Result<GradingRubric>)
    requires db.Valid()
    modifies db
    ensures db.Valid()
    ensures r.Ok? <==> GetPatientActor(old(db.actors), caller, personaId).Ok?
    ensures r.Err? ==> (r.msg == GetPatientActor(old(db.actors), caller, personaId).msg
      && db.rubrics == old(db.rubrics))
    ensures r.Ok? ==> (r.value == StoredRubricIntended(personaId, data)
      && db.rubrics == old(db.rubrics)[personaId := r.value])
    ensures db.users == old(db.users) && db.actors == old(db.actors)
    ensures db.sessions == old(db.sessions) && db.submissions == old(db.submissions)
  {
    var owned := GetPatientActor(db.actors, caller, personaId);
    if owned.Err? {
      return Err(owned.msg);
    }
    var stored := StoredRubricIntended(personaId, data);
    db.rubrics := db.rubrics[personaId := stored];
    r := Ok(stored);
  }

  /** `deleteRubric`: after the ownership checks the persona has no rubric,
      whether or not it had one. */
  method DeleteRubric(db: Db, caller: Option<string>, personaId: string) returns (r: Result<bool>)
    requires db.Valid()
    modifies db
    ensures db.Valid()
    ensures r.Ok? <==> GetPatientActor(old(db.actors), caller, personaId).Ok?
    ensures r.Err? ==> r.msg == GetPatientActor(old(db.actors), caller, personaId).msg && db.rubrics == old(db.rubrics)
    ensures r.Ok? ==> r.value && db.rubrics == old(db.rubrics) - {personaId}
    ensures db.users == old(db.users) && db.actors == old(db.actors)
    ensures db.sessions == old(db.sessions) && db.submissions == old(db.submissions)
  {
    var owned := GetPatientActor(db.actors, caller, personaId);
    if owned.Err? {
      return Err(owned.msg);
    }
    db.rubrics := db.rubrics - {personaId};
    r := Ok(true);
  }

  /** After a delete the owner reads no rubric, and a second delete leaves the
      store as the first one did. */
  lemma DeleteThenGet(actors: map<string, Persona>, rubrics: map<string, GradingRubric>,
                      caller: Option<string>, personaId: string)
    requires GetPatientActor(actors, caller, personaId).Ok?
    ensures GetRubricByPatientActor(actors, rubrics - {personaId}, caller, personaId) == Ok(None)
    ensures (rubrics - {personaId}) - {personaId} == rubrics - {personaId}
  {
  }
}
