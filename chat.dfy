/** The chat actions (lib/actions/chat.ts): the access checks in front of
    the language model. The model itself is the parameter `model`, a
    function of the system prompt (the persona's stored `prompt`, verbatim)
    and the conversation, which may fail with a message. Neither action
    writes to the store. */
module Chat {
  import opened Wrappers
  import opened Store
  import opened PatientActors

  const NotPublic := "This patient actor is not publicly accessible"

  /** `generateResponse`: the owner's chat. The ownership checks are those of
      `getPatientActor`; past them the answer is the model's, its failure
      message passed on unchanged. */
  function GenerateResponse(actors: map<string, Persona>, caller: Option<string>, patientId: string,
                            messages: seq<Message>, model: (string, seq<Message>) -> Result<string>)
    : (r: Result<string>)
    ensures GetPatientActor(actors, caller, patientId).Err? ==> r == Err(GetPatientActor(actors, caller, patientId).msg)
    ensures GetPatientActor(actors, caller, patientId).Ok? ==> r == model(actors[patientId].prompt, messages)
  {
    var p :- GetPatientActor(actors, caller, patientId);
    model(p.prompt, messages)
  }

  /** `generatePublicResponse`: anyone may chat with a public persona. */
  function GeneratePublicResponse(actors: map<string, Persona>, patientId: string, messages: seq<Message>,
                                  model: (string, seq<Message>) -> Result<string>)
    : (r: Result<string>)
    ensures patientId !in actors ==> r == Err(NotFound)
    ensures patientId in actors && !actors[patientId].isPublic ==> r == Err(NotPublic)
    ensures patientId in actors && actors[patientId].isPublic ==> r == model(actors[patientId].prompt, messages)
  {
    if patientId !in actors then Err(NotFound)
    else if !actors[patientId].isPublic then Err(NotPublic)
    else model(actors[patientId].prompt, messages)
  }

  /** An owner chatting with their own public persona gets the same answer
      through either action. */
  lemma OwnerOfPublicPersona(actors: map<string, Persona>, caller: Option<string>, patientId: string,
                             messages: seq<Message>, model: (string, seq<Message>) -> Result<string>)
    requires caller.Some? && patientId in actors
    requires actors[patientId].ownerId == caller.value && actors[patientId].isPublic
    ensures GenerateResponse(actors, caller, patientId, messages, model)
         == GeneratePublicResponse(actors, patientId, messages, model)
  {
  }

  /** The model is consulted only past the checks: where either action fails
      with one of its own messages, the model's answer plays no part. */
  lemma ChecksBeforeModel(actors: map<string, Persona>, caller: Option<string>, patientId: string,
                          messages: seq<Message>, m1: (string, seq<Message>) -> Result<string>,
                          m2: (string, seq<Message>) -> Result<string>)
    ensures GetPatientActor(actors, caller, patientId).Err? ==>
      GenerateResponse(actors, caller, patientId, messages, m1) == GenerateResponse(actors, caller, patientId, messages, m2)
    ensures !(patientId in actors && actors[patientId].isPublic) ==>
      GeneratePublicResponse(actors, patientId, messages, m1) == GeneratePublicResponse(actors, patientId, messages, m2)
  {
  }
}
