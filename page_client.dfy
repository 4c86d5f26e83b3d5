/** The persona list on the home page (app/page-client.tsx): the list of the
    user's personas and the one selected for editing, kept in step with the
    editor's update and delete and with the create button. */
module HomePage {
  import opened Wrappers
  import opened Store

  /** What the create button sends to `createPatientActor`. */
  const NewName := "New Patient Actor"
  const NewAge := 50
  const NewPrompt := "# Patient Actor Instructions\n\nEnter your patient actor's behavior and characteristics here..."

  function Ids(ps: seq<Persona>): (r: seq<string>)
    ensures |r| == |ps| && forall i | 0 <= i < |ps| :: r[i] == ps[i].id
  {
    if ps == [] then [] else [ps[0].id] + Ids(ps[1..])
  }

  predicate DistinctIds(ps: seq<Persona>) {
    forall i, j | 0 <= i < j < |ps| :: ps[i].id != ps[j].id
  }

  /** `prev.map(p => p.id === updated.id ? updated : p)`. */
  function Replaced(ps: seq<Persona>, updated: Persona): (r: seq<Persona>)
    ensures |r| == |ps|
  {
    if ps == [] then [] else [if ps[0].id == updated.id then updated else ps[0]] + Replaced(ps[1..], updated)
  }

  /** Only the elements with the updated id change, each to the update; the
      rest keep their place. */
  lemma {:induction false} ReplacedAt(ps: seq<Persona>, updated: Persona, i: int)
    requires 0 <= i < |ps|
    ensures Replaced(ps, updated)[i] == if ps[i].id == updated.id then updated else ps[i]
    decreases |ps|
  {
    if i > 0 {
      ReplacedAt(ps[1..], updated, i - 1);
    }
  }

  /** An update keeps the list of ids, so distinct ids stay distinct. */
  lemma ReplacedIds(ps: seq<Persona>, updated: Persona)
    ensures Ids(Replaced(ps, updated)) == Ids(ps)
  {
    var r := Replaced(ps, updated);
    forall i | 0 <= i < |ps|
      ensures Ids(r)[i] == Ids(ps)[i]
    {
      ReplacedAt(ps, updated, i);
    }
  }

  /** `patients.filter(p => p.id !== id)`. */
  function Without(ps: seq<Persona>, id: string): (r: seq<Persona>)
    ensures |r| <= |ps|
  {
    if ps == [] then []
    else if ps[0].id == id then Without(ps[1..], id)
    else [ps[0]] + Without(ps[1..], id)
  }

  /** The filter keeps exactly the personas with another id. */
  lemma {:induction false} WithoutMembers(ps: seq<Persona>, id: string)
    ensures forall p :: p in Without(ps, id) <==> p in ps && p.id != id
    decreases |ps|
  {
    if ps != [] {
      WithoutMembers(ps[1..], id);
      assert ps == [ps[0]] + ps[1..];
    }
  }

  /** Ids are distinct in a list with a head exactly when they are in the
      tail and the head's id is not among them. */
  lemma DistinctCons(p: Persona, rest: seq<Persona>)
    ensures DistinctIds([p] + rest) <==> (forall q | q in rest :: q.id != p.id) && DistinctIds(rest)
  {
    var ps := [p] + rest;
    if DistinctIds(ps) {
      forall i, j | 0 <= i < j < |rest|
        ensures rest[i].id != rest[j].id
      {
        assert ps[i + 1] == rest[i] && ps[j + 1] == rest[j];
      }
      forall q | q in rest
        ensures q.id != p.id
      {
        var k :| 0 <= k < |rest| && rest[k] == q;
        assert ps[0] == p && ps[k + 1] == q;
      }
    }
  }

  /** The filter keeps distinct ids distinct. */
  lemma {:induction false} WithoutDistinct(ps: seq<Persona>, id: string)
    requires DistinctIds(ps)
    ensures DistinctIds(Without(ps, id))
    decreases |ps|
  {
    if ps != [] {
      assert ps == [ps[0]] + ps[1..];
      DistinctCons(ps[0], ps[1..]);
      WithoutDistinct(ps[1..], id);
      if ps[0].id != id {
        WithoutMembers(ps[1..], id);
        DistinctCons(ps[0], Without(ps[1..], id));
      }
    }
  }

  /** `HomeClient`'s state: the personas shown, the one selected (null in
      the source when there is none) and whether a create is running. */
  class HomeClient {
    var patients: seq<Persona>
    var selected: Option<Persona>
    var isCreating: bool

    /** The selection, when there is one, is one of the personas shown. */
    predicate Valid()
      reads this
    {
      selected.Some? ==> selected.value in patients
    }

    /** The page opens on the given list with its first persona selected,
        or none when the list is empty. */
    constructor (patientActors: seq<Persona>)
      ensures Valid()
      ensures patients == patientActors && !isCreating
      ensures selected == if patientActors != [] then Some(patientActors[0]) else None
    {
      patients := patientActors;
      selected := if patientActors != [] then Some(patientActors[0]) else None;
      isCreating := false;
    }

    /** `handlePatientUpdate`: the saved persona replaces the shown ones with
        its id, and replaces the selection exactly when the ids match. */
    method Update(updated: Persona)
      requires Valid()
      modifies this
      ensures Valid()
      ensures patients == Replaced(old(patients), updated)
      ensures Ids(patients) == Ids(old(patients))
      ensures old(selected).Some? && old(selected).value.id == updated.id ==> selected == Some(updated)
      ensures !(old(selected).Some? && old(selected).value.id == updated.id) ==> selected == old(selected)
      ensures isCreating == old(isCreating)
    {
      ghost var before := patients;
      patients := Replaced(patients, updated);
      ReplacedIds(before, updated);
      if selected.Some? {
        ghost var k :| 0 <= k < |before| && before[k] == selected.value;
        ReplacedAt(before, updated, k);
        if selected.value.id == updated.id {
          selected := Some(updated);
        }
      }
    }

    /** `handlePatientDelete`: with nothing selected nothing happens;
        otherwise the selected persona's id leaves the list and the first
        remaining persona, if any, becomes the selection. */
    method Delete()
      requires Valid()
      modifies this
      ensures Valid()
      ensures old(selected).None? ==> patients == old(patients) && selected == old(selected)
      ensures old(selected).Some? ==> (patients == Without(old(patients), old(selected).value.id)
        && selected == (if patients != [] then Some(patients[0]) else None)
        && forall p | p in patients :: p.id != old(selected).value.id)
      ensures isCreating == old(isCreating)
    {
      if selected.None? {
        return;
      }
      var remaining := Without(patients, selected.value.id);
      WithoutMembers(patients, selected.value.id);
      patients := remaining;
      selected := if remaining != [] then Some(remaining[0]) else None;
    }

    /** `handleCreatePatient`: `create` is the server's answer to the fixed
        request. The new persona goes first in the list and is selected; a
        failure leaves both as they were. Either way no create is running
        afterwards. */
    method Create(create: (string, int, string) -> Result<Persona>) returns (created: Result<Persona>)
      requires Valid()
      modifies this
      ensures Valid()
      ensures created == create(NewName, NewAge, NewPrompt)
      ensures created.Ok? ==> patients == [created.value] + old(patients) && selected == Some(created.value)
      ensures created.Err? ==> patients == old(patients) && selected == old(selected)
      ensures !isCreating
    {
      isCreating := true;
      created := create(NewName, NewAge, NewPrompt);
      if created.Ok? {
        patients := [created.value] + patients;
        selected := Some(created.value);
      }
      isCreating := false;
    }

    /** Clicking a persona in the side list selects it. */
    method Click(p: Persona)
      requires Valid() && p in patients
      modifies this
      ensures Valid() && selected == Some(p)
      ensures patients == old(patients) && isCreating == old(isCreating)
    {
      selected := Some(p);
    }
  }

  /** Distinct ids survive every step when a created persona's id is new:
      the ids after an update are the same, a delete only drops personas,
      and a create adds one id not yet shown. */
  lemma DistinctAfterCreate(ps: seq<Persona>, created: Persona)
    requires DistinctIds(ps) && created.id !in Ids(ps)
    ensures DistinctIds([created] + ps)
  {
    var r := [created] + ps;
    forall i, j | 0 <= i < j < |r|
      ensures r[i].id != r[j].id
    {
      if i == 0 {
        assert Ids(ps)[j - 1] == r[j].id;
      }
    }
  }

  lemma DistinctAfterUpdate(ps: seq<Persona>, updated: Persona)
    requires DistinctIds(ps)
    ensures DistinctIds(Replaced(ps, updated))
  {
    ReplacedIds(ps, updated);
    var r := Replaced(ps, updated);
    forall i, j | 0 <= i < j < |r|
      ensures r[i].id != r[j].id
    {
      assert Ids(r)[i] == Ids(ps)[i] && Ids(r)[j] == Ids(ps)[j];
    }
  }
}
