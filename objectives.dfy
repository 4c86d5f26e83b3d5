/** The learning-objectives checklist beside the chat
    (components/objectives-panel.tsx): five fixed objectives the student
    ticks off, and the count of those done. */
module Objectives {
  datatype Objective = Objective(id: int, text: string, completed: bool)

  /** The checklist as the panel first shows it. */
  const Initial := [
    Objective(1, "Complete patient history", false),
    Objective(2, "Demonstrate empathy", false),
    Objective(3, "Identify key symptoms", false),
    Objective(4, "Formulate differential diagnosis", false),
    Objective(5, "Recommend appropriate tests", false)
  ]

  /** `toggleObjective`: flips `completed` on the objectives with `id`. Ids,
      texts and order are kept. */
  function Toggle(os: seq<Objective>, id: int): (r: seq<Objective>)
    ensures |r| == |os|
    ensures forall i | 0 <= i < |os| :: r[i].id == os[i].id && r[i].text == os[i].text
  {
    if os == [] then []
    else [if os[0].id == id then os[0].(completed := !os[0].completed) else os[0]] + Toggle(os[1..], id)
  }

  /** `completedCount`: how many objectives are done. */
  function CompletedCount(os: seq<Objective>): (r: nat)
    ensures r <= |os|
  {
    if os == [] then 0 else (if os[0].completed then 1 else 0) + CompletedCount(os[1..])
  }

  /** Toggling flips exactly the objectives with the given id. */
  lemma {:induction false} ToggleAt(os: seq<Objective>, id: int, i: int)
    requires 0 <= i < |os|
    ensures Toggle(os, id)[i].completed == (if os[i].id == id then !os[i].completed else os[i].completed)
    decreases |os|
  {
    if i > 0 {
      ToggleAt(os[1..], id, i - 1);
    }
  }

  /** Ticking the same box twice gives back the checklist. */
  lemma {:induction false} ToggleTwice(os: seq<Objective>, id: int)
    ensures Toggle(Toggle(os, id), id) == os
    decreases |os|
  {
    if os != [] {
      ToggleTwice(os[1..], id);
      assert Toggle(os, id)[1..] == Toggle(os[1..], id);
    }
  }

  /** An id on no objective changes nothing. */
  lemma {:induction false} ToggleAbsent(os: seq<Objective>, id: int)
    requires forall i | 0 <= i < |os| :: os[i].id != id
    ensures Toggle(os, id) == os
    decreases |os|
  {
    if os != [] {
      ToggleAbsent(os[1..], id);
    }
  }

  /** With one objective per id, a toggle moves the count by exactly one. */
  lemma {:induction false} ToggleCount(os: seq<Objective>, k: int)
    requires 0 <= k < |os|
    requires forall i | 0 <= i < |os| && i != k :: os[i].id != os[k].id
    ensures os[k].completed ==> CompletedCount(Toggle(os, os[k].id)) + 1 == CompletedCount(os)
    ensures !os[k].completed ==> CompletedCount(Toggle(os, os[k].id)) == CompletedCount(os) + 1
    decreases |os|
  {
    var id := os[k].id;
    if k == 0 {
      ToggleAbsent(os[1..], id);
    } else {
      ToggleCount(os[1..], k - 1);
      assert os[0].id != id;
    }
  }

  /** The panel opens with five objectives, numbered 1 to 5 in order, none
      done. */
  lemma InitialChecklist()
    ensures |Initial| == 5 && CompletedCount(Initial) == 0
    ensures forall i | 0 <= i < |Initial| :: Initial[i].id == i + 1 && !Initial[i].completed
  {
  }
}
