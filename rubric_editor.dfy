/** The rubric editor's state and handlers
    (components/patient-rubric-editor.tsx). Calls to the rubric actions
    are parameters: what was sent is returned, and whether the action
    succeeded is passed in. */
module RubricEditing {
  import opened Wrappers
  import opened Text
  import opened RubricTypes
  import opened Store

  // ---------------------------------------------------------------------
  // Category lists

  /** `cat.maxPoints || 0`: a missing, unparsable or zero entry counts 0. */
  function Points(c: RubricCategory): int {
    if c.maxPoints.Some? then c.maxPoints.value else 0
  }

  predicate NoNegativePoints(cats: seq<RubricCategory>) {
    forall i | 0 <= i < |cats| :: Points(cats[i]) >= 0
  }

  predicate EachAtMost(cats: seq<RubricCategory>, bound: int) {
    forall i | 0 <= i < |cats| :: Points(cats[i]) <= bound
  }

  /** `calculateTotalPoints`: when no category is worth less than nothing,
      the total is not negative and no category is worth more than it. */
  function TotalPoints(cats: seq<RubricCategory>): (r: int)
    ensures NoNegativePoints(cats) ==> 0 <= r && EachAtMost(cats, r)
  {
    if cats == [] then 0
    else
      var front := cats[..|cats| - 1];
      assert forall i | 0 <= i < |front| :: front[i] == cats[i];
      TotalPoints(front) + Points(cats[|cats| - 1])
  }

  lemma {:induction false} TotalPointsAppend(a: seq<RubricCategory>, b: seq<RubricCategory>)
    ensures TotalPoints(a + b) == TotalPoints(a) + TotalPoints(b)
    decreases |b|
  {
    if b != [] {
      assert (a + b)[..|a + b| - 1] == a + b[..|b| - 1];
      TotalPointsAppend(a, b[..|b| - 1]);
    } else {
      assert a + b == a;
    }
  }

  /** The total is the sum over the list however it is split, so replacing or
      removing one entry changes it by exactly that entry's points. */
  lemma {:induction false} TotalPointsAround(cats: seq<RubricCategory>, i: nat)
    requires i < |cats|
    ensures TotalPoints(cats) == TotalPoints(cats[..i]) + Points(cats[i]) + TotalPoints(cats[i + 1..])
  {
    assert cats[..i] + [cats[i]] == cats[..i + 1];
    assert cats[..i + 1] + cats[i + 1..] == cats;
    TotalPointsAppend(cats[..i + 1], cats[i + 1..]);
    TotalPointsAppend(cats[..i], [cats[i]]);
    TotalPointsSingle(cats[i]);
  }

  lemma TotalPointsSingle(c: RubricCategory)
    ensures TotalPoints([c]) == Points(c)
  {
    assert [c][..0] == [];
  }

  /** A list whose entries are all worth `v` totals `|cats| * v`. */
  lemma {:induction false} TotalPointsUniform(cats: seq<RubricCategory>, v: int)
    requires forall i | 0 <= i < |cats| :: Points(cats[i]) == v
    ensures TotalPoints(cats) == |cats| * v
  {
    if cats != [] {
      TotalPointsUniform(cats[..|cats| - 1], v);
    }
  }

  /** The template totals 50 points, as its button says. */
  lemma StandardOsceTotal()
    ensures TotalPoints(StandardOsceRubric) == 50
  {
    StandardOsceRubricShape();
    TotalPointsUniform(StandardOsceRubric, 10);
  }

  /** A category the save accepts: a name, a description and non-zero points
      (negative points pass). */
  predicate Complete(c: RubricCategory) {
    c.name != "" && c.description != "" && c.maxPoints.Some? && c.maxPoints.value != 0
  }

  /** Every template category passes the save's check. */
  lemma StandardOsceComplete()
    ensures forall i | 0 <= i < |StandardOsceRubric| :: Complete(StandardOsceRubric[i])
  {
    StandardOsceRubricShape();
  }

  /** The entry `handleAddCategory` appends: empty texts and 10 points. */
  const NewCategory := RubricCategory("", "", Some(10), "")

  /** A fresh entry does not pass the save's check until it is filled in. */
  lemma NewCategoryIncomplete()
    ensures !Complete(NewCategory) && Points(NewCategory) == 10
  {
  }

  /** `categories.filter((_, i) => i !== index)`. */
  function Removed(cats: seq<RubricCategory>, index: int): (r: seq<RubricCategory>)
    ensures 0 <= index < |cats| ==> (|r| == |cats| - 1
      && (forall j | 0 <= j < index :: r[j] == cats[j])
      && (forall j | index <= j < |r| :: r[j] == cats[j + 1]))
    ensures !(0 <= index < |cats|) ==> r == cats
  {
    if 0 <= index < |cats| then cats[..index] + cats[index + 1..] else cats
  }

  lemma RemovedTotal(cats: seq<RubricCategory>, index: int)
    requires 0 <= index < |cats|
    ensures TotalPoints(Removed(cats, index)) == TotalPoints(cats) - Points(cats[index])
  {
    TotalPointsAround(cats, index);
    TotalPointsAppend(cats[..index], cats[index + 1..]);
  }

  /** The fields of a partial category update; `None` keeps the field. */
  datatype CategoryPatch = CategoryPatch(
    name: Option<string>, description: Option<string>, maxPoints: Option<int>, criteria: Option<string>)

  /** `{ ...category, ...updates }`. */
  function Merged(c: RubricCategory, u: CategoryPatch): (r: RubricCategory)
    ensures u.name.Some? ==> r.name == u.name.value
    ensures u.name.None? ==> r.name == c.name
    ensures u.description.Some? ==> r.description == u.description.value
    ensures u.description.None? ==> r.description == c.description
    ensures u.maxPoints.Some? ==> r.maxPoints == u.maxPoints
    ensures u.maxPoints.None? ==> r.maxPoints == c.maxPoints
    ensures u.criteria.Some? ==> r.criteria == u.criteria.value
    ensures u.criteria.None? ==> r.criteria == c.criteria
  {
    RubricCategory(
      if u.name.Some? then u.name.value else c.name,
      if u.description.Some? then u.description.value else c.description,
      if u.maxPoints.Some? then u.maxPoints else c.maxPoints,
      if u.criteria.Some? then u.criteria.value else c.criteria)
  }

  /** `handleSave`'s validation loop: it refuses an empty list and stops at
      the first incomplete category. */
  method CategoriesValid(cats: seq<RubricCategory>) returns (ok: bool)
    ensures ok <==> |cats| > 0 && forall i | 0 <= i < |cats| :: Complete(cats[i])
  {
    if |cats| == 0 {
      return false;
    }
    var i := 0;
    while i < |cats|
      invariant 0 <= i <= |cats|
      invariant forall j | 0 <= j < i :: Complete(cats[j])
    {
      if !Complete(cats[i]) {
        return false;
      }
      i := i + 1;
    }
    return true;
  }

  // ---------------------------------------------------------------------
  // `parseInt(text) || 0`

  /** The digits at the front of `s`. */
  function LeadingDigits(s: string): (r: string)
    ensures |r| <= |s| && r == s[..|r|]
    ensures forall i | 0 <= i < |r| :: IsDigit(r[i])
    ensures |r| < |s| ==> !IsDigit(s[|r|])
  {
    if s != [] && IsDigit(s[0]) then [s[0]] + LeadingDigits(s[1..]) else []
  }

  /** `parseInt(text) || 0` in base ten: leading whitespace and one sign are
      skipped, the digits that follow are read, and text with no such digit
      (`NaN`) gives 0, as does `-0`. Only a leading minus makes the result
      negative. */
  function ParseIntOrZero(text: string): (r: int)
    ensures var t := TrimStart(text);
      var u := if t != [] && (t[0] == '-' || t[0] == '+') then t[1..] else t;
      (u == [] || !IsDigit(u[0])) ==> r == 0
    ensures r < 0 ==> TrimStart(text) != [] && TrimStart(text)[0] == '-'
  {
    var t := TrimStart(text);
    var negative := t != [] && t[0] == '-';
    var unsigned := if t != [] && (t[0] == '-' || t[0] == '+') then t[1..] else t;
    var digits := LeadingDigits(unsigned);
    if digits == [] then 0
    else if negative then 0 - DigitsValue(digits) as int
    else DigitsValue(digits)
  }

  /** A printed count of points reads back as itself. */
  lemma ParseIntOfNatToString(n: nat)
    ensures ParseIntOrZero(NatToString(n)) == n
  {
    var s := NatToString(n);
    assert TrimStart(s) == s by {
      assert !IsSpace(s[0]) by { assert IsDigit(s[0]); }
    }
    assert LeadingDigits(s) == s by {
      LeadingDigitsAll(s);
    }
    DigitsValueOfNatToString(n);
  }

  lemma {:induction false} LeadingDigitsAll(s: string)
    requires forall i | 0 <= i < |s| :: IsDigit(s[i])
    ensures LeadingDigits(s) == s
  {
    if s != [] {
      LeadingDigitsAll(s[1..]);
    }
  }

  // ---------------------------------------------------------------------
  // The editor

  datatype SaveStatus = Idle | Success | Failed

  class RubricEditor {
    var categories: seq<RubricCategory>
    var passingThreshold: Option<int>
    var autoGradeEnabled: bool
    var isSaving: bool
    var saveStatus: SaveStatus

    /** The state before the stored rubric is loaded. */
    constructor ()
      ensures categories == [] && passingThreshold == None && autoGradeEnabled
      ensures !isSaving && saveStatus == Idle
    {
      categories, passingThreshold, autoGradeEnabled := [], None, true;
      isSaving, saveStatus := false, Idle;
    }

    /** `hasCategories`. */
    function HasCategories(): (r: bool)
      reads this
      ensures r <==> categories != []
    {
      |categories| > 0
    }

    /** `loadRubric`: a stored rubric replaces the editor's fields; a stored
        threshold of 0 reads as none (`|| undefined`). */
    method Load(rubric: Option<GradingRubric>)
      modifies this
      ensures rubric.None? ==> (categories == old(categories) && passingThreshold == old(passingThreshold)
        && autoGradeEnabled == old(autoGradeEnabled))
      ensures rubric.Some? ==> (categories == rubric.value.categories
        && autoGradeEnabled == rubric.value.autoGradeEnabled
        && passingThreshold == (if rubric.value.passingThreshold == Some(0) then None else rubric.value.passingThreshold))
      ensures isSaving == old(isSaving) && saveStatus == old(saveStatus)
    {
      if rubric.Some? {
        categories := rubric.value.categories;
        passingThreshold := if rubric.value.passingThreshold == Some(0) then None else rubric.value.passingThreshold;
        autoGradeEnabled := rubric.value.autoGradeEnabled;
      }
    }

    /** `handleLoadTemplate`: the list becomes the standard template. */
    method LoadTemplate()
      modifies this
      ensures categories == StandardOsceRubric && TotalPoints(categories) == 50
      ensures passingThreshold == old(passingThreshold) && autoGradeEnabled == old(autoGradeEnabled)
      ensures isSaving == old(isSaving) && saveStatus == old(saveStatus)
    {
      categories := StandardOsceRubric;
      StandardOsceTotal();
    }

    /** `handleAddCategory`: one blank entry worth 10 points at the end. */
    method AddCategory()
      modifies this
      ensures categories == old(categories) + [NewCategory]
      ensures TotalPoints(categories) == TotalPoints(old(categories)) + 10
      ensures passingThreshold == old(passingThreshold) && autoGradeEnabled == old(autoGradeEnabled)
      ensures isSaving == old(isSaving) && saveStatus == old(saveStatus)
    {
      TotalPointsAppend(categories, [NewCategory]);
      TotalPointsSingle(NewCategory);
      categories := categories + [NewCategory];
    }

    /** `handleUpdateCategory`: entry `index` takes the patch; the rest of the
        list is unchanged. */
    method UpdateCategory(index: nat, u: CategoryPatch)
      requires index < |categories|
      modifies this
      ensures categories == old(categories)[index := Merged(old(categories)[index], u)]
      ensures TotalPoints(categories) == TotalPoints(old(categories)) - Points(old(categories)[index]) + Points(categories[index])
      ensures passingThreshold == old(passingThreshold) && autoGradeEnabled == old(autoGradeEnabled)
      ensures isSaving == old(isSaving) && saveStatus == old(saveStatus)
    {
      var before := categories;
      categories := categories[index := Merged(categories[index], u)];
      TotalPointsAround(before, index);
      TotalPointsAround(categories, index);
      assert categories[..index] == before[..index];
      assert categories[index + 1..] == before[index + 1..];
    }

    /** `handleRemoveCategory`. */
    method RemoveCategory(index: int)
      modifies this
      ensures categories == Removed(old(categories), index)
      ensures 0 <= index < |old(categories)| ==>
        TotalPoints(categories) == TotalPoints(old(categories)) - Points(old(categories)[index])
      ensures passingThreshold == old(passingThreshold) && autoGradeEnabled == old(autoGradeEnabled)
      ensures isSaving == old(isSaving) && saveStatus == old(saveStatus)
    {
      if 0 <= index < |categories| {
        RemovedTotal(categories, index);
      }
      categories := Removed(categories, index);
    }

    /** The threshold field: empty text clears it. */
    method SetPassingThreshold(v: Option<int>)
      modifies this
      ensures passingThreshold == v
      ensures categories == old(categories) && autoGradeEnabled == old(autoGradeEnabled)
      ensures isSaving == old(isSaving) && saveStatus == old(saveStatus)
    {
      passingThreshold := v;
    }

    /** `handleSave`. An incomplete list is refused before anything is sent
        and the state is kept. Otherwise the editor's rubric is sent with the
        total computed from the same categories; `accepted` is whether the
        upsert succeeded. The status reset after a delay is not modelled. */
    method Save(accepted: bool) returns (sent: Option<RubricData>)
      modifies this
      ensures sent.Some? <==> |categories| > 0 && forall i | 0 <= i < |categories| :: Complete(categories[i])
      ensures sent.Some? ==> (sent.value == RubricData(categories, TotalPoints(categories), passingThreshold, autoGradeEnabled)
        && !isSaving && saveStatus == (if accepted then Success else Failed))
      ensures sent.None? ==> isSaving == old(isSaving) && saveStatus == old(saveStatus)
      ensures categories == old(categories) && passingThreshold == old(passingThreshold)
      ensures autoGradeEnabled == old(autoGradeEnabled)
    {
      var ok := CategoriesValid(categories);
      if !ok {
        return None;
      }
      isSaving, saveStatus := true, Idle;
      sent := Some(RubricData(categories, TotalPoints(categories), passingThreshold, autoGradeEnabled));
      saveStatus := if accepted then Success else Failed;
      isSaving := false;
    }

    /** `handleDelete`: only a confirmed delete that the server carried out
        resets the editor. */
    method Delete(confirmed: bool, accepted: bool)
      modifies this
      ensures confirmed && accepted ==> categories == [] && passingThreshold == None && autoGradeEnabled
      ensures !(confirmed && accepted) ==> (categories == old(categories)
        && passingThreshold == old(passingThreshold) && autoGradeEnabled == old(autoGradeEnabled))
      ensures isSaving == old(isSaving) && saveStatus == old(saveStatus)
    {
      if confirmed && accepted {
        categories, passingThreshold, autoGradeEnabled := [], None, true;
      }
    }
  }
}
