/** The one-off slug migration (scripts/migrate-slugs.ts): every persona that
    still has an empty or temporary slug is given one derived from its name,
    one persona at a time. */
module MigrateSlugs {
  import opened Slugs
  import opened Store

  /** The personas the migration selects: an empty slug or one starting with
      `temp-`. */
  predicate NeedsSlug(slug: string) {
    slug == "" || (|slug| >= 5 && slug[..5] == "temp-")
  }

  /** The slugs in use while the migration is at position `i` of `batch`: the
      personas it has already handled carry their new slug (`now`), all
      others still their original one (`before`). */
  ghost function SlugsMidway(before: map<string, Persona>, now: map<string, Persona>,
                             batch: seq<string>, i: nat): set<string>
    requires before.Keys == now.Keys && i <= |batch|
  {
    set id | id in before :: if id in batch[..i] then now[id].slug else before[id].slug
  }

  /** Replacing one persona's slug by a slug not in use keeps the personas
      valid. */
  lemma ReslugValid(actors: map<string, Persona>, id: string, s: string)
    requires ActorsValid(actors) && id in actors && s !in SlugsOf(actors)
    ensures ActorsValid(actors[id := actors[id].(slug := s)])
  {
    var a := actors[id := actors[id].(slug := s)];
    forall x, y | x in a && y in a && a[x].slug == a[y].slug ensures x == y {
      if x != y && (x == id || y == id) {
        assert false;
      }
    }
  }

  /** Only slugs changed, and only those of the personas in `batch[..i]`. */
  ghost predicate SlugsOnlyChanged(start: map<string, Persona>, actors: map<string, Persona>,
                                   batch: seq<string>, i: nat)
  {
    i <= |batch| && actors.Keys == start.Keys
    && (forall id | id in actors :: actors[id] == start[id].(slug := actors[id].slug))
    && (forall id | id in actors && id !in batch[..i] :: actors[id] == start[id])
  }

  /** `taken[j]` is the set of slugs in use at the turn of `batch[j]`. */
  ghost predicate Snapshots(start: map<string, Persona>, actors: map<string, Persona>,
                            batch: seq<string>, taken: seq<set<string>>)
  {
    |taken| <= |batch| && start.Keys == actors.Keys
    && forall j | 0 <= j < |taken| :: taken[j] == SlugsMidway(start, actors, batch, j)
  }

  /** Each handled persona carries the first free candidate derived from its
      base (`bases`, the slug of its name) among the slugs in use at its
      turn. */
  ghost predicate Picks(bases: map<string, string>, actors: map<string, Persona>,
                        batch: seq<string>, taken: seq<set<string>>)
  {
    |taken| <= |batch|
    && forall j | 0 <= j < |taken| :: batch[j] in bases && batch[j] in actors
         && FirstFree(taken[j], bases[batch[j]], actors[batch[j]].slug)
  }

  /** Where the migration stands after handling `batch[..i]`. */
  ghost predicate Progress(start: map<string, Persona>, bases: map<string, string>,
                           actors: map<string, Persona>, batch: seq<string>, i: nat,
                           taken: seq<set<string>>)
  {
    |taken| == i && SlugsOnlyChanged(start, actors, batch, i)
    && Snapshots(start, actors, batch, taken) && Picks(bases, actors, batch, taken)
  }

  lemma SlugsOnlyChangedStep(start: map<string, Persona>, actors: map<string, Persona>,
                             batch: seq<string>, i: nat, s: string)
    requires SlugsOnlyChanged(start, actors, batch, i) && i < |batch| && batch[i] in actors
    ensures SlugsOnlyChanged(start, actors[batch[i] := actors[batch[i]].(slug := s)], batch, i + 1)
  {
    assert batch[..i + 1] == batch[..i] + [batch[i]];
  }

  lemma SnapshotsStep(start: map<string, Persona>, actors: map<string, Persona>,
                      batch: seq<string>, taken: seq<set<string>>, s: string)
    requires SlugsOnlyChanged(start, actors, batch, |taken|) && Snapshots(start, actors, batch, taken)
    requires |taken| < |batch| && batch[|taken|] in actors
    requires forall j, k | 0 <= j < k < |batch| :: batch[j] != batch[k]
    ensures Snapshots(start, actors[batch[|taken|] := actors[batch[|taken|]].(slug := s)], batch,
                      taken + [SlugsOf(actors)])
  {
    var i := |taken|;
    var now := actors[batch[i] := actors[batch[i]].(slug := s)];
    MidwayNow(start, actors, batch, i);
    MidwayStable(start, actors, now, batch, i);
  }

  lemma PicksStep(bases: map<string, string>, actors: map<string, Persona>,
                  batch: seq<string>, taken: seq<set<string>>, s: string)
    requires Picks(bases, actors, batch, taken)
    requires |taken| < |batch| && batch[|taken|] in actors && batch[|taken|] in bases
    requires forall j, k | 0 <= j < k < |batch| :: batch[j] != batch[k]
    requires FirstFree(SlugsOf(actors), bases[batch[|taken|]], s)
    ensures Picks(bases, actors[batch[|taken|] := actors[batch[|taken|]].(slug := s)], batch,
                  taken + [SlugsOf(actors)])
  {
    var i := |taken|;
    var now := actors[batch[i] := actors[batch[i]].(slug := s)];
    var taken' := taken + [SlugsOf(actors)];
    forall j | 0 <= j < |taken'|
      ensures batch[j] in bases && batch[j] in now
        && FirstFree(taken'[j], bases[batch[j]], now[batch[j]].slug)
    {
      if j < i {
        assert batch[j] != batch[i];
        assert now[batch[j]] == actors[batch[j]] && taken'[j] == taken[j];
      } else {
        assert now[batch[j]].slug == s && taken'[j] == SlugsOf(actors);
      }
    }
  }

  /** The migration's main loop over the selected personas, in the order the
      store returns them. Only their slugs change; each gets the first free
      candidate derived from its name among the slugs in use at its turn
      (`taken[i]`, the original persona's own placeholder slug included),
      so slugs stay unique. */
  method Migrate(db: Db, batch: seq<string>) returns (ghost taken: seq<set<string>>)
    requires db.Valid()
    requires forall i, j | 0 <= i < j < |batch| :: batch[i] != batch[j]
    requires forall id :: id in batch <==> id in db.actors && NeedsSlug(db.actors[id].slug)
    modifies db
    ensures db.Valid()
    ensures SlugsOnlyChanged(old(db.actors), db.actors, batch, |batch|)
    ensures |taken| == |batch| && Snapshots(old(db.actors), db.actors, batch, taken)
    ensures forall i | 0 <= i < |batch| ::
              batch[i] in old(db.actors) && batch[i] in db.actors
              && FirstFree(taken[i], CreateSlug(old(db.actors)[batch[i]].name), db.actors[batch[i]].slug)
    ensures db.users == old(db.users) && db.sessions == old(db.sessions)
    ensures db.submissions == old(db.submissions) && db.rubrics == old(db.rubrics)
  {
    ghost var start := db.actors;
    ghost var bases := map id | id in start :: CreateSlug(start[id].name);
    taken := [];
    var i := 0;
    while i < |batch|
      invariant db.Valid() && Progress(start, bases, db.actors, batch, i, taken)
      invariant db.users == old(db.users) && db.sessions == old(db.sessions)
      invariant db.submissions == old(db.submissions) && db.rubrics == old(db.rubrics)
    {
      assert batch[i] in batch && batch[i] in bases;
      assert db.actors[batch[i]].name == start[batch[i]].name;
      taken := AssignSlug(db, batch, i, start, bases, taken, CreateSlug(db.actors[batch[i]].name));
      i := i + 1;
    }
    PicksNamed(start, bases, db.actors, batch, taken);
  }

  /** With `bases` the slugs of the original names, `Picks` says each handled
      persona got the first free candidate derived from its name. */
  lemma PicksNamed(start: map<string, Persona>, bases: map<string, string>, actors: map<string, Persona>,
                   batch: seq<string>, taken: seq<set<string>>)
    requires bases == map id | id in start :: CreateSlug(start[id].name)
    requires Picks(bases, actors, batch, taken)
    ensures forall i | 0 <= i < |taken| ::
              batch[i] in start && batch[i] in actors
              && FirstFree(taken[i], CreateSlug(start[batch[i]].name), actors[batch[i]].slug)
  {
  }

  /** One turn of the loop on the personas themselves: giving `batch[i]` the
      first free candidate derived from its base moves the migration one
      step on and keeps slugs unique. */
  lemma AssignStep(start: map<string, Persona>, bases: map<string, string>, actors: map<string, Persona>,
                   batch: seq<string>, i: nat, taken: seq<set<string>>, s: string)
    requires ActorsValid(actors) && Progress(start, bases, actors, batch, i, taken) && i < |batch|
    requires forall j, k | 0 <= j < k < |batch| :: batch[j] != batch[k]
    requires batch[i] in actors && batch[i] in bases
    requires FirstFree(SlugsOf(actors), bases[batch[i]], s)
    ensures var now := actors[batch[i] := actors[batch[i]].(slug := s)];
      ActorsValid(now) && Progress(start, bases, now, batch, i + 1, taken + [SlugsOf(actors)])
  {
    SlugsOnlyChangedStep(start, actors, batch, i, s);
    SnapshotsStep(start, actors, batch, taken, s);
    PicksStep(bases, actors, batch, taken, s);
    ReslugValid(actors, batch[i], s);
  }

  /** One turn of the loop: `batch[i]` gets the first free candidate derived
      from `base`, the slug of its name, among the slugs in use now. */
  method AssignSlug(db: Db, batch: seq<string>, i: nat, ghost start: map<string, Persona>,
                    ghost bases: map<string, string>, ghost taken: seq<set<string>>, base: string)
    returns (ghost taken': seq<set<string>>)
    requires db.Valid() && Progress(start, bases, db.actors, batch, i, taken) && i < |batch|
    requires forall j, k | 0 <= j < k < |batch| :: batch[j] != batch[k]
    requires batch[i] in start && batch[i] in bases && bases[batch[i]] == base
    modifies db
    ensures db.Valid() && Progress(start, bases, db.actors, batch, i + 1, taken')
    ensures db.users == old(db.users) && db.sessions == old(db.sessions)
    ensures db.submissions == old(db.submissions) && db.rubrics == old(db.rubrics)
  {
    var id := batch[i];
    var p := db.actors[id];
    var s, _ := FirstFreeSlug(db.Slugs(), base);
    AssignStep(start, bases, db.actors, batch, i, taken, s);
    taken' := taken + [db.Slugs()];
    db.actors := db.actors[id := p.(slug := s)];
  }

  /** At position `i`, the personas already handled carry their current slug
      and the rest their original one, so `SlugsMidway` is the set in use. */
  lemma MidwayNow(start: map<string, Persona>, now: map<string, Persona>, batch: seq<string>, i: nat)
    requires start.Keys == now.Keys && i < |batch|
    requires forall id | id in now && id !in batch[..i] :: now[id] == start[id]
    ensures SlugsOf(now) == SlugsMidway(start, now, batch, i)
  {
  }

  /** Handling `batch[i]` changes no slug that an earlier `SlugsMidway` read
      from the current store. */
  lemma MidwayStable(start: map<string, Persona>, prev: map<string, Persona>, now: map<string, Persona>,
                     batch: seq<string>, i: nat)
    requires start.Keys == prev.Keys == now.Keys && i < |batch|
    requires forall j, k | 0 <= j < k < |batch| :: batch[j] != batch[k]
    requires forall id | id in now && id != batch[i] :: now[id] == prev[id]
    ensures forall j | 0 <= j <= i :: SlugsMidway(start, prev, batch, j) == SlugsMidway(start, now, batch, j)
  {
    forall j | 0 <= j <= i ensures SlugsMidway(start, prev, batch, j) == SlugsMidway(start, now, batch, j) {
      assert batch[i] !in batch[..j];
    }
  }
}
