/** Migration 0020: one resource per identity, where two rows without a sub id count as equal. */
module IdentityMigration {
  import opened Lists
  import opened Options

  /** What the window partitions by; NULL sub ids fall into one partition. */
  datatype Identity = Identity(
    company: nat,
    platform: string,
    resourceType: string,
    resourceId: string,
    subId: Option<string>)

  datatype ResourceRow = ResourceRow(identity: Identity, createdAt: int)

  type Rows = map<nat, ResourceRow>

  /** `resources` and the four tables with a foreign key to it, by primary key. */
  datatype Tables = Tables(
    resources: Rows,
    events: map<nat, Option<nat>>,
    runs: map<nat, nat>,
    sources: map<nat, nat>,
    permissions: map<nat, nat>)

  /** order by created_at asc, id asc. */
  predicate Earlier(rows: Rows, a: nat, b: nat)
    requires a in rows && b in rows
  {
    rows[a].createdAt < rows[b].createdAt || (rows[a].createdAt == rows[b].createdAt && a < b)
  }

  /** The rows before this one in its partition: row_number() is one more than their number. */
  function Before(rows: Rows, id: nat): set<nat>
    requires id in rows
  {
    set other | other in rows && rows[other].identity == rows[id].identity && Earlier(rows, other, id)
  }

  predicate IsFirst(rows: Rows, id: nat)
    requires id in rows
  {
    Before(rows, id) == {}
  }

  predicate IsFirstOf(rows: Rows, first: nat, id: nat)
    requires id in rows
  {
    first in rows && rows[first].identity == rows[id].identity && IsFirst(rows, first)
  }

  lemma {:induction false} FirstExists(rows: Rows, id: nat)
    requires id in rows
    ensures exists first :: IsFirstOf(rows, first, id)
    decreases |Before(rows, id)|
  {
    if other :| other in Before(rows, id) {
      assert Before(rows, other) < Before(rows, id) by {
        assert other !in Before(rows, other);
      }
      SmallerSet(Before(rows, other), Before(rows, id));
      FirstExists(rows, other);
      var first :| IsFirstOf(rows, first, other);
      assert IsFirstOf(rows, first, id);
    } else {
      assert IsFirstOf(rows, id, id);
    }
  }

  lemma SmallerSet(a: set<nat>, b: set<nat>)
    requires a < b
    ensures |a| < |b|
  {
    assert !(b <= a);
    var x :| x in b && x !in a;
    assert a <= b - {x};
    assert |b - {x}| == |b| - 1;
    SubsetSize(a, b - {x});
  }

  lemma FirstIsUnique(rows: Rows, a: nat, b: nat)
    requires a in rows && b in rows && rows[a].identity == rows[b].identity && IsFirst(rows, a) && IsFirst(rows, b)
    ensures a == b
  {
    assert a !in Before(rows, b) && b !in Before(rows, a);
  }

  /** Created first of its identity, and of those created at the same time the one with the least id. */
  predicate CreatedFirst(rows: Rows, id: nat)
    requires id in rows
  {
    forall other | other in rows && other != id && rows[other].identity == rows[id].identity ::
      || rows[id].createdAt < rows[other].createdAt
      || (rows[id].createdAt == rows[other].createdAt && id < other)
  }

  lemma FirstIsCreatedFirst(rows: Rows, id: nat)
    requires id in rows
    ensures IsFirst(rows, id) <==> CreatedFirst(rows, id)
  {
    if IsFirst(rows, id) {
      forall other | other in rows && other != id && rows[other].identity == rows[id].identity
        ensures || rows[id].createdAt < rows[other].createdAt
                || (rows[id].createdAt == rows[other].createdAt && id < other)
      {
        assert other !in Before(rows, id);
      }
    }
  }

  /** first_value(id) over the partition. */
  function FirstOf(rows: Rows, id: nat): (first: nat)
    requires id in rows
    ensures IsFirstOf(rows, first, id)
    ensures first in rows && rows[first].identity == rows[id].identity && CreatedFirst(rows, first)
  {
    assert forall a | IsFirstOf(rows, a, id) :: CreatedFirst(rows, a) by {
      forall a | IsFirstOf(rows, a, id) ensures CreatedFirst(rows, a) { FirstIsCreatedFirst(rows, a); }
    }
    FirstExists(rows, id);
    assert forall a, b | IsFirstOf(rows, a, id) && IsFirstOf(rows, b, id) :: a == b by {
      forall a, b | IsFirstOf(rows, a, id) && IsFirstOf(rows, b, id) ensures a == b { FirstIsUnique(rows, a, b); }
    }
    var first :| IsFirstOf(rows, first, id);
    first
  }

  /** duplicate_resource_ids: every row that is not the first of its partition, with the one to keep. */
  function Duplicates(rows: Rows): map<nat, nat> {
    map id | id in rows && !IsFirst(rows, id) :: FirstOf(rows, id)
  }

  // ---- integrity ----

  /** Every reference points to a row of `resources`. */
  predicate ForeignKeysHold(t: Tables) {
    && (forall e | e in t.events :: t.events[e].Some? ==> t.events[e].value in t.resources)
    && (forall r | r in t.runs :: t.runs[r] in t.resources)
    && (forall s | s in t.sources :: t.sources[s] in t.resources)
    && (forall p | p in t.permissions :: t.permissions[p] in t.resources)
  }

  predicate Referenced(t: Tables, id: nat) {
    || (exists e | e in t.events :: t.events[e] == Some(id))
    || (exists r | r in t.runs :: t.runs[r] == id)
    || (exists s | s in t.sources :: t.sources[s] == id)
    || (exists p | p in t.permissions :: t.permissions[p] == id)
  }

  predicate SameFour(a: Identity, b: Identity) {
    && a.company == b.company && a.platform == b.platform
    && a.resourceType == b.resourceType && a.resourceId == b.resourceId
  }

  /** uq_resources_identity_null_sub_id. */
  predicate UniqueWithoutSubId(rows: Rows) {
    forall a, b | a in rows && b in rows && rows[a].identity.subId.None? && rows[b].identity.subId.None? ::
      SameFour(rows[a].identity, rows[b].identity) ==> a == b
  }

  /** uq_resources_identity_with_sub_id. */
  predicate UniqueWithSubId(rows: Rows) {
    forall a, b | a in rows && b in rows && rows[a].identity.subId.Some? && rows[b].identity.subId.Some? ::
      SameFour(rows[a].identity, rows[b].identity) && rows[a].identity.subId == rows[b].identity.subId ==> a == b
  }

  function Identities(rows: Rows): set<Identity> {
    set id | id in rows :: rows[id].identity
  }

  // ---- the migration ----

  function Kept(rows: Rows, id: nat): nat {
    if id in rows then FirstOf(rows, id) else id
  }

  /** The tables after the migration, reference by reference. */
  function After(t: Tables): Tables {
    Tables(
      map id | id in t.resources && IsFirst(t.resources, id) :: t.resources[id],
      map e | e in t.events :: if t.events[e].Some? then Some(Kept(t.resources, t.events[e].value)) else None,
      map r | r in t.runs :: Kept(t.resources, t.runs[r]),
      map s | s in t.sources && t.sources[s] !in Duplicates(t.resources) :: t.sources[s],
      map p | p in t.permissions && t.permissions[p] !in Duplicates(t.resources) :: t.permissions[p])
  }

  /** update work_events … from duplicate_resource_ids. */
  function MoveEvents(events: map<nat, Option<nat>>, duplicates: map<nat, nat>): map<nat, Option<nat>> {
    map e | e in events ::
      if events[e].Some? && events[e].value in duplicates then Some(duplicates[events[e].value]) else events[e]
  }

  /** update resource_sync_runs … from duplicate_resource_ids. */
  function MoveRuns(runs: map<nat, nat>, duplicates: map<nat, nat>): map<nat, nat> {
    map r | r in runs :: if runs[r] in duplicates then duplicates[runs[r]] else runs[r]
  }

  lemma KeptIsFirst(rows: Rows, id: nat)
    requires id in rows
    ensures Kept(rows, id) in rows && rows[Kept(rows, id)].identity == rows[id].identity
    ensures IsFirst(rows, Kept(rows, id))
    ensures IsFirst(rows, id) <==> Kept(rows, id) == id
    ensures id in Duplicates(rows) <==> !IsFirst(rows, id)
    ensures id in Duplicates(rows) ==> Duplicates(rows)[id] == Kept(rows, id)
  {
    if IsFirst(rows, id) {
      FirstIsUnique(rows, id, FirstOf(rows, id));
    }
  }

  class Database {
    var resources: Rows
    var events: map<nat, Option<nat>>
    var runs: map<nat, nat>
    var sources: map<nat, nat>
    var permissions: map<nat, nat>

    ghost function Snapshot(): Tables
      reads this
    {
      Tables(resources, events, runs, sources, permissions)
    }

    /** delete from resources using duplicate_resource_ids. A row something still points to makes the
        database refuse the statement. */
    method DeleteResources(duplicates: map<nat, nat>) returns (ok: bool)
      requires duplicates.Keys <= resources.Keys
      modifies this`resources
      ensures ok <==> forall id <- duplicates :: !Referenced(old(Snapshot()), id)
      ensures resources == if ok then old(resources) - duplicates.Keys else old(resources)
    {
      ok := forall id <- duplicates ::
              && (forall e | e in events :: events[e] != Some(id))
              && (forall r | r in runs :: runs[r] != id)
              && (forall s | s in sources :: sources[s] != id)
              && (forall p | p in permissions :: permissions[p] != id);
      if ok { resources := resources - duplicates.Keys; }
    }

    /** The two updates and the two deletes that take every reference off a duplicate. */
    method MoveReferences(duplicates: map<nat, nat>)
      requires duplicates == Duplicates(resources) && ForeignKeysHold(Snapshot())
      modifies this`events, this`runs, this`sources, this`permissions
      ensures Snapshot() == After(old(Snapshot())).(resources := resources)
    {
      ghost var before := Snapshot();
      events := MoveEvents(events, duplicates);
      runs := MoveRuns(runs, duplicates);
      sources := map s | s in sources && sources[s] !in duplicates :: sources[s];
      permissions := map p | p in permissions && permissions[p] !in duplicates :: permissions[p];
      MovedIsAfter(before);
    }

    /** upgrade(): on any database whose foreign keys hold no statement fails, the two unique indexes can
        be built, and the tables end as `After` says. */
    method Upgrade() returns (ok: bool)
      requires ForeignKeysHold(Snapshot())
      modifies this
      ensures ok
      ensures Snapshot() == After(old(Snapshot()))
    {
      ghost var before := Snapshot();
      var duplicates := Duplicates(resources);
      MoveReferences(duplicates);
      NoDanglingReference(before, Snapshot());
      ok := DeleteResources(duplicates);
      SurvivorsAreFirst(before.resources);
      IdentitiesAreUnique(before);
      ok := ok && UniqueWithoutSubId(resources) && UniqueWithSubId(resources);
    }
  }

  lemma SurvivorsAreFirst(rows: Rows)
    ensures rows - Duplicates(rows).Keys == map id | id in rows && IsFirst(rows, id) :: rows[id]
  {
    forall id | id in rows ensures id in Duplicates(rows) <==> !IsFirst(rows, id) { KeptIsFirst(rows, id); }
  }

  /** Once the references are moved, nothing points to a row about to be deleted. */
  lemma {:induction false} NoDanglingReference(before: Tables, t: Tables)
    requires ForeignKeysHold(before) && t == After(before).(resources := before.resources)
    ensures forall id <- Duplicates(before.resources) :: !Referenced(t, id)
  {
    forall id | id in Duplicates(before.resources) ensures !Referenced(t, id) {
      forall e | e in t.events ensures t.events[e] != Some(id) {
        if before.events[e].Some? { KeptIsFirst(before.resources, before.events[e].value); }
      }
      forall r | r in t.runs ensures t.runs[r] != id { KeptIsFirst(before.resources, before.runs[r]); }
    }
  }

  /** The joins of the two updates do what `After` says. */
  lemma MovedIsAfter(t: Tables)
    requires ForeignKeysHold(t)
    ensures MoveEvents(t.events, Duplicates(t.resources)) == After(t).events
    ensures MoveRuns(t.runs, Duplicates(t.resources)) == After(t).runs
  {
    var duplicates, after := Duplicates(t.resources), After(t);
    forall e | e in t.events ensures MoveEvents(t.events, duplicates)[e] == after.events[e] {
      if t.events[e].Some? { KeptIsFirst(t.resources, t.events[e].value); }
    }
    forall r | r in t.runs ensures MoveRuns(t.runs, duplicates)[r] == after.runs[r] {
      KeptIsFirst(t.resources, t.runs[r]);
    }
  }

  // ---- what it achieves ----

  /** Afterwards an identity, with NULL sub ids equal, has one row; both unique indexes can be built. */
  lemma IdentitiesAreUnique(t: Tables)
    ensures forall a, b | a in After(t).resources && b in After(t).resources &&
                          After(t).resources[a].identity == After(t).resources[b].identity :: a == b
    ensures UniqueWithoutSubId(After(t).resources) && UniqueWithSubId(After(t).resources)
  {
    forall a, b | a in After(t).resources && b in After(t).resources &&
                  After(t).resources[a].identity == After(t).resources[b].identity
      ensures a == b
    {
      FirstIsUnique(t.resources, a, b);
    }
  }

  /** No identity is lost, and what survives of it, unchanged, is exactly the row created first, or the one
      with the least id of those created at the same time. */
  lemma EarliestSurvives(t: Tables)
    ensures forall id | id in t.resources :: id in After(t).resources <==> CreatedFirst(t.resources, id)
    ensures Identities(After(t).resources) == Identities(t.resources)
    ensures forall id | id in After(t).resources :: id in t.resources && After(t).resources[id] == t.resources[id]
  {
    forall id | id in t.resources ensures t.resources[id].identity in Identities(After(t).resources) {
      KeptIsFirst(t.resources, id);
      assert Kept(t.resources, id) in After(t).resources;
    }
    forall id | id in t.resources ensures id in After(t).resources <==> CreatedFirst(t.resources, id) {
      FirstIsCreatedFirst(t.resources, id);
    }
    hide CreatedFirst, IsFirst;
  }

  /** Every event and every run is still there and points to a surviving row of the identity it pointed
      to before; references to a survivor do not move; the foreign keys hold. */
  lemma ReferencesFollowIdentity(t: Tables)
    requires ForeignKeysHold(t)
    ensures ForeignKeysHold(After(t))
    ensures After(t).events.Keys == t.events.Keys && After(t).runs.Keys == t.runs.Keys
    ensures forall e | e in t.events ::
              && (t.events[e].None? <==> After(t).events[e].None?)
              && (t.events[e].Some? ==>
                    && After(t).resources[After(t).events[e].value].identity == t.resources[t.events[e].value].identity
                    && (IsFirst(t.resources, t.events[e].value) ==> After(t).events[e] == t.events[e]))
    ensures forall r | r in t.runs ::
              && After(t).resources[After(t).runs[r]].identity == t.resources[t.runs[r]].identity
              && (IsFirst(t.resources, t.runs[r]) ==> After(t).runs[r] == t.runs[r])
  {
    forall e | e in t.events && t.events[e].Some? ensures After(t).events[e].value in After(t).resources {
      KeptIsFirst(t.resources, t.events[e].value);
    }
    forall e | e in t.events && t.events[e].Some?
      ensures After(t).resources[After(t).events[e].value].identity == t.resources[t.events[e].value].identity
      ensures IsFirst(t.resources, t.events[e].value) ==> After(t).events[e] == t.events[e]
    {
      KeptIsFirst(t.resources, t.events[e].value);
    }
    forall r | r in t.runs
      ensures After(t).runs[r] in After(t).resources
      ensures After(t).resources[After(t).runs[r]].identity == t.resources[t.runs[r]].identity
      ensures IsFirst(t.resources, t.runs[r]) ==> After(t).runs[r] == t.runs[r]
    {
      KeptIsFirst(t.resources, t.runs[r]);
    }
    forall s | s in After(t).sources ensures After(t).sources[s] in After(t).resources {
      KeptIsFirst(t.resources, t.sources[s]);
    }
    forall p | p in After(t).permissions ensures After(t).permissions[p] in After(t).resources {
      KeptIsFirst(t.resources, t.permissions[p]);
    }
  }

  /** A source or a permission survives, unchanged, exactly when the row it points to does: what only a
      duplicate had is dropped, not moved. */
  lemma {:induction false} GrantsOfDuplicatesAreDropped(t: Tables)
    requires ForeignKeysHold(t)
    ensures forall s | s in t.sources :: s in After(t).sources <==> t.sources[s] in After(t).resources
    ensures forall p | p in t.permissions :: p in After(t).permissions <==> t.permissions[p] in After(t).resources
    ensures After(t).sources.Items <= t.sources.Items && After(t).permissions.Items <= t.permissions.Items
  {
    forall s | s in t.sources ensures s in After(t).sources <==> t.sources[s] in After(t).resources {
      KeptIsFirst(t.resources, t.sources[s]);
    }
    forall p | p in t.permissions ensures p in After(t).permissions <==> t.permissions[p] in After(t).resources {
      KeptIsFirst(t.resources, t.permissions[p]);
    }
  }

  /** A row alone in its partition is its own keeper. */
  lemma SurvivorsKeepThemselves(t: Tables)
    ensures forall id | id in After(t).resources :: IsFirst(After(t).resources, id)
    ensures forall id | id in After(t).resources :: Kept(After(t).resources, id) == id
    ensures Duplicates(After(t).resources) == map[]
  {
    var rows := After(t).resources;
    IdentitiesAreUnique(t);
    forall id | id in rows ensures IsFirst(rows, id) && Kept(rows, id) == id {
      assert Before(rows, id) == {};
      KeptIsFirst(rows, id);
    }
  }

  lemma NothingToMerge(u: Tables)
    requires forall id | id in u.resources :: IsFirst(u.resources, id)
    requires forall id | id in u.resources :: Kept(u.resources, id) == id
    requires Duplicates(u.resources) == map[]
    ensures After(u) == u
  {
    var v := After(u);
    assert v.resources == u.resources;
    assert v.events == u.events;
    assert v.runs == u.runs;
    assert v.sources == u.sources;
    assert v.permissions == u.permissions;
  }

  /** A second application changes nothing. */
  lemma SecondRunChangesNothing(t: Tables)
    ensures After(After(t)) == After(t)
  {
    SurvivorsKeepThemselves(t);
    NothingToMerge(After(t));
  }
}
