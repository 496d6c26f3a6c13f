/** Retention of soft-deleted machines and services: their telemetry goes in small batches over
    many runs, page by page of their agents (or checks), before their own row may go.

    Machines and services differ in their tables only; `Statement` lists those.  No other writer
    touches a deleted resource. */
module SoftDelete {
  import opened Options
  import opened Sql

  const RESOURCE_BATCH: nat := 10
  const RELATED_RESOURCE_BATCH: nat := 50
  const ROW_BATCH: nat := 200

  /** A resource, or an agent or check of one; 0 is the cursor before the first. */
  type Pk = nat
  type SecretId = nat

  datatype Row = Row(table: nat, owner: Pk, key: int)

  /** One DELETE of a purge: the rows of the resource itself or those of a page of related ones,
      two hundred at most if `batched`. */
  datatype Statement = Statement(table: nat, related: bool, batched: bool)

  /** Blocks, five-minute and hourly rollups, state events, status buckets, latest, replay rows of
      agents. */
  const MACHINE: seq<Statement> := [
    Statement(0, false, true), Statement(1, false, true), Statement(2, false, true),
    Statement(3, false, true), Statement(4, false, true), Statement(5, false, false), Statement(6, true, true)]

  /** Result blocks, five-minute and hourly rollups and latest of checks; state events, status
      buckets and latest of the service. */
  const SERVICE: seq<Statement> := [
    Statement(0, true, true), Statement(1, true, true), Statement(2, true, true), Statement(3, true, false),
    Statement(4, false, true), Statement(5, false, true), Statement(6, false, false)]

  datatype Resource = Resource(deletedAt: Option<nat>, purging: bool, cursor: Pk)

  /** An agent, or a check with the secrets it refers to. */
  datatype Related = Related(resource: Pk, secrets: set<SecretId>)

  datatype Store = Store(
    telemetry: set<Row>,
    resources: map<Pk, Resource>,
    related: map<Pk, Related>,
    secrets: set<SecretId>)

  /** What a workspace's policy says: its own deletion, whether its purge was claimed, and the end
      of the grace period. */
  datatype Policy = Policy(workspaceDeletedAt: Option<nat>, workspacePurging: bool, cutoff: nat)

  predicate Eligible(policy: Policy, resource: Resource) {
    match resource.deletedAt
    case Some(t) => t <= policy.cutoff
    case None => policy.workspaceDeletedAt.Some? && policy.workspaceDeletedAt.value <= policy.cutoff
  }

  /** A workspace past its grace period is claimed before its resources are looked at. */
  predicate Claimed(policy: Policy) {
    policy.workspaceDeletedAt.Some? && policy.workspaceDeletedAt.value <= policy.cutoff ==> policy.workspacePurging
  }

  function EligibleIn(db: Store, policy: Policy): set<Pk> {
    set r | r in db.resources && Eligible(policy, db.resources[r])
  }

  predicate Selects(s: Statement, row: Row, r: Pk, page: set<Pk>) {
    row.table == s.table && (if s.related then row.owner in page else row.owner == r)
  }

  function Selected(rows: set<Row>, s: Statement, r: Pk, page: set<Pk>): set<Row> {
    set row | row in rows && Selects(s, row, r, page)
  }

  /** Rows of the resource or of one of the listed related ones are left. */
  predicate Remains(rows: set<Row>, statements: seq<Statement>, r: Pk, page: set<Pk>) {
    exists i | 0 <= i < |statements| :: Selected(rows, statements[i], r, page) != {}
  }

  function RowRank(rows: set<Row>): map<Row, Rank> {
    map row | row in rows :: (row.owner, row.key)
  }

  function RelatedOf(db: Store, r: Pk): set<Pk> {
    set a | a in db.related && db.related[a].resource == r
  }

  function After(db: Store, r: Pk, cursor: Pk): set<Pk> {
    set a | a in db.related && db.related[a].resource == r && a > cursor
  }

  function PkRank(all: set<Pk>): map<Pk, Rank> {
    map a | a in all :: (a, 0)
  }

  // ---- what is kept -------------------------------------------------------------------------

  /** Everything a related resource at or below the cursor had is gone already. */
  ghost predicate Purged(db: Store, statements: seq<Statement>, a: Pk)
    requires a in db.related
  {
    && (forall row, i | row in db.telemetry && 0 <= i < |statements| && statements[i].related && row.table == statements[i].table
          :: row.owner != a)
    && db.related[a].secrets !! db.secrets
  }

  ghost predicate Inv(db: Store, statements: seq<Statement>) {
    && (forall a | a in db.related :: a > 0 && db.related[a].resource in db.resources)
    && (forall r | r in db.resources :: db.resources[r].cursor == 0 || db.resources[r].cursor in RelatedOf(db, r))
    && (forall a | a in db.related && a <= db.resources[db.related[a].resource].cursor :: Purged(db, statements, a))
  }

  /** Nothing of the resource is left: no row of its own, none of its agents or checks, no secret
      of theirs. */
  ghost predicate NothingLeft(db: Store, statements: seq<Statement>, r: Pk) {
    && !Remains(db.telemetry, statements, r, RelatedOf(db, r))
    && forall a | a in RelatedOf(db, r) :: db.related[a].secrets !! db.secrets
  }

  // ---- progress -----------------------------------------------------------------------------

  /** What is still to do: the eligible resources, their related ones beyond the cursors, and all
      rows. */
  datatype Work = Work(resources: set<Pk>, related: set<Pk>, rows: set<Row>)

  function WorkLeft(db: Store, policy: Policy): Work {
    Work(EligibleIn(db, policy),
         (set a | a in db.related && db.related[a].resource in EligibleIn(db, policy)
                  && a > db.resources[db.related[a].resource].cursor),
         db.telemetry)
  }

  /** Strictly less, in lexicographic order of inclusion. */
  ghost predicate Less(w: Work, w': Work) {
    || w.resources < w'.resources
    || (w.resources == w'.resources
        && (w.related < w'.related || (w.related == w'.related && w.rows < w'.rows)))
  }

  lemma LessIsTransitive(a: Work, b: Work, c: Work)
    requires Less(a, b) && Less(b, c)
    ensures Less(a, c)
  {
  }

  // ---- what runs do together ----------------------------------------------------------------

  /** A row of the resource, or of one of its agents or checks. */
  ghost predicate Belongs(db: Store, statements: seq<Statement>, row: Row, r: Pk) {
    exists i | 0 <= i < |statements| :: Selects(statements[i], row, r, RelatedOf(db, r))
  }

  ghost predicate BelongsToEligible(db: Store, statements: seq<Statement>, policy: Policy, row: Row) {
    exists r | r in EligibleIn(db, policy) :: Belongs(db, statements, row, r)
  }

  /** A secret that an agent or check of the resource refers to. */
  ghost predicate RefersTo(db: Store, r: Pk, s: SecretId) {
    exists a | a in db.related && db.related[a].resource == r :: s in db.related[a].secrets
  }

  ghost predicate EligibleRefersTo(db: Store, policy: Policy, s: SecretId) {
    exists r | r in EligibleIn(db, policy) :: RefersTo(db, r, s)
  }

  ghost predicate Untouched(db: Store, db': Store, r: Pk) {
    r in db.resources && r in db'.resources && db'.resources[r] == db.resources[r]
  }

  /** Rows and secrets go only if they belong to an eligible resource, every other resource is
      untouched, and whichever resource went had nothing left. */
  ghost predicate Finalizes(db: Store, db': Store, statements: seq<Statement>, policy: Policy) {
    && db'.telemetry <= db.telemetry && db'.secrets <= db.secrets && db'.resources.Keys <= db.resources.Keys
    && (forall row | row in db.telemetry && row !in db'.telemetry :: BelongsToEligible(db, statements, policy, row))
    && (forall s | s in db.secrets && s !in db'.secrets :: EligibleRefersTo(db, policy, s))
    && (forall a | a in db'.related :: a in db.related && db'.related[a] == db.related[a])
    && (forall a | a in db.related && db.related[a].resource in db'.resources :: a in db'.related)
    && (forall r | r in db.resources && !Eligible(policy, db.resources[r]) :: Untouched(db, db', r))
    && (forall r | r in db'.resources :: db'.resources[r].deletedAt == db.resources[r].deletedAt)
    && (forall r | r in db.resources && r !in db'.resources ::
          NothingLeft(db.(telemetry := db'.telemetry, secrets := db'.secrets), statements, r))
  }

  lemma FinalizesNothing(db: Store, statements: seq<Statement>, policy: Policy)
    ensures Finalizes(db, db, statements, policy)
  {
  }

  lemma LaterNothingLeft(db: Store, db1: Store, db2: Store, statements: seq<Statement>, r: Pk)
    requires db2.telemetry <= db1.telemetry && db2.secrets <= db1.secrets
    requires NothingLeft(db.(telemetry := db1.telemetry, secrets := db1.secrets), statements, r)
    ensures NothingLeft(db.(telemetry := db2.telemetry, secrets := db2.secrets), statements, r)
  {
    var one := db.(telemetry := db1.telemetry, secrets := db1.secrets);
    var two := db.(telemetry := db2.telemetry, secrets := db2.secrets);
    assert RelatedOf(one, r) == RelatedOf(two, r);
    forall i | 0 <= i < |statements| ensures Selected(db2.telemetry, statements[i], r, RelatedOf(two, r)) == {} {
      assert Selected(db1.telemetry, statements[i], r, RelatedOf(one, r)) == {};
      assert forall row | row in db1.telemetry :: row !in Selected(db1.telemetry, statements[i], r, RelatedOf(one, r));
    }
  }

  lemma SameNothingLeft(db: Store, db': Store, statements: seq<Statement>, r: Pk)
    requires db'.telemetry == db.telemetry && db'.secrets == db.secrets && RelatedOf(db', r) == RelatedOf(db, r)
    requires forall a | a in RelatedOf(db, r) :: db'.related[a] == db.related[a]
    requires NothingLeft(db', statements, r)
    ensures NothingLeft(db, statements, r)
  {
    hide Remains;
  }

  lemma BelongsBefore(db: Store, db1: Store, statements: seq<Statement>, policy: Policy, row: Row)
    requires forall a | a in db1.related :: a in db.related && db1.related[a] == db.related[a]
    requires EligibleIn(db1, policy) <= EligibleIn(db, policy)
    requires BelongsToEligible(db1, statements, policy, row)
    ensures BelongsToEligible(db, statements, policy, row)
  {
    hide Eligible, EligibleIn;
    var r :| r in EligibleIn(db1, policy) && Belongs(db1, statements, row, r);
    var i :| 0 <= i < |statements| && Selects(statements[i], row, r, RelatedOf(db1, r));
    assert RelatedOf(db1, r) <= RelatedOf(db, r);
    assert Selects(statements[i], row, r, RelatedOf(db, r));
    assert Belongs(db, statements, row, r);
  }

  lemma RefersBefore(db: Store, db1: Store, policy: Policy, s: SecretId)
    requires forall a | a in db1.related :: a in db.related && db1.related[a] == db.related[a]
    requires EligibleIn(db1, policy) <= EligibleIn(db, policy)
    requires EligibleRefersTo(db1, policy, s)
    ensures EligibleRefersTo(db, policy, s)
  {
    hide Eligible, EligibleIn;
    var r :| r in EligibleIn(db1, policy) && RefersTo(db1, r, s);
    assert RefersTo(db, r, s);
  }

  lemma FinalizesOn(db: Store, db1: Store, db2: Store, statements: seq<Statement>, policy: Policy)
    requires Finalizes(db, db1, statements, policy) && Finalizes(db1, db2, statements, policy)
    ensures Finalizes(db, db2, statements, policy)
  {
    hide NothingLeft, BelongsToEligible, EligibleRefersTo;
    assert EligibleIn(db1, policy) <= EligibleIn(db, policy);
    forall row | row in db.telemetry && row !in db2.telemetry ensures BelongsToEligible(db, statements, policy, row) {
      if row in db1.telemetry { BelongsBefore(db, db1, statements, policy, row); }
    }
    forall s | s in db.secrets && s !in db2.secrets ensures EligibleRefersTo(db, policy, s) {
      if s in db1.secrets { RefersBefore(db, db1, policy, s); }
    }
    forall r | r in db.resources && r !in db2.resources
      ensures NothingLeft(db.(telemetry := db2.telemetry, secrets := db2.secrets), statements, r)
    {
      if r !in db1.resources {
        LaterNothingLeft(db, db1, db2, statements, r);
      } else {
        assert RelatedOf(db1, r) == RelatedOf(db, r);
        SameNothingLeft(db.(telemetry := db2.telemetry, secrets := db2.secrets),
                        db1.(telemetry := db2.telemetry, secrets := db2.secrets), statements, r);
      }
    }
  }

  /** No two checks share a secret: its identifier is drawn for the check. */
  ghost predicate SecretsApart(db: Store) {
    forall a, b | a in db.related && b in db.related && a != b :: db.related[a].secrets !! db.related[b].secrets
  }

  /** What is not eligible keeps its checks, and every check its secrets. */
  lemma OthersKeepSecrets(db: Store, db': Store, statements: seq<Statement>, policy: Policy, a: Pk)
    requires Finalizes(db, db', statements, policy) && SecretsApart(db)
    requires a in db.related && db.related[a].resource in db.resources
    requires !Eligible(policy, db.resources[db.related[a].resource])
    ensures a in db'.related && db'.related[a] == db.related[a]
    ensures db.related[a].secrets * db'.secrets == db.related[a].secrets * db.secrets
    ensures SecretsApart(db')
  {
    hide NothingLeft, BelongsToEligible;
    var r := db.related[a].resource;
    assert Untouched(db, db', r);
    forall s | s in db.related[a].secrets && s in db.secrets ensures s in db'.secrets {
      SecretNamesOwner(db, policy, a, s);
    }
  }

  lemma SecretNamesOwner(db: Store, policy: Policy, a: Pk, s: SecretId)
    requires SecretsApart(db) && a in db.related && s in db.related[a].secrets
    ensures EligibleRefersTo(db, policy, s) ==> db.related[a].resource in EligibleIn(db, policy)
  {
    hide Eligible;
    if EligibleRefersTo(db, policy, s) {
      var r, b :| r in EligibleIn(db, policy) && b in db.related && db.related[b].resource == r && s in db.related[b].secrets;
      assert a == b;
    }
  }

  // ---- the grace period ---------------------------------------------------------------------

  /** When the resource was deleted: itself, or else with its workspace. */
  function DeletedAt(policy: Policy, resource: Resource): Option<nat> {
    if resource.deletedAt.Some? then resource.deletedAt else policy.workspaceDeletedAt
  }

  /** Not deleted at all, or after the cutoff. */
  predicate InGrace(policy: Policy, resource: Resource) {
    match DeletedAt(policy, resource)
    case None => true
    case Some(t) => t > policy.cutoff
  }

  lemma EligibleIff(policy: Policy, resource: Resource)
    ensures Eligible(policy, resource) <==> !InGrace(policy, resource)
  {
  }

  /** Every table is purged in one way only. */
  ghost predicate TablesApart(statements: seq<Statement>) {
    forall i, j | 0 <= i < j < |statements| :: statements[i].table != statements[j].table
  }

  lemma ListsAreApart()
    ensures TablesApart(MACHINE) && TablesApart(SERVICE)
  {
  }

  /** A row belongs to one resource. */
  lemma BelongsToOne(db: Store, statements: seq<Statement>, row: Row, r: Pk, other: Pk)
    requires TablesApart(statements) && Belongs(db, statements, row, r) && Belongs(db, statements, row, other)
    ensures r == other
  {
    var i :| 0 <= i < |statements| && Selects(statements[i], row, r, RelatedOf(db, r));
    var j :| 0 <= j < |statements| && Selects(statements[j], row, other, RelatedOf(db, other));
    assert i == j;
  }

  /** A resource within its grace period keeps its row, its rows and all its agents or checks. */
  lemma GraceIsKept(db: Store, db': Store, statements: seq<Statement>, policy: Policy, r: Pk)
    requires Finalizes(db, db', statements, policy) && TablesApart(statements)
    requires r in db.resources && InGrace(policy, db.resources[r])
    ensures r in db'.resources && db'.resources[r] == db.resources[r]
    ensures forall row | row in db.telemetry && Belongs(db, statements, row, r) :: row in db'.telemetry
    ensures forall a | a in db.related && db.related[a].resource == r :: a in db'.related && db'.related[a] == db.related[a]
  {
    hide NothingLeft, Belongs, EligibleRefersTo, TablesApart;
    EligibleIff(policy, db.resources[r]);
    assert Untouched(db, db', r);
    forall row | row in db.telemetry && Belongs(db, statements, row, r) ensures row in db'.telemetry {
      if row !in db'.telemetry { EligibleOwns(db, statements, policy, row, r); }
    }
  }

  lemma EligibleOwns(db: Store, statements: seq<Statement>, policy: Policy, row: Row, r: Pk)
    requires TablesApart(statements) && Belongs(db, statements, row, r) && BelongsToEligible(db, statements, policy, row)
    ensures r in EligibleIn(db, policy)
  {
    hide Belongs, TablesApart, Eligible;
    var other :| other in EligibleIn(db, policy) && Belongs(db, statements, row, other);
    BelongsToOne(db, statements, row, r, other);
  }

  // ---- statements on the control database ---------------------------------------------------

  function MarkPurging(db: Store, r: Pk): Store
    requires r in db.resources
  {
    db.(resources := db.resources[r := db.resources[r].(purging := true)])
  }

  function AdvanceCursor(db: Store, r: Pk, next: Pk): Store
    requires r in db.resources
  {
    db.(resources := db.resources[r := db.resources[r].(cursor := next)])
  }

  /** The row goes, and its agents or checks with it (ON DELETE CASCADE). */
  function DropResource(db: Store, r: Pk): Store {
    db.(resources := db.resources - {r},
        related := map a | a in db.related && db.related[a].resource != r :: db.related[a])
  }

  function SecretsOf(db: Store, page: set<Pk>): set<SecretId> {
    set a, s | a in page && a in db.related && s in db.related[a].secrets :: s
  }

  /** The page below `last` is empty: no rows of it are left, and its secrets are gone. */
  ghost predicate PagePurged(db: Store, statements: seq<Statement>, r: Pk, page: set<Pk>) {
    !Remains(db.telemetry, statements, r, page) && forall a | a in page && a in db.related :: db.related[a].secrets !! db.secrets
  }

  lemma LosingKeeps(db: Store, db': Store, statements: seq<Statement>)
    requires Inv(db, statements) && db' == db.(telemetry := db'.telemetry, secrets := db'.secrets)
    requires db'.telemetry <= db.telemetry && db'.secrets <= db.secrets
    ensures Inv(db', statements)
  {
  }

  lemma MarkKeeps(db: Store, statements: seq<Statement>, policy: Policy, r: Pk)
    requires Inv(db, statements) && r in db.resources
    ensures Inv(MarkPurging(db, r), statements)
    ensures WorkLeft(MarkPurging(db, r), policy) == WorkLeft(db, policy)
  {
    var db' := MarkPurging(db, r);
    assert EligibleIn(db', policy) == EligibleIn(db, policy);
    forall a | a in db.related && a <= db'.resources[db.related[a].resource].cursor ensures Purged(db', statements, a) {
      assert Purged(db, statements, a);
    }
  }

  lemma PageMemberPurged(db: Store, statements: seq<Statement>, r: Pk, page: set<Pk>, a: Pk)
    requires PagePurged(db, statements, r, page) && a in page && a in db.related
    ensures Purged(db, statements, a)
  {
    forall row, i | row in db.telemetry && 0 <= i < |statements| && statements[i].related && row.table == statements[i].table
      ensures row.owner != a
    {
      assert Selected(db.telemetry, statements[i], r, page) == {};
      assert row !in Selected(db.telemetry, statements[i], r, page);
    }
  }

  lemma AdvanceKeeps(db: Store, statements: seq<Statement>, policy: Policy, r: Pk, page: set<Pk>, next: Pk)
    requires Inv(db, statements) && r in EligibleIn(db, policy) && PagePurged(db, statements, r, page)
    requires page <= After(db, r, db.resources[r].cursor) && next in page
    requires forall a | a in After(db, r, db.resources[r].cursor) && a <= next :: a in page
    ensures Inv(AdvanceCursor(db, r, next), statements)
    ensures Less(WorkLeft(AdvanceCursor(db, r, next), policy), WorkLeft(db, policy))
  {
    hide Purged, PagePurged;
    var db' := AdvanceCursor(db, r, next);
    forall a | a in db.related && a <= db'.resources[db.related[a].resource].cursor ensures Purged(db', statements, a) {
      if db.related[a].resource == r && a > db.resources[r].cursor {
        PageMemberPurged(db, statements, r, page, a);
      }
      SamePurged(db, db', statements, a);
    }
    assert EligibleIn(db', policy) == EligibleIn(db, policy);
    assert next in WorkLeft(db, policy).related && next !in WorkLeft(db', policy).related;
  }

  lemma SamePurged(db: Store, db': Store, statements: seq<Statement>, a: Pk)
    requires a in db.related && Purged(db, statements, a) && db' == db.(resources := db'.resources)
    ensures Purged(db', statements, a)
  {
  }

  /** The last page is empty and everything before it already was: nothing of the resource is
      left when its row goes. */
  lemma DropKeeps(db: Store, statements: seq<Statement>, policy: Policy, r: Pk)
    requires Inv(db, statements) && r in EligibleIn(db, policy)
    requires PagePurged(db, statements, r, After(db, r, db.resources[r].cursor))
    ensures NothingLeft(db, statements, r)
    ensures Inv(DropResource(db, r), statements)
    ensures Less(WorkLeft(DropResource(db, r), policy), WorkLeft(db, policy))
  {
    NothingLeftAtEnd(db, statements, r);
    DroppedInv(db, statements, r);
    assert r in WorkLeft(db, policy).resources && r !in WorkLeft(DropResource(db, r), policy).resources;
  }

  lemma DroppedInv(db: Store, statements: seq<Statement>, r: Pk)
    requires Inv(db, statements)
    ensures Inv(DropResource(db, r), statements)
  {
    var db' := DropResource(db, r);
    forall a | a in db'.related && a <= db'.resources[db'.related[a].resource].cursor ensures Purged(db', statements, a) {
      assert Purged(db, statements, a);
    }
  }

  lemma NothingLeftAtEnd(db: Store, statements: seq<Statement>, r: Pk)
    requires Inv(db, statements) && r in db.resources
    requires PagePurged(db, statements, r, After(db, r, db.resources[r].cursor))
    ensures NothingLeft(db, statements, r)
  {
    var rest, all := After(db, r, db.resources[r].cursor), RelatedOf(db, r);
    forall a | a in all ensures Purged(db, statements, a) {
      if a > db.resources[r].cursor { PageMemberPurged(db, statements, r, rest, a); }
    }
    forall i | 0 <= i < |statements| ensures Selected(db.telemetry, statements[i], r, all) == {} {
      assert Selected(db.telemetry, statements[i], r, rest) == {};
      forall row | row in db.telemetry ensures !Selects(statements[i], row, r, all) {
        assert row !in Selected(db.telemetry, statements[i], r, rest);
      }
    }
  }
}
