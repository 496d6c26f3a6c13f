/** The worker that finalizes soft-deleted resources. */
module SoftDeleteWorker {
  import opened Options
  import opened Sql
  import opened SoftDelete

  datatype Page = Page(rows: seq<Pk>, hasMore: bool)

  class Finalizer {
    const statements: seq<Statement>
    const policy: Policy
    var db: Store

    constructor (statements: seq<Statement>, policy: Policy, db: Store)
      ensures this.statements == statements && this.policy == policy && this.db == db
    {
      this.statements, this.policy, this.db := statements, policy, db;
    }

    ghost predicate Valid()
      reads this
    {
      Inv(db, statements) && Claimed(policy)
    }

    /** `purgeMachineTelemetry` or `purgeServiceTelemetry` for one page of related resources. */
    method PurgeTelemetry(r: Pk, page: set<Pk>) returns (complete: bool, deleted: nat)
      modifies this
      ensures db == old(db).(telemetry := db.telemetry) && db.telemetry <= old(db).telemetry
      ensures forall row | row in old(db).telemetry && row !in db.telemetry ::
        exists i | 0 <= i < |statements| :: Selects(statements[i], row, r, page)
      ensures complete <==> !Remains(db.telemetry, statements, r, page)
      ensures !complete ==> db.telemetry < old(db).telemetry
      ensures deleted == |old(db).telemetry| - |db.telemetry|
    {
      hide RowRank;
      deleted := 0;
      ghost var start := db.telemetry;
      for i := 0 to |statements|
        invariant db == old(db).(telemetry := db.telemetry) && db.telemetry <= start
        invariant forall row | row in start && row !in db.telemetry ::
          exists k | 0 <= k < i :: Selects(statements[k], row, r, page)
        invariant db.telemetry == start ==> forall k | 0 <= k < i :: Selected(start, statements[k], r, page) == {}
        invariant deleted == |start| - |db.telemetry|
      {
        var gone := DeleteBatch(statements[i], r, page);
        deleted := deleted + gone;
      }
      complete := !Remains(db.telemetry, statements, r, page);
    }

    method DeleteBatch(s: Statement, r: Pk, page: set<Pk>) returns (gone: nat)
      modifies this
      ensures db == old(db).(telemetry := db.telemetry) && db.telemetry <= old(db).telemetry
      ensures forall row | row in old(db).telemetry && row !in db.telemetry :: Selects(s, row, r, page)
      ensures db.telemetry == old(db).telemetry ==> Selected(db.telemetry, s, r, page) == {}
      ensures gone == |old(db).telemetry| - |db.telemetry| && (s.batched ==> gone <= 200)
    {
      var found := Selected(db.telemetry, s, r, page);
      if s.batched {
        var first := SelectFirst(found, RowRank(db.telemetry), ROW_BATCH);
        if found != {} { assert first[0] in found; }
        DistinctSize(first);
        found := Elements(first);
      }
      SubsetSizeLe(found, db.telemetry);
      gone := |found|;
      db := db.(telemetry := db.telemetry - found);
    }

    /** `loadAgentPage` or `loadCheckPage`: one row more than a page tells whether more follow. */
    method LoadPage(r: Pk, cursor: Pk) returns (page: Page)
      ensures forall a | a in page.rows :: a in After(db, r, cursor)
      ensures |page.rows| <= 50 && (page.hasMore ==> |page.rows| == 50)
      ensures !page.hasMore ==> Elements(page.rows) == After(db, r, cursor)
      ensures page.hasMore ==>
        page.rows != [] && forall a | a in After(db, r, cursor) && a <= page.rows[|page.rows| - 1] :: a in page.rows
    {
      var all := After(db, r, cursor);
      var found := SelectFirst(all, PkRank(all), RELATED_RESOURCE_BATCH + 1);
      if |found| <= RELATED_RESOURCE_BATCH {
        AllChosen(all, PkRank(all), RELATED_RESOURCE_BATCH + 1, found);
        page := Page(found, false);
      } else {
        page := Page(found[..RELATED_RESOURCE_BATCH], true);
        PageHasAllBelow(all, found);
      }
    }

    /** The secrets the checks of a page refer to. */
    method DeleteSecrets(page: set<Pk>)
      modifies this
      ensures db == old(db).(secrets := old(db).secrets - SecretsOf(old(db), page))
    {
      db := db.(secrets := db.secrets - SecretsOf(db, page));
    }

    /** One resource of a run.  `ok` is false where the source throws because the stored cursor
        names no agent or check of the resource; that never happens.  The row is deleted only when
        nothing of the resource is left, and every call leaves less to do. */
    method FinalizeResource(r: Pk) returns (ok: bool, deleted: nat)
      requires Valid() && r in EligibleIn(db, policy)
      modifies this
      ensures ok && Valid()
      ensures Less(WorkLeft(db, policy), WorkLeft(old(db), policy))
      ensures r !in db.resources ==> NothingLeft(old(db).(telemetry := db.telemetry, secrets := db.secrets), statements, r)
      ensures ActsOn(old(db), db, r) && (r in db.resources ==> db.resources[r].purging)
      ensures deleted == |old(db).telemetry| - |db.telemetry|
      ensures forall row | row in old(db).telemetry && row !in db.telemetry :: Belongs(old(db), statements, row, r)
    {
      hide Inv, Less, WorkLeft, NothingLeft, Remains, PagePurged, Belongs, RefersTo;
      deleted := 0;
      ghost var work := WorkLeft(db, policy);
      MarkKeeps(db, statements, policy, r);
      db := MarkPurging(db, r);
      var cursor := db.resources[r].cursor;
      CursorExists(db, statements, r);
      ok := cursor == 0 || (cursor in db.related && db.related[cursor].resource == r);
      if ok {
        var page := LoadPage(r, cursor);
        ghost var marked := db;
        var complete;
        complete, deleted := PurgeTelemetry(r, Elements(page.rows));
        LosingKeeps(marked, db, statements);
        RowsGone(marked, db, policy);
        PageBelongs(old(db), marked, statements, r, Elements(page.rows));
        if complete {
          ghost var purged := db;
          DeleteSecrets(Elements(page.rows));
          PageRefers(old(db), purged, r, Elements(page.rows));
          LosingKeeps(purged, db, statements);
          PageIsPurged(purged, db, statements, r, Elements(page.rows));
          SameWork(purged, db, policy);
          if page.hasMore {
            var next := page.rows[|page.rows| - 1];
            AdvanceKeeps(db, statements, policy, r, Elements(page.rows), next);
            LessThrough(WorkLeft(AdvanceCursor(db, r, next), policy), WorkLeft(db, policy), work);
            db := AdvanceCursor(db, r, next);
          } else {
            DropKeeps(db, statements, policy, r);
            LessThrough(WorkLeft(DropResource(db, r), policy), WorkLeft(db, policy), work);
            SameLeft(old(db).(telemetry := db.telemetry, secrets := db.secrets), db, statements, r);
            db := DropResource(db, r);
          }
        }
      }
    }
  }

  lemma CursorExists(db: Store, statements: seq<Statement>, r: Pk)
    requires Inv(db, statements) && r in db.resources
    ensures db.resources[r].cursor == 0
            || (db.resources[r].cursor in db.related && db.related[db.resources[r].cursor].resource == r)
  {
  }

  lemma RowsGone(db: Store, db': Store, policy: Policy)
    requires db' == db.(telemetry := db'.telemetry) && db'.telemetry <= db.telemetry
    ensures db'.telemetry < db.telemetry ==> Less(WorkLeft(db', policy), WorkLeft(db, policy))
    ensures WorkLeft(db', policy) == WorkLeft(db, policy) || Less(WorkLeft(db', policy), WorkLeft(db, policy))
    ensures EligibleIn(db', policy) == EligibleIn(db, policy)
  {
    assert EligibleIn(db', policy) == EligibleIn(db, policy);
  }

  lemma SameWork(db: Store, db': Store, policy: Policy)
    requires db' == db.(secrets := db'.secrets)
    ensures WorkLeft(db', policy) == WorkLeft(db, policy) && EligibleIn(db', policy) == EligibleIn(db, policy)
  {
    assert EligibleIn(db', policy) == EligibleIn(db, policy);
  }

  lemma PageIsPurged(db: Store, db': Store, statements: seq<Statement>, r: Pk, page: set<Pk>)
    requires !Remains(db.telemetry, statements, r, page)
    requires db' == db.(secrets := db.secrets - SecretsOf(db, page))
    ensures PagePurged(db', statements, r, page)
  {
    hide Remains;
    forall a, s | a in page && a in db.related && s in db.related[a].secrets ensures s !in db'.secrets {
      assert s in SecretsOf(db, page);
    }
  }

  lemma SameLeft(db: Store, db': Store, statements: seq<Statement>, r: Pk)
    requires NothingLeft(db', statements, r) && db == db'.(resources := db.resources)
    ensures NothingLeft(db, statements, r)
  {
    assert RelatedOf(db, r) == RelatedOf(db', r);
  }

  lemma LessThrough(a: Work, b: Work, c: Work)
    requires Less(a, b) && (b == c || Less(b, c))
    ensures Less(a, c)
  {
    if b != c { LessIsTransitive(a, b, c); }
  }

  lemma PageHasAllBelow(all: set<Pk>, found: seq<Pk>)
    requires FirstByRank(all, PkRank(all), RELATED_RESOURCE_BATCH + 1, found) && |found| == RELATED_RESOURCE_BATCH + 1
    ensures forall a | a in all && a <= found[RELATED_RESOURCE_BATCH - 1] :: a in found[..RELATED_RESOURCE_BATCH]
  {
    var last, next := found[RELATED_RESOURCE_BATCH - 1], found[RELATED_RESOURCE_BATCH];
    assert last in found && next in found && last < next;
    forall a | a in all && a <= last ensures a in found[..RELATED_RESOURCE_BATCH] {
      assert a in found;
      var k :| 0 <= k < |found| && found[k] == a;
      assert k < RELATED_RESOURCE_BATCH && found[..RELATED_RESOURCE_BATCH][k] == a;
    }
  }

  /** Only the row of `r` and what belongs to it may change in the control database. */
  ghost predicate ActsOn(db: Store, db': Store, r: Pk) {
    && db'.telemetry <= db.telemetry && db'.secrets <= db.secrets
    && r in db.resources && db.resources.Keys - {r} <= db'.resources.Keys <= db.resources.Keys
    && (forall other | other in db'.resources && other != r :: db'.resources[other] == db.resources[other])
    && (r in db'.resources ==> db'.resources[r].deletedAt == db.resources[r].deletedAt)
    && (forall a | a in db'.related :: a in db.related && db'.related[a] == db.related[a])
    && (forall a | a in db.related && db.related[a].resource in db'.resources :: a in db'.related)
    && (forall s | s in db.secrets && s !in db'.secrets :: RefersTo(db, r, s))
  }

  lemma PageBelongs(db: Store, marked: Store, statements: seq<Statement>, r: Pk, page: set<Pk>)
    requires marked.related == db.related && page <= After(marked, r, 0) + RelatedOf(marked, r)
    ensures forall row: Row | exists i | 0 <= i < |statements| :: Selects(statements[i], row, r, page) ::
      Belongs(db, statements, row, r)
  {
    assert page <= RelatedOf(db, r);
  }

  lemma PageRefers(db: Store, purged: Store, r: Pk, page: set<Pk>)
    requires purged.related == db.related && page <= After(purged, r, 0) + RelatedOf(purged, r)
    ensures forall s | s in SecretsOf(purged, page) :: RefersTo(db, r, s)
  {
  }

  lemma ActedFinalizes(db: Store, db': Store, statements: seq<Statement>, policy: Policy, r: Pk)
    requires ActsOn(db, db', r) && r in EligibleIn(db, policy)
    requires forall row | row in db.telemetry && row !in db'.telemetry :: Belongs(db, statements, row, r)
    requires r !in db'.resources ==> NothingLeft(db.(telemetry := db'.telemetry, secrets := db'.secrets), statements, r)
    ensures Finalizes(db, db', statements, policy)
  {
    hide Belongs, NothingLeft, RefersTo;
  }

  // ---- many runs ----------------------------------------------------------------------------

  /** `finalizeMachines` or `finalizeServices`: one run over the first ten eligible resources.
      Unless nothing is eligible there is less to do afterwards. */
  method RunOnce(finalizer: Finalizer) returns (ok: bool, deleted: nat)
    requires finalizer.Valid()
    modifies finalizer
    ensures ok && finalizer.Valid() && deleted == |old(finalizer.db).telemetry| - |finalizer.db.telemetry|
    ensures var before := old(finalizer.db);
      if EligibleIn(before, finalizer.policy) == {} then finalizer.db == before
      else Less(WorkLeft(finalizer.db, finalizer.policy), WorkLeft(before, finalizer.policy))
    ensures Finalizes(old(finalizer.db), finalizer.db, finalizer.statements, finalizer.policy)
    ensures TablesApart(finalizer.statements) && SecretsApart(old(finalizer.db)) ==>
      AllGraceKept(old(finalizer.db), finalizer.db, finalizer.statements, finalizer.policy)
  {
    hide Inv, Less, WorkLeft, Finalizes, FirstByRank, AllGraceKept, TablesApart, SecretsApart;
    ghost var before, statements, policy := finalizer.db, finalizer.statements, finalizer.policy;
    var listed := ListDeleted(finalizer);
    ok, deleted := true, 0;
    FinalizesNothing(before, statements, policy);
    for i := 0 to |listed|
      invariant ok && finalizer.Valid() && deleted == |before.telemetry| - |finalizer.db.telemetry|
      invariant forall k | i <= k < |listed| :: listed[k] in EligibleIn(finalizer.db, policy)
      invariant if i == 0 then finalizer.db == before else Less(WorkLeft(finalizer.db, policy), WorkLeft(before, policy))
      invariant Finalizes(before, finalizer.db, statements, policy)
    {
      ghost var now := finalizer.db;
      var gone;
      ok, gone := finalizer.FinalizeResource(listed[i]);
      deleted := deleted + gone;
      ActedFinalizes(now, finalizer.db, statements, policy, listed[i]);
      FinalizesOn(before, now, finalizer.db, statements, policy);
      LessThrough(WorkLeft(finalizer.db, policy), WorkLeft(now, policy), WorkLeft(before, policy));
      OthersEligible(now, finalizer.db, policy, listed[i]);
    }
    if TablesApart(statements) && SecretsApart(before) { KeepsGrace(before, finalizer.db, statements, policy); }
  }

  /** Every resource that was not deleted, itself or with its workspace, at or before the cutoff is
      unchanged and has all its rows, agents or checks and secrets. */
  ghost predicate AllGraceKept(db: Store, db': Store, statements: seq<Statement>, policy: Policy) {
    forall r | r in db.resources && InGrace(policy, db.resources[r]) ::
      && r in db'.resources && db'.resources[r] == db.resources[r]
      && (forall row | row in db.telemetry && Belongs(db, statements, row, r) :: row in db'.telemetry)
      && (forall a | a in db.related && db.related[a].resource == r ::
            a in db'.related && db'.related[a] == db.related[a]
            && db.related[a].secrets * db'.secrets == db.related[a].secrets * db.secrets)
  }

  lemma KeepsGrace(db: Store, db': Store, statements: seq<Statement>, policy: Policy)
    requires Finalizes(db, db', statements, policy) && TablesApart(statements) && SecretsApart(db)
    ensures AllGraceKept(db, db', statements, policy)
  {
    hide Finalizes, TablesApart, SecretsApart, Belongs;
    forall r | r in db.resources && InGrace(policy, db.resources[r])
      ensures r in db'.resources && db'.resources[r] == db.resources[r]
      ensures forall row | row in db.telemetry && Belongs(db, statements, row, r) :: row in db'.telemetry
      ensures forall a | a in db.related && db.related[a].resource == r ::
        a in db'.related && db'.related[a] == db.related[a]
        && db.related[a].secrets * db'.secrets == db.related[a].secrets * db.secrets
    {
      GraceIsKept(db, db', statements, policy, r);
      EligibleIff(policy, db.resources[r]);
      forall a | a in db.related && db.related[a].resource == r
        ensures db.related[a].secrets * db'.secrets == db.related[a].secrets * db.secrets
      {
        OthersKeepSecrets(db, db', statements, policy, a);
      }
    }
  }

  /** Whatever was deleted, itself or with its workspace, at or before the cutoff is gone. */
  lemma AllElseGone(db: Store, policy: Policy)
    requires EligibleIn(db, policy) == {}
    ensures forall r | r in db.resources :: InGrace(policy, db.resources[r])
  {
    forall r | r in db.resources ensures InGrace(policy, db.resources[r]) {
      EligibleIff(policy, db.resources[r]);
      assert r !in EligibleIn(db, policy);
    }
  }

  /** `deletedResources`. */
  method ListDeleted(finalizer: Finalizer) returns (listed: seq<Pk>)
    ensures Distinct(listed) && forall r | r in listed :: r in EligibleIn(finalizer.db, finalizer.policy)
    ensures listed == [] <==> EligibleIn(finalizer.db, finalizer.policy) == {}
    ensures |listed| == if |EligibleIn(finalizer.db, finalizer.policy)| < 10 then |EligibleIn(finalizer.db, finalizer.policy)| else 10
  {
    var eligible := EligibleIn(finalizer.db, finalizer.policy);
    listed := SelectFirst(eligible, PkRank(eligible), RESOURCE_BATCH);
  }

  lemma OthersEligible(db: Store, db': Store, policy: Policy, r: Pk)
    requires ActsOn(db, db', r)
    ensures EligibleIn(db, policy) - {r} <= EligibleIn(db', policy)
  {
  }

  /** Repeated runs come to an end: every eligible resource is gone with everything it had, and
      nothing else was touched. */
  method RunUntilDone(finalizer: Finalizer)
    requires finalizer.Valid()
    modifies finalizer
    ensures finalizer.Valid() && EligibleIn(finalizer.db, finalizer.policy) == {}
    ensures Finalizes(old(finalizer.db), finalizer.db, finalizer.statements, finalizer.policy)
    ensures SecretsApart(old(finalizer.db)) ==> SecretsKept(old(finalizer.db), finalizer.db, finalizer.policy)
    ensures TablesApart(finalizer.statements) && SecretsApart(old(finalizer.db)) ==>
      AllGraceKept(old(finalizer.db), finalizer.db, finalizer.statements, finalizer.policy)
    ensures forall r | r in finalizer.db.resources :: InGrace(finalizer.policy, finalizer.db.resources[r])
    ensures forall r | r in finalizer.db.resources :: r in old(finalizer.db).resources
                                                      && finalizer.db.resources[r] == old(finalizer.db).resources[r]
  {
    hide Inv, WorkLeft, Finalizes, AllGraceKept, TablesApart, SecretsKept;
    ghost var before := finalizer.db;
    FinalizesNothing(before, finalizer.statements, finalizer.policy);
    while EligibleIn(finalizer.db, finalizer.policy) != {}
      invariant finalizer.Valid() && Finalizes(before, finalizer.db, finalizer.statements, finalizer.policy)
      decreases WorkLeft(finalizer.db, finalizer.policy).resources,
                WorkLeft(finalizer.db, finalizer.policy).related,
                WorkLeft(finalizer.db, finalizer.policy).rows
    {
      ghost var now := finalizer.db;
      var ok, deleted := RunOnce(finalizer);
      FinalizesOn(before, now, finalizer.db, finalizer.statements, finalizer.policy);
    }
    AllElseGone(finalizer.db, finalizer.policy);
    GraceStays(before, finalizer.db, finalizer.statements, finalizer.policy);
    if TablesApart(finalizer.statements) && SecretsApart(before) {
      KeepsGrace(before, finalizer.db, finalizer.statements, finalizer.policy);
    }
    if SecretsApart(before) { KeepsSecrets(before, finalizer.db, finalizer.statements, finalizer.policy); }
  }

  /** What is there at the end was there before, unchanged. */
  lemma GraceStays(db: Store, db': Store, statements: seq<Statement>, policy: Policy)
    requires Finalizes(db, db', statements, policy) && EligibleIn(db', policy) == {}
    ensures forall r | r in db'.resources :: r in db.resources && db'.resources[r] == db.resources[r]
  {
    hide NothingLeft, BelongsToEligible, EligibleRefersTo;
    forall r | r in db'.resources ensures r in db.resources && db'.resources[r] == db.resources[r] {
      assert r !in EligibleIn(db', policy);
      assert !Eligible(policy, db.resources[r]);
      assert Untouched(db, db', r);
    }
  }

  /** Every check of a resource that is not eligible is there with its secrets. */
  ghost predicate SecretsKept(db: Store, db': Store, policy: Policy) {
    forall a | a in db.related && db.related[a].resource in db.resources
               && !Eligible(policy, db.resources[db.related[a].resource]) ::
      a in db'.related && db.related[a].secrets * db'.secrets == db.related[a].secrets * db.secrets
  }

  lemma KeepsSecrets(db: Store, db': Store, statements: seq<Statement>, policy: Policy)
    requires Finalizes(db, db', statements, policy) && SecretsApart(db)
    ensures SecretsKept(db, db', policy)
  {
    hide Finalizes, SecretsApart;
    forall a | a in db.related && db.related[a].resource in db.resources
               && !Eligible(policy, db.resources[db.related[a].resource])
      ensures a in db'.related && db.related[a].secrets * db'.secrets == db.related[a].secrets * db.secrets
    {
      OthersKeepSecrets(db, db', statements, policy, a);
    }
  }
}
