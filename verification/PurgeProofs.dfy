/** What a purge keeps, for every listing order, every failure and every answer of the store. */
module PurgeProofs {
  import opened StorageRows
  import opened StoragePurge

  /** Left in place on this server, because no backend is set up for it. */
  predicate LeftLocal(b: Blob, f: Faults) {
    b.backend == "local" && f.reply(b).NotConfigured?
  }

  lemma {:induction false} DeletedOrLeft(store: set<Spot>, blobs: seq<Blob>, f: Faults)
    ensures DeleteBlobs(store, blobs, f.reply).0 <= store
    ensures forall s :: s in store && s !in DeleteBlobs(store, blobs, f.reply).0 ==>
              exists i :: 0 <= i < |blobs| && i <= DeleteBlobs(store, blobs, f.reply).1 && blobs[i].spot == s
    ensures forall i :: 0 <= i < DeleteBlobs(store, blobs, f.reply).1 ==>
              blobs[i].spot !in DeleteBlobs(store, blobs, f.reply).0 || LeftLocal(blobs[i], f)
  {
    if blobs != [] {
      var b := blobs[0];
      if Passes(b, f.reply(b)) {
        DeletedOrLeft(StoreAfter(store, b, f.reply(b)), blobs[1..], f);
        var (left, n) := DeleteBlobs(StoreAfter(store, b, f.reply(b)), blobs[1..], f.reply);
        assert forall i :: 0 < i <= n ==> blobs[i] == blobs[1..][i - 1];
        forall s | s in store && s !in left
          ensures exists i :: 0 <= i < |blobs| && i <= n + 1 && blobs[i].spot == s
        {
          if s == b.spot {
            assert blobs[0].spot == s;
          } else {
            var i :| 0 <= i < |blobs[1..]| && i <= n && blobs[1..][i].spot == s;
            assert blobs[i + 1].spot == s;
          }
        }
      }
    }
  }

  /** Every row and reminder in scope is among the blobs, and nothing else is. */
  lemma BlobsCover(db: Db, req: Request, l: Listing)
    requires Lists(db, req, l)
    ensures forall b :: b in AllBlobs(db, req, l) ==>
              && InScope(req, KeyOf(b.spot))
              && (if b.record then b.spot in db.rows && IsRecord(b.spot)
                  else b.spot in db.pending || (b.spot in db.rows && !IsRecord(b.spot)))
    ensures forall s :: s in db.rows && InScope(req, KeyOf(s)) ==>
              Blob(s, db.rows[s], IsRecord(s)) in AllBlobs(db, req, l)
    ensures forall s :: s in db.pending && InScope(req, KeyOf(s)) ==>
              Blob(s, db.pending[s], false) in AllBlobs(db, req, l)
  {
    var p, q, r := BlobsOf(db.rows, l.packs, false), BlobsOf(db.pending, l.pending, false), BlobsOf(db.rows,
        l.records, true);
    assert AllBlobs(db, req, l) == p + q + r;
    BlobsOfAre(db.rows, l.packs, false);
    BlobsOfAre(db.pending, l.pending, false);
    BlobsOfAre(db.rows, l.records, true);
    hide AllBlobs, BlobsOf;
  }

  lemma BlobsOfAre(m: map<Spot, string>, spots: seq<Spot>, record: bool)
    requires forall s :: s in spots ==> s in m
    ensures forall b :: b in BlobsOf(m, spots, record) ==> b.spot in spots && b == Blob(b.spot, m[b.spot], record)
    ensures forall s :: s in spots ==> Blob(s, m[s], record) in BlobsOf(m, spots, record)
  {
    forall s | s in spots
      ensures Blob(s, m[s], record) in BlobsOf(m, spots, record)
    {
      var i :| 0 <= i < |spots| && spots[i] == s;
      assert BlobsOf(m, spots, record)[i] == Blob(s, m[s], record);
    }
  }

  /** Rows, reminders and links are as they were. */
  predicate RowsKept(db: Db, db': Db) {
    db'.rows == db.rows && db'.pending == db.pending && db'.links == db.links
  }

  /** Everything in scope is gone, everything else is as it was. */
  predicate ScopeGone(db: Db, db': Db, req: Request) {
    && db'.rows == (map s | s in db.rows && !InScope(req, KeyOf(s)) :: db.rows[s])
    && db'.pending == (map s | s in db.pending && !InScope(req, KeyOf(s)) :: db.pending[s])
    && db'.links == (map i | i in db.links && !InScope(req, db.links[i]) :: db.links[i])
    && db'.lunas == (map k | k in db.lunas && !InScope(req, k) :: db.lunas[k])
  }

  /** The Luna's claim is as it was, or stays taken; either way a later run may claim it. */
  predicate ClaimKept(db: Db, db': Db, req: Request) {
    || db'.lunas == db.lunas
    || (req.luna != "" && Target(req) in db.lunas && Claimable(db.lunas[Target(req)], req.now)
        && db'.lunas == db.lunas[Target(req) := -1])
  }

  /** Did the purge act at all? */
  predicate Acts(db: Db, req: Request) {
    && req.account != ""
    && (req.luna != "" && Target(req) in db.lunas ==> Claimable(db.lunas[Target(req)], req.now))
  }

  /** The transaction has at most claimed the Luna and bumped versions. */
  predicate OnlyClaimed(db: Db, w: Db, req: Request) {
    && RowsKept(db, w)
    && (w.lunas == db.lunas || (req.luna != "" && Target(req) in db.lunas && w.lunas == db.lunas[Target(req) := -1]))
  }

  /** The transaction as it stands at the savepoint. */
  function Working(db: Db, req: Request): Db {
    Bumped(if req.luna != "" then Claimed(db, Target(req)) else db, RecordLunas(db, req))
  }

  lemma WorkingIs(db: Db, req: Request)
    ensures OnlyClaimed(db, Working(db, req), req)
  {
  }

  lemma CloseKeeps(db: Db, w: Db, req: Request, f: Faults)
    requires OnlyClaimed(db, w, req) && Acts(db, req)
    ensures RowsKept(db, CloseAfterError(db, w, req, f)) && ClaimKept(db, CloseAfterError(db, w, req, f), req)
  {
  }

  lemma FailedCommitKeeps(db: Db, req: Request, f: Faults)
    ensures RowsKept(db, AfterFailedCommit(db, db, req, f)) && ClaimKept(db, AfterFailedCommit(db, db, req, f), req)
  {
    hide RecordLunas;
    assert forall k :: k in db.lunas ==> db.lunas[k := db.lunas[k]] == db.lunas;
  }

  lemma WithoutScopeIs(db: Db, w: Db, req: Request)
    requires OnlyClaimed(db, w, req) && req.account != ""
    ensures ScopeGone(db, WithoutScope(w, req), req)
  {
  }

  lemma FailedCommitGone(db: Db, left: Db, req: Request, f: Faults)
    requires ScopeGone(db, left, req)
    ensures ScopeGone(db, AfterFailedCommit(db, left, req, f), req)
  {
    hide RecordLunas;
    assert Target(req) !in left.lunas;
  }

  /** Refused, or stopped by an error: every row, reminder and link is still there. */
  ghost predicate Stopped(db: Db, store: set<Spot>, req: Request, o: Outcome) {
    && RowsKept(db, o.db) && ClaimKept(db, o.db, req)
    && (o.ok || !Acts(db, req) ==> o.db == db && o.store == store)
    && (o.ok ==> !Acts(db, req))
  }

  /** Everything in scope went, after every blob was deleted or passed over. */
  ghost predicate Carried(db: Db, store: set<Spot>, req: Request, blobs: seq<Blob>, f: Faults, o: Outcome) {
    && Acts(db, req) && ScopeGone(db, o.db, req)
    && DeleteBlobs(store, blobs, f.reply) == (o.store, |blobs|)
    && (o.ok <==> f.commit.Committed?)
    && !f.commit.RolledBack?
  }

  lemma DeletingEndings(db: Db, w: Db, store: set<Spot>, req: Request, blobs: seq<Blob>, f: Faults)
    requires OnlyClaimed(db, w, req) && Acts(db, req)
    ensures var o := Deleting(db, w, store, req, blobs, f);
            if DeleteBlobs(store, blobs, f.reply).1 == |blobs| && !f.rows && !f.commit.RolledBack?
            then Carried(db, store, req, blobs, f, o)
            else !o.ok && Stopped(db, store, req, o)
  {
    CloseKeeps(db, w, req, f);
    FailedCommitKeeps(db, req, f);
    WithoutScopeIs(db, w, req);
    FailedCommitGone(db, WithoutScope(w, req), req, f);
    hide CloseAfterError, AfterFailedCommit, WithoutScope, ScopeGone, DeleteBlobs, OnlyClaimed, RowsKept, ClaimKept,
        Acts, RecordAmong;
    assert RowsKept(db, db) && ClaimKept(db, db, req) by {
      KeptAsIs(db, req);
    }
  }

  lemma KeptAsIs(db: Db, req: Request)
    ensures RowsKept(db, db) && ClaimKept(db, db, req)
  {
  }

  /** How a purge ends: with nothing forgotten and the claim still to be had, or with all of
      its scope gone; the second only if every blob passed and the commit took effect. */
  lemma PurgeEndings(db: Db, store: set<Spot>, req: Request, l: Listing, f: Faults)
    requires Lists(db, req, l)
    ensures var o := Purge(db, store, req, l, f);
            Stopped(db, store, req, o) || Carried(db, store, req, AllBlobs(db, req, l), f, o)
    ensures var o := Purge(db, store, req, l, f);
            !o.ok && !f.commit.Unsure? ==> Stopped(db, store, req, o)
  {
    var w, blobs := Working(db, req), AllBlobs(db, req, l);
    EarlyEnding(db, store, req);
    if Acts(db, req) {
      WorkingIs(db, req);
      hide OnlyClaimed;
      DeletingEndings(db, w, store, req, blobs, f);
    }
    hide AllBlobs, Deleting, Carried, Stopped, Bumped, RecordLunas, Claimed, DeleteBlobs;
  }

  lemma EarlyEnding(db: Db, store: set<Spot>, req: Request)
    ensures !Acts(db, req) ==> Stopped(db, store, req, Outcome(db, store, true))
    ensures Stopped(db, store, req, Outcome(db, store, false))
  {
  }

  /** The blob a row or reminder names is gone, or is local with no backend set up. */
  predicate Accounted(db: Db, store: set<Spot>, s: Spot, f: Faults) {
    && (s in db.rows ==> s !in store || LeftLocal(Blob(s, db.rows[s], IsRecord(s)), f))
    && (s in db.pending ==> s !in store || LeftLocal(Blob(s, db.pending[s], false), f))
  }

  lemma CarriedAccounts(db: Db, store: set<Spot>, req: Request, l: Listing, f: Faults, o: Outcome, s: Spot)
    requires Lists(db, req, l) && Carried(db, store, req, AllBlobs(db, req, l), f, o)
    requires InScope(req, KeyOf(s))
    ensures Accounted(db, o.store, s, f)
  {
    var blobs := AllBlobs(db, req, l);
    BlobsCover(db, req, l);
    DeletedOrLeft(store, blobs, f);
    hide AllBlobs, DeleteBlobs, ScopeGone;
    forall b | b in blobs
      ensures b.spot !in o.store || LeftLocal(b, f)
    {
      var i :| 0 <= i < |blobs| && blobs[i] == b;
    }
  }

  /** A purge never forgets bytes it did not delete: where a row or reminder is gone, so is
      the blob it named. */
  lemma NeverForgets(db: Db, store: set<Spot>, req: Request, l: Listing, f: Faults, s: Spot)
    requires Lists(db, req, l)
    requires var o := Purge(db, store, req, l, f);
             (s in db.rows && s !in o.db.rows) || (s in db.pending && s !in o.db.pending)
    ensures Accounted(db, Purge(db, store, req, l, f).store, s, f)
  {
    PurgeEndings(db, store, req, l, f);
    var o := Purge(db, store, req, l, f);
    hide Purge, AllBlobs;
    assert Carried(db, store, req, AllBlobs(db, req, l), f, o);
    CarriedAccounts(db, store, req, l, f, o, s);
  }

  /** Rows, reminders, claims, versions and links of other accounts and Lunas are as they were,
      and none has come to be. */
  ghost predicate OutsideKept(db: Db, db': Db, req: Request) {
    && (forall s :: !InScope(req, KeyOf(s)) ==>
          && (s in db.rows <==> s in db'.rows) && (s in db.rows ==> db'.rows[s] == db.rows[s])
          && (s in db.pending <==> s in db'.pending) && (s in db.pending ==> db'.pending[s] == db.pending[s]))
    && (forall k :: !InScope(req, k) ==>
          && (k in db.lunas <==> k in db'.lunas) && (k in db.lunas ==> db'.lunas[k] == db.lunas[k])
          && Version(db', k) == Version(db, k))
    && (forall i :: i in db.links && !InScope(req, db.links[i]) ==> i in db'.links && db'.links[i] == db.links[i])
    && (forall i :: i in db'.links ==> i in db.links && db'.links[i] == db.links[i])
  }

  /** Nothing outside the scope changes, and no blob there is deleted. */
  lemma TouchesOnlyScope(db: Db, store: set<Spot>, req: Request, l: Listing, f: Faults)
    requires Lists(db, req, l)
    ensures var o := Purge(db, store, req, l, f);
            && o.store <= store
            && (forall s :: s in store && !InScope(req, KeyOf(s)) ==> s in o.store)
            && OutsideKept(db, o.db, req)
  {
    PurgeEndings(db, store, req, l, f);
    VersionsLeft(db, store, req, l, f);
    BlobsLeft(db, store, req, l, f);
    hide Purge, AllBlobs, DeleteBlobs, Version, Acts, Stopped, Carried;
    var o := Purge(db, store, req, l, f);
    assert OutsideKept(db, o.db, req) by {
      if Stopped(db, store, req, o) {
        StoppedOutside(db, store, req, o);
      } else {
        CarriedOutside(db, store, req, AllBlobs(db, req, l), f, o);
      }
    }
  }

  lemma StoppedOutside(db: Db, store: set<Spot>, req: Request, o: Outcome)
    requires Stopped(db, store, req, o) && OnlyBumps(db, o.db, req)
    ensures OutsideKept(db, o.db, req)
  {
    hide Version, Acts;
    assert InScope(req, Target(req)) by {
      TargetInScope(req);
    }
  }

  lemma TargetInScope(req: Request)
    ensures InScope(req, Target(req))
  {
  }

  lemma CarriedOutside(db: Db, store: set<Spot>, req: Request, blobs: seq<Blob>, f: Faults, o: Outcome)
    requires Carried(db, store, req, blobs, f, o) && OnlyBumps(db, o.db, req)
    ensures OutsideKept(db, o.db, req)
  {
    hide Version, Acts, DeleteBlobs, InScope;
  }

  lemma BlobsLeft(db: Db, store: set<Spot>, req: Request, l: Listing, f: Faults)
    requires Lists(db, req, l)
    ensures var o := Purge(db, store, req, l, f);
            o.store <= store && forall s :: s in store && !InScope(req, KeyOf(s)) ==> s in o.store
  {
    var blobs := AllBlobs(db, req, l);
    BlobsCover(db, req, l);
    DeletedOrLeft(store, blobs, f);
    StoreLeft(db, store, req, l, f);
    hide Purge, AllBlobs, DeleteBlobs, InScope;
    forall i | 0 <= i < |blobs|
      ensures InScope(req, KeyOf(blobs[i].spot))
    {
      assert blobs[i] in blobs;
    }
  }

  /** Only Lunas in scope see their version change. */
  ghost predicate OnlyBumps(db: Db, db': Db, req: Request) {
    forall k :: !InScope(req, k) ==> Version(db', k) == Version(db, k)
  }

  lemma BumpsInScope(db: Db, w: Db, req: Request, ks: set<LunaKey>)
    requires ks <= RecordLunas(db, req) && OnlyBumps(db, w, req)
    ensures OnlyBumps(db, Bumped(w, ks), req)
  {
  }

  lemma ClosedVersions(db: Db, w: Db, req: Request, f: Faults)
    requires OnlyBumps(db, w, req)
    ensures OnlyBumps(db, CloseAfterError(db, w, req, f), req)
    ensures OnlyBumps(db, WithoutScope(w, req), req)
    ensures OnlyBumps(db, AfterFailedCommit(db, w, req, f), req)
    ensures OnlyBumps(db, AfterFailedCommit(db, WithoutScope(w, req), req, f), req)
    ensures OnlyBumps(db, AfterFailedCommit(db, db, req, f), req)
  {
    FailedVersions(db, w, req, f);
    FailedVersions(db, WithoutScope(w, req), req, f);
    FailedVersions(db, db, req, f);
    hide AfterFailedCommit;
  }

  lemma FailedVersions(db: Db, left: Db, req: Request, f: Faults)
    requires OnlyBumps(db, left, req)
    ensures OnlyBumps(db, AfterFailedCommit(db, left, req, f), req)
  {
    var restored := if req.luna != ""
        && !f.restore then Released(left, Target(req), OldPurgeAfter(db, Target(req))) else left;
    var ks := set k | k in RecordLunas(db, req) && !f.rebump(k);
    assert OnlyBumps(db, restored, req);
    hide RecordLunas;
    BumpsInScope(db, restored, req, ks);
  }

  lemma VersionsLeft(db: Db, store: set<Spot>, req: Request, l: Listing, f: Faults)
    requires Lists(db, req, l)
    ensures OnlyBumps(db, Purge(db, store, req, l, f).db, req)
  {
    PurgeIs(db, store, req, l, f);
    BumpsInScope(db, if req.luna != "" then Claimed(db, Target(req)) else db, req, RecordLunas(db, req));
    hide Purge, AllBlobs, Deleting, Bumped, RecordLunas, Claimed;
    DeletingVersions(db, Working(db, req), store, req, AllBlobs(db, req, l), f);
  }

  lemma DeletingVersions(db: Db, w: Db, store: set<Spot>, req: Request, blobs: seq<Blob>, f: Faults)
    requires OnlyBumps(db, w, req)
    ensures OnlyBumps(db, db, req) && OnlyBumps(db, Deleting(db, w, store, req, blobs, f).db, req)
  {
    ClosedVersions(db, w, req, f);
    assert OnlyBumps(db, db, req);
    hide DeleteBlobs, CloseAfterError, AfterFailedCommit, WithoutScope, OnlyBumps, RecordAmong;
  }

  /** A purge leaves everything as it was, or gets to deleting blobs. */
  lemma PurgeIs(db: Db, store: set<Spot>, req: Request, l: Listing, f: Faults)
    requires Lists(db, req, l)
    ensures var o := Purge(db, store, req, l, f);
            (o.db == db && o.store == store) || o == Deleting(db, Working(db, req), store, req, AllBlobs(db, req, l), f)
  {
    hide AllBlobs, Deleting, Bumped, RecordLunas, Claimed;
  }

  lemma StoreLeft(db: Db, store: set<Spot>, req: Request, l: Listing, f: Faults)
    requires Lists(db, req, l)
    ensures var o := Purge(db, store, req, l, f);
            o.store == store || o.store == DeleteBlobs(store, AllBlobs(db, req, l), f.reply).0
  {
    PurgeIs(db, store, req, l, f);
    hide Purge, AllBlobs, DeleteBlobs, CloseAfterError, AfterFailedCommit, WithoutScope, Working;
  }

  /** A Luna that is not due, or is linked again, is left alone; after an error exit the Luna
      can be claimed again by any later run. */
  lemma ClaimProtocol(db: Db, store: set<Spot>, req: Request, l: Listing, f: Faults, later: int)
    requires Lists(db, req, l) && req.luna != "" && req.now <= later
    ensures var o := PurgeLuna(db, store, req, l, f); var k := Target(req);
            && (k in db.lunas && db.lunas[k] != -1 && !(1 <= db.lunas[k] <= req.now) ==>
                  o.db == db && o.store == store)
            && (k in db.lunas && k in o.db.lunas ==> o.db.lunas[k] == db.lunas[k] || o.db.lunas[k] == -1)
            && (!o.ok && k in db.lunas && (db.lunas[k] == -1 || 1 <= db.lunas[k] <= req.now) && k in o.db.lunas ==>
                  o.db.lunas[k] == -1 || 1 <= o.db.lunas[k] <= later)
            && (k !in db.lunas ==> k !in o.db.lunas)
  {
    PurgeEndings(db, store, req, l, f);
    hide Purge, AllBlobs, DeleteBlobs, ScopeGone;
  }

  /** The closing commit is not reached or does not take effect, and, after a purge that got to
      its last commit, neither does the separate bump. */
  predicate BumpLost(db: Db, store: set<Spot>, req: Request, blobs: seq<Blob>, f: Faults, k: LunaKey) {
    if DeleteBlobs(store, blobs, f.reply).1 < |blobs| then f.commit.RolledBack?
    else if f.rows then f.rollbackTo || f.commit.RolledBack?
    else f.commit.RolledBack? && f.rebump(k)
  }

  /** Did the run delete all blobs, or a record's blob among those it came to? Its version bumps
      are kept only then. */
  ghost predicate GotToRecords(store: set<Spot>, blobs: seq<Blob>, f: Faults) {
    var n := DeleteBlobs(store, blobs, f.reply).1;
    n == |blobs| || RecordAmong(blobs, n + 1)
  }

  /** Without a reminder for it, a live record's bytes only go as a record's. */
  lemma RecordReached(db: Db, store: set<Spot>, req: Request, l: Listing, f: Faults, s: Spot)
    requires Lists(db, req, l) && s !in db.pending
    requires s in db.rows && IsRecord(s) && s in store && s !in DeleteBlobs(store, AllBlobs(db, req, l), f.reply).0
    ensures GotToRecords(store, AllBlobs(db, req, l), f)
  {
    var blobs := AllBlobs(db, req, l);
    var n := DeleteBlobs(store, blobs, f.reply).1;
    DeletedOrLeft(store, blobs, f);
    BlobsCover(db, req, l);
    hide AllBlobs, DeleteBlobs;
    var i :| 0 <= i < |blobs| && i <= n && blobs[i].spot == s;
    assert blobs[i] in blobs && blobs[i].record;
    if n < |blobs| {
      assert blobs[..n + 1][i] == blobs[i];
    }
  }

  lemma BumpedVersion(db: Db, w: Db, req: Request, f: Faults, k: LunaKey)
    requires k in RecordLunas(db, req) && OnlyClaimed(db, w, req) && Version(w, k) > Version(db, k)
    ensures Version(CloseAfterError(db, w, req, f), k) > Version(db, k) <==> !f.commit.RolledBack?
    ensures Version(AfterFailedCommit(db, db, req, f), k) > Version(db, k) <==> !f.rebump(k)
    ensures Version(AfterFailedCommit(db, WithoutScope(w, req), req, f), k) > Version(db, k)
    ensures Version(WithoutScope(w, req), k) > Version(db, k)
  {
    hide RecordLunas, OnlyClaimed, Released, InScope;
    ReleasedVersion(w, Target(req), OldPurgeAfter(db, Target(req)), k);
    FailedCommitVersion(db, db, req, f, k);
    FailedCommitVersion(db, WithoutScope(w, req), req, f, k);
    hide AfterFailedCommit;
  }

  lemma ReleasedVersion(db: Db, target: LunaKey, was: int, k: LunaKey)
    ensures Version(Released(db, target, was), k) == Version(db, k)
  {
  }

  lemma FailedCommitVersion(db: Db, left: Db, req: Request, f: Faults, k: LunaKey)
    requires k in RecordLunas(db, req)
    ensures Version(AfterFailedCommit(db, left, req, f), k) == Version(left, k) + if f.rebump(k) then 0 else 1
  {
    ReleasedVersion(left, Target(req), OldPurgeAfter(db, Target(req)), k);
    hide RecordLunas, Released;
  }

  lemma DeletingRaises(db: Db, w: Db, store: set<Spot>, req: Request, blobs: seq<Blob>, f: Faults, k: LunaKey)
    requires k in RecordLunas(db, req) && OnlyClaimed(db, w, req) && Version(w, k) > Version(db, k)
    ensures Version(Deleting(db, w, store, req, blobs, f).db, k) > Version(db, k)
            <==> GotToRecords(store, blobs, f) && !BumpLost(db, store, req, blobs, f, k)
  {
    BumpedVersion(db, w, req, f, k);
    hide CloseAfterError, AfterFailedCommit, WithoutScope, DeleteBlobs, OnlyClaimed, RecordLunas, Version, RecordAmong;
  }

  /** If a live record's bytes went, the Luna's inventory version is raised, so that no open
      listing survives, exactly if the run got to the records and the bump is not lost with a
      commit. */
  lemma VersionRaisedIff(db: Db, store: set<Spot>, req: Request, l: Listing, f: Faults, s: Spot)
    requires Lists(db, req, l)
    requires s in db.rows && IsRecord(s) && s in store && s !in Purge(db, store, req, l, f).store
    ensures var (o, blobs) := (Purge(db, store, req, l, f), AllBlobs(db, req, l));
            Version(o.db, KeyOf(s)) > Version(db, KeyOf(s))
            <==> GotToRecords(store, blobs, f) && !BumpLost(db, store, req, blobs, f, KeyOf(s))
  {
    var k, blobs := KeyOf(s), AllBlobs(db, req, l);
    StoreLeft(db, store, req, l, f);
    GoneIsInScope(db, store, req, l, f, s);
    WorkingIs(db, req);
    PurgeIs(db, store, req, l, f);
    assert k in RecordLunas(db, req);
    var w := Working(db, req);
    assert Version(w, k) == Version(db, k) + 1;
    hide Purge, AllBlobs, DeleteBlobs, RecordLunas, Working, OnlyClaimed, BumpLost, GotToRecords, Deleting, Version;
    DeletingRaises(db, w, store, req, blobs, f, k);
  }

  lemma GoneIsInScope(db: Db, store: set<Spot>, req: Request, l: Listing, f: Faults, s: Spot)
    requires Lists(db, req, l) && s in store && s !in Purge(db, store, req, l, f).store
    ensures InScope(req, KeyOf(s))
  {
    TouchesOnlyScope(db, store, req, l, f);
    hide Purge;
  }

  /** Every run that takes a live record's bytes, and does not lose its commit, raises the version. */
  ghost predicate AlwaysRaises(db: Db, store: set<Spot>, req: Request, s: Spot) {
    forall l, f ::
      Lists(db, req, l) && s !in Purge(db, store, req, l, f).store
      && !BumpLost(db, store, req, AllBlobs(db, req, l), f, KeyOf(s))
      ==> Version(Purge(db, store, req, l, f).db, KeyOf(s)) > Version(db, KeyOf(s))
  }

  /** That is so exactly for the records no pending delete names. */
  lemma AlwaysRaisesIff(db: Db, store: set<Spot>, req: Request, s: Spot)
    requires Acts(db, req) && s in db.rows && IsRecord(s) && s in store && InScope(req, KeyOf(s))
    ensures AlwaysRaises(db, store, req, s) <==> s !in db.pending
  {
    if s in db.pending {
      var l := SomeListing(db, req);
      ReminderHidesRecord(db, store, req, l, s);
      hide *;
      NotAlways(db, store, req, s, l, StoreBreaks(s));
    } else {
      forall l, f | Lists(db, req, l) && s !in Purge(db, store, req, l, f).store
                    && !BumpLost(db, store, req, AllBlobs(db, req, l), f, KeyOf(s))
        ensures Version(Purge(db, store, req, l, f).db, KeyOf(s)) > Version(db, KeyOf(s))
      {
        StoreLeft(db, store, req, l, f);
        RecordReached(db, store, req, l, f, s);
        VersionRaisedIff(db, store, req, l, f, s);
      }
    }
  }

  lemma NotAlways(db: Db, store: set<Spot>, req: Request, s: Spot, l: Listing, f: Faults)
    requires Lists(db, req, l) && s !in Purge(db, store, req, l, f).store
    requires !BumpLost(db, store, req, AllBlobs(db, req, l), f, KeyOf(s))
    requires Version(Purge(db, store, req, l, f).db, KeyOf(s)) == Version(db, KeyOf(s))
    ensures !AlwaysRaises(db, store, req, s)
  {
    hide Purge, AllBlobs, BumpLost;
  }

  lemma SomeListing(db: Db, req: Request) returns (l: Listing)
    ensures Lists(db, req, l)
  {
    var packs := InOrder(set s | s in db.rows && s.path.Pack? && InScope(req, KeyOf(s)));
    var pending := InOrder(set s | s in db.pending && InScope(req, KeyOf(s)));
    var records := InOrder(set s | s in db.rows && s.path.Record? && InScope(req, KeyOf(s)));
    l := Listing(packs, pending, records);
  }

  lemma {:induction false} InOrder(spots: set<Spot>) returns (list: seq<Spot>)
    ensures forall s :: s in list <==> s in spots
    decreases |spots|
  {
    if spots == {} {
      list := [];
    } else {
      var s :| s in spots;
      var rest := InOrder(spots - {s});
      list := [s] + rest;
    }
  }

  /** The store takes the bytes of the reminder for `s` and reports an error; nothing else is wrong. */
  function StoreBreaks(s: Spot): Faults {
    Faults(false, false, false, false, false, false, false,
           (b: Blob) => if b.spot == s && !b.record then Broken(true) else Removed,
           false, false, false, Committed, false, _ => false)
  }

  /** Nothing goes wrong. */
  predicate Healthy(f: Faults) {
    && !f.setup && !f.claim && !f.scan && !f.noStore && !f.inventory && !f.bump && !f.savepoint
    && !f.rows && f.commit.Committed?
  }

  lemma {:induction false} AllDeleted(store: set<Spot>, blobs: seq<Blob>, f: Faults)
    requires forall b :: b in blobs ==> f.reply(b).Removed?
    ensures DeleteBlobs(store, blobs, f.reply).1 == |blobs|
  {
    if blobs != [] {
      AllDeleted(store - {blobs[0].spot}, blobs[1..], f);
    }
  }

  lemma HealthyCarries(db: Db, store: set<Spot>, req: Request, l: Listing, f: Faults)
    requires Lists(db, req, l) && Healthy(f) && Acts(db, req)
    requires forall b :: b in AllBlobs(db, req, l) ==> f.reply(b).Removed?
    ensures Purge(db, store, req, l, f).ok
    ensures Carried(db, store, req, AllBlobs(db, req, l), f, Purge(db, store, req, l, f))
  {
    AllDeleted(store, AllBlobs(db, req, l), f);
    PurgeEndings(db, store, req, l, f);
    hide AllBlobs, DeleteBlobs, CloseAfterError, AfterFailedCommit, WithoutScope, Bumped, RecordLunas, Claimed,
        ClaimKept;
    assert Purge(db, store, req, l, f).ok;
  }

  /** Whatever an earlier run left half done, a later run against a healthy store completes: no
      row, reminder, link or identity in scope is left, and no blob a row named is left either,
      apart from local ones the earlier run passed over as it dropped their rows. */
  lemma RetryCompletes(db: Db, store: set<Spot>, req: Request, l: Listing, f: Faults,
                       later: Request, l2: Listing, f2: Faults, s: Spot)
    requires Lists(db, req, l) && Acts(db, req)
    requires later.account == req.account && later.luna == req.luna && req.now <= later.now
    requires var o := Purge(db, store, req, l, f);
             && Lists(o.db, later, l2) && Healthy(f2)
             && (forall b :: b in AllBlobs(o.db, later, l2) ==> f2.reply(b).Removed?)
    requires InScope(req, KeyOf(s))
    ensures var o := Purge(db, store, req, l, f);
            var o2 := Purge(o.db, o.store, later, l2, f2);
            && o2.ok && ScopeGone(o.db, o2.db, later)
            && s !in o2.db.rows && s !in o2.db.pending && KeyOf(s) !in o2.db.lunas
            && (s in o.db.rows || s in o.db.pending ==> s !in o2.store)
            && Accounted(db, o2.store, s, f)
  {
    var o := Purge(db, store, req, l, f);
    PurgeEndings(db, store, req, l, f);
    hide Purge, AllBlobs, DeleteBlobs;
    assert Acts(o.db, later);
    HealthyCarries(o.db, o.store, later, l2, f2);
    var o2 := Purge(o.db, o.store, later, l2, f2);
    CarriedAccounts(o.db, o.store, later, l2, f2, o2, s);
    BlobsCover(o.db, later, l2);
    assert s in o.db.rows ==> Blob(s, o.db.rows[s], IsRecord(s)) in AllBlobs(o.db, later, l2);
    assert s in o.db.pending ==> Blob(s, o.db.pending[s], false) in AllBlobs(o.db, later, l2);
    if Stopped(db, store, req, o) {
    } else {
      CarriedAccounts(db, store, req, l, f, o, s);
      TouchesOnlyScope(o.db, o.store, later, l2, f2);
    }
  }

  lemma {:induction false} StopsAt(store: set<Spot>, blobs: seq<Blob>, s: Spot, n: nat)
    requires n < |blobs| && blobs[n].spot == s && !blobs[n].record
    requires forall i :: 0 <= i < n ==> blobs[i].spot != s || blobs[i].record
    ensures DeleteBlobs(store, blobs, StoreBreaks(s).reply).1 == n
    ensures s !in DeleteBlobs(store, blobs, StoreBreaks(s).reply).0
  {
    if n != 0 {
      var next := StoreAfter(store, blobs[0], Removed);
      assert blobs[1..][n - 1] == blobs[n];
      assert forall i :: 0 <= i < n - 1 ==> blobs[1..][i] == blobs[i + 1];
      StopsAt(next, blobs[1..], s, n - 1);
    }
  }

  /** The reminder for `s` among the blobs: everything up to it is a pack or a reminder. */
  lemma FirstReminder(db: Db, req: Request, l: Listing, s: Spot) returns (n: nat)
    requires Lists(db, req, l) && s in db.pending && InScope(req, KeyOf(s)) && IsRecord(s)
    ensures var blobs := AllBlobs(db, req, l);
            && n < |blobs| && blobs[n].spot == s
            && forall i :: 0 <= i <= n ==> !blobs[i].record && (i < n ==> blobs[i].spot != s)
  {
    n := 0;
    hide AllBlobs, InScope;
    while l.pending[n] != s
      invariant n < |l.pending| && exists m :: n <= m < |l.pending| && l.pending[m] == s
      invariant forall i :: 0 <= i < n ==> l.pending[i] != s
      decreases |l.pending| - n
    {
      n := n + 1;
    }
    var p, q := BlobsOf(db.rows, l.packs, false), BlobsOf(db.pending, l.pending, false);
    var blobs, k := AllBlobs(db, req, l), n;
    assert blobs == p + (q + BlobsOf(db.rows, l.records, true));
    n := |p| + k;
    hide AllBlobs;
    forall i | 0 <= i <= n
      ensures !blobs[i].record && (i < n ==> blobs[i].spot != s)
    {
      if i < |p| {
        assert blobs[i] == p[i] && l.packs[i] in l.packs;
      } else {
        assert blobs[i] == q[i - |p|];
      }
    }
  }

  /** With a reminder naming a live record the bump can be lost although nothing is wrong with
      the commit: the bytes go as a pending delete, the store then reports an error, and the
      run rolls back because no record delete had begun. */
  lemma ReminderHidesRecord(db: Db, store: set<Spot>, req: Request, l: Listing, s: Spot)
    requires Acts(db, req) && Lists(db, req, l) && InScope(req, KeyOf(s))
    requires s in db.rows && IsRecord(s) && s in db.pending
    ensures !BumpLost(db, store, req, AllBlobs(db, req, l), StoreBreaks(s), KeyOf(s))
    ensures var o := Purge(db, store, req, l, StoreBreaks(s));
            s !in o.store && s in o.db.rows && Version(o.db, KeyOf(s)) == Version(db, KeyOf(s))
  {
    var blobs, f := AllBlobs(db, req, l), StoreBreaks(s);
    var n := FirstReminder(db, req, l, s);
    hide AllBlobs;
    StopsAt(store, blobs, s, n);
    hide DeleteBlobs;
    forall b | b in blobs[..n + 1]
      ensures !b.record
    {
      var i :| 0 <= i <= n && blobs[..n + 1][i] == b;
    }
    hide Bumped, RecordLunas, Claimed, CloseAfterError, AfterFailedCommit, WithoutScope;
    assert Purge(db, store, req, l, f).db == db;
  }
}
