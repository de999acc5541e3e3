/** What each run of a purge leaves, told by accounts, Lunas, dates and counts. */
module PurgeOutcomes {
  import opened PurgeProofs
  import opened StoragePurge
  import opened StorageRows

  /** Of this account, and of this Luna if one is named. */
  predicate Meant(req: Request, account: string, luna: string) {
    account == req.account && (req.luna == "" || luna == req.luna)
  }

  /** The Luna named is unknown, claimed by a run that never finished, or past its date. Date 0 is a Luna
      that is linked. */
  predicate Due(db: Db, req: Request) {
    var k := LunaKey(req.account, req.luna);
    req.luna != "" && k in db.lunas ==> db.lunas[k] == -1 || 1 <= db.lunas[k] <= req.now
  }

  /** The Luna is meant and has record rows. */
  ghost predicate HasRecords(db: Db, req: Request, k: LunaKey) {
    && Meant(req, k.account, k.luna)
    && exists s :: s in db.rows && s.path.Record? && s.account == k.account && s.luna == k.luna
  }

  /** Versions as they were, or one up for each Luna meant that has records. */
  ghost predicate Raised(db: Db, db': Db, req: Request) {
    forall k :: Version(db', k) == Version(db, k) + if HasRecords(db, req, k) then 1 else 0
  }

  /** The first bump of a Luna makes its version 1, a later one adds 1, and no other Luna's changes. */
  lemma BumpCounts(db: Db, ks: set<LunaKey>, k: LunaKey)
    ensures Bumped(db, ks) == db.(versions := Bumped(db, ks).versions)
    ensures var v := Bumped(db, ks).versions;
            if k in ks then k in v && v[k] == (if k in db.versions then db.versions[k] + 1 else 1)
            else (k in v <==> k in db.versions) && (k in v ==> v[k] == db.versions[k])
  {
  }

  lemma RecordLunasAre(db: Db, req: Request)
    ensures forall k :: k in RecordLunas(db, req) <==> HasRecords(db, req, k)
  {
    forall k | HasRecords(db, req, k)
      ensures k in RecordLunas(db, req)
    {
      var s :| s in db.rows && s.path.Record? && s.account == k.account && s.luna == k.luna;
      assert KeyOf(s) == k;
    }
  }

  /** There is something of theirs to delete. */
  ghost predicate HasBlobs(db: Db, req: Request) {
    exists s: Spot :: Meant(req, s.account, s.luna) && (s in db.rows || s in db.pending)
  }

  lemma BlobsIff(db: Db, req: Request, l: Listing)
    requires Lists(db, req, l)
    ensures AllBlobs(db, req, l) != [] <==> HasBlobs(db, req)
  {
    BlobsCover(db, req, l);
    if s: Spot :| Meant(req, s.account, s.luna) && (s in db.rows || s in db.pending) {
      assert s in db.rows ==> Blob(s, db.rows[s], IsRecord(s)) in AllBlobs(db, req, l);
      assert s in db.pending ==> Blob(s, db.pending[s], false) in AllBlobs(db, req, l);
    }
    if AllBlobs(db, req, l) != [] {
      var b := AllBlobs(db, req, l)[0];
      assert b in AllBlobs(db, req, l) && Meant(req, b.spot.account, b.spot.luna);
    }
    hide AllBlobs;
  }

  /** One of the steps before the savepoint fails. */
  ghost predicate FailsEarly(db: Db, req: Request, f: Faults) {
    f.scan || f.inventory || f.bump || f.savepoint || (f.noStore && HasBlobs(db, req))
  }

  /** The exits before the savepoint leave everything as it was. An empty account and a Luna that is
      not due are no errors; anything else is. */
  lemma BeforeTheSavepoint(db: Db, store: set<Spot>, req: Request, l: Listing, f: Faults)
    requires Lists(db, req, l)
    ensures req.account == "" ==> Purge(db, store, req, l, f) == Outcome(db, store, true)
    ensures req.account != "" && (f.setup || (req.luna != "" && f.claim)) ==>
              Purge(db, store, req, l, f) == Outcome(db, store, false)
    ensures req.account != "" && !f.setup && !(req.luna != "" && f.claim) && !Due(db, req) ==>
              Purge(db, store, req, l, f) == Outcome(db, store, true)
    ensures req.account != "" && Due(db, req) && FailsEarly(db, req, f) ==>
              Purge(db, store, req, l, f) == Outcome(db, store, false)
    ensures Reaches(db, req, f) ==>
              Purge(db, store, req, l, f) == Deleting(db, Working(db, req), store, req, AllBlobs(db, req, l), f)
  {
    BlobsIff(db, req, l);
    hide AllBlobs, Deleting, Bumped, RecordLunas, Claimed, HasBlobs;
  }

  /** Nothing goes wrong before the savepoint. */
  ghost predicate Reaches(db: Db, req: Request, f: Faults) {
    req.account != "" && Due(db, req) && !f.setup && !(req.luna != "" && f.claim) && !FailsEarly(db, req, f)
  }

  /** The store lets the purge go on after a blob that is gone now, or was already, and after a local one when
      no backend is set up. */
  predicate LetsGoOn(b: Blob, reply: Reply) {
    match reply
    case Removed => true
    case NotConfigured => b.backend == "local"
    case Broken(_) => false
  }

  /** The bytes went, whatever the store said. */
  predicate TakesBytes(reply: Reply) {
    match reply
    case Removed => true
    case NotConfigured => false
    case Broken(gone) => gone
  }

  /** Blobs are deleted one after the other up to the first that does not let the purge go on, and that
      one's bytes may be gone as well; no other bytes go. */
  lemma {:induction false} DeletesUpTo(store: set<Spot>, blobs: seq<Blob>, f: Faults)
    ensures var (left, n) := DeleteBlobs(store, blobs, f.reply);
            && (forall i :: 0 <= i < n ==> LetsGoOn(blobs[i], f.reply(blobs[i])))
            && (n < |blobs| ==> !LetsGoOn(blobs[n], f.reply(blobs[n])))
            && forall s :: s in left <==> s in store && !TakenFrom(blobs, n, f, s)
  {
    if blobs != [] {
      var b := blobs[0];
      var next := StoreAfter(store, b, f.reply(b));
      var rest := blobs[1..];
      assert forall s :: s in next <==> s in store && !(b.spot == s && TakesBytes(f.reply(b)));
      if Passes(b, f.reply(b)) {
        DeletesUpTo(next, rest, f);
        var (left, n) := DeleteBlobs(next, rest, f.reply);
        assert DeleteBlobs(store, blobs, f.reply) == (left, n + 1);
        assert forall i :: 0 < i <= n ==> blobs[i] == rest[i - 1];
        forall s
          ensures TakenFrom(blobs, n + 1, f, s) <==> (b.spot == s && TakesBytes(f.reply(b))) || TakenFrom(rest, n, f, s)
        {
          TakenNext(blobs, n, f, s);
        }
      } else {
        assert forall s :: TakenFrom(blobs, 0, f, s) <==> b.spot == s && TakesBytes(f.reply(b));
      }
    }
  }

  /** The bytes went with one of the blobs up to and including number `n`. */
  ghost predicate TakenFrom(blobs: seq<Blob>, n: nat, f: Faults, s: Spot) {
    exists i :: 0 <= i < |blobs| && i <= n && blobs[i].spot == s && TakesBytes(f.reply(blobs[i]))
  }

  lemma TakenNext(blobs: seq<Blob>, n: nat, f: Faults, s: Spot)
    requires blobs != []
    ensures TakenFrom(blobs, n + 1, f, s)
            <==> (blobs[0].spot == s && TakesBytes(f.reply(blobs[0]))) || TakenFrom(blobs[1..], n, f, s)
  {
    if i :| 0 <= i < |blobs[1..]| && i <= n && blobs[1..][i].spot == s && TakesBytes(f.reply(blobs[1..][i])) {
      assert blobs[i + 1] == blobs[1..][i];
    }
    if i :| 0 < i < |blobs| && i <= n + 1 && blobs[i].spot == s && TakesBytes(f.reply(blobs[i])) {
      assert blobs[1..][i - 1] == blobs[i];
    }
  }

  /** Nothing is gone; the date of the Luna named is back, unless putting it back failed. */
  ghost predicate GivenBack(db: Db, db': Db, req: Request, f: Faults) {
    var k := LunaKey(req.account, req.luna);
    && db'.rows == db.rows && db'.pending == db.pending && db'.links == db.links
    && db'.lunas == (if req.luna != "" && k in db.lunas && f.release then db.lunas[k := -1] else db.lunas)
    && Raised(db, db', req)
  }

  /** Exactly the rows and reminders meant are gone. */
  ghost predicate BlobsGone(db: Db, db': Db, req: Request) {
    && (forall s :: s in db'.rows <==> s in db.rows && !Meant(req, s.account, s.luna))
    && (forall s :: s in db'.rows ==> db'.rows[s] == db.rows[s])
    && (forall s :: s in db'.pending <==> s in db.pending && !Meant(req, s.account, s.luna))
    && (forall s :: s in db'.pending ==> db'.pending[s] == db.pending[s])
  }

  /** Exactly the share links and Lunas meant are gone. */
  ghost predicate LunasGone(db: Db, db': Db, req: Request) {
    && (forall i :: i in db'.links <==> i in db.links && !Meant(req, db.links[i].account, db.links[i].luna))
    && (forall i :: i in db'.links ==> db'.links[i] == db.links[i])
    && (forall k :: k in db'.lunas <==> k in db.lunas && !Meant(req, k.account, k.luna))
    && (forall k :: k in db'.lunas ==> db'.lunas[k] == db.lunas[k])
  }

  ghost predicate MeantIsGone(db: Db, db': Db, req: Request) {
    BlobsGone(db, db', req) && LunasGone(db, db', req)
  }

  /** Only versions differ, by the bumps made on their own after the commit failed. */
  ghost predicate OnlyRebumped(db: Db, db': Db, req: Request, f: Faults) {
    && db' == db.(versions := db'.versions)
    && forall k :: Version(db', k) == Version(db, k) + if HasRecords(db, req, k) && !f.rebump(k) then 1 else 0
  }

  /** The versions went up in the commit, and again by the bumps after it. */
  ghost predicate RaisedTwice(db: Db, db': Db, req: Request, f: Faults) {
    forall k ::
      Version(db', k) == Version(db, k) + (if !HasRecords(db, req, k) then 0 else if f.rebump(k) then 1 else 2)
  }

  lemma WorkingVersions(db: Db, req: Request)
    ensures Raised(db, Working(db, req), req)
  {
    RecordLunasAre(db, req);
    hide RecordLunas, HasRecords;
  }

  lemma SameVersions(db: Db, a: Db, b: Db, req: Request)
    requires Raised(db, a, req) && b.versions == a.versions
    ensures Raised(db, b, req)
  {
    hide HasRecords;
  }

  /** At the savepoint the Luna named is claimed and nothing is gone. */
  predicate JustClaimed(db: Db, w: Db, req: Request) {
    var k := LunaKey(req.account, req.luna);
    && w.rows == db.rows && w.pending == db.pending && w.links == db.links
    && w.lunas == if req.luna != "" && k in db.lunas then db.lunas[k := -1] else db.lunas
  }

  lemma WorkingClaims(db: Db, req: Request)
    ensures JustClaimed(db, Working(db, req), req)
  {
    hide RecordLunas;
  }

  lemma ClosedClaim(db: Db, w: Db, req: Request, f: Faults)
    requires JustClaimed(db, w, req)
    ensures var c := CloseAfterError(db, w, req, f);
            if f.commit.RolledBack? then c == db
            else
              && c == w.(lunas := c.lunas)
              && c.lunas == if req.luna != "" && LunaKey(req.account, req.luna) in db.lunas && f.release then w.lunas
                            else db.lunas
  {
  }

  lemma ClosedIs(db: Db, req: Request, f: Faults)
    ensures f.commit.RolledBack? ==> CloseAfterError(db, Working(db, req), req, f) == db
    ensures !f.commit.RolledBack? ==> GivenBack(db, CloseAfterError(db, Working(db, req), req, f), req, f)
  {
    var w := Working(db, req);
    WorkingVersions(db, req);
    WorkingClaims(db, req);
    hide Working, Raised;
    ClosedClaim(db, w, req, f);
    hide CloseAfterError;
    if !f.commit.RolledBack? {
      SameVersions(db, w, CloseAfterError(db, w, req, f), req);
    }
  }

  lemma GoneIs(db: Db, req: Request)
    requires req.account != ""
    ensures MeantIsGone(db, WithoutScope(Working(db, req), req), req)
    ensures Raised(db, WithoutScope(Working(db, req), req), req)
  {
    var w := Working(db, req);
    WorkingVersions(db, req);
    SameVersions(db, w, WithoutScope(w, req), req);
    WorkingIs(db, req);
    hide Working, Raised;
    ScopeIsMeant(db, w, req);
  }

  lemma ScopeIsMeant(db: Db, w: Db, req: Request)
    requires OnlyClaimed(db, w, req)
    ensures MeantIsGone(db, WithoutScope(w, req), req)
  {
    BlobsAreMeant(db, w, req);
    LunasAreMeant(db, w, req);
    hide OnlyClaimed, WithoutScope, BlobsGone, LunasGone;
  }

  lemma BlobsAreMeant(db: Db, w: Db, req: Request)
    requires w.rows == db.rows && w.pending == db.pending
    ensures BlobsGone(db, WithoutScope(w, req), req)
  {
  }

  lemma LunasAreMeant(db: Db, w: Db, req: Request)
    requires OnlyClaimed(db, w, req)
    ensures LunasGone(db, WithoutScope(w, req), req)
  {
  }

  lemma RolledBackIs(db: Db, req: Request, f: Faults)
    ensures OnlyRebumped(db, AfterFailedCommit(db, db, req, f), req, f)
  {
    RecordLunasAre(db, req);
    hide RecordLunas, HasRecords;
    assert Released(db, Target(req), OldPurgeAfter(db, Target(req))) == db;
    hide Released;
  }

  lemma UnsureIs(db: Db, left: Db, req: Request, f: Faults)
    requires MeantIsGone(db, left, req) && Raised(db, left, req)
    ensures MeantIsGone(db, AfterFailedCommit(db, left, req, f), req)
    ensures RaisedTwice(db, AfterFailedCommit(db, left, req, f), req, f)
  {
    var end := AfterFailedCommit(db, left, req, f);
    assert LunaKey(req.account, req.luna) !in left.lunas;
    NothingToPutBack(db, left, req, f);
    SameGone(db, left, end, req);
    hide AfterFailedCommit, MeantIsGone, HasRecords;
  }

  lemma NothingToPutBack(db: Db, left: Db, req: Request, f: Faults)
    requires LunaKey(req.account, req.luna) !in left.lunas
    ensures var end := AfterFailedCommit(db, left, req, f);
            && end == left.(versions := end.versions)
            && forall k :: Version(end, k) == Version(left, k) + if HasRecords(db, req, k) && !f.rebump(k) then 1 else 0
  {
    RecordLunasAre(db, req);
    hide RecordLunas, HasRecords;
  }

  lemma SameGone(db: Db, left: Db, end: Db, req: Request)
    requires MeantIsGone(db, left, req) && end == left.(versions := end.versions)
    ensures MeantIsGone(db, end, req)
  {
    hide Meant;
  }

  /** A record's blob was reached. */
  ghost predicate CameToRecord(blobs: seq<Blob>, n: nat) {
    exists i :: 0 <= i < |blobs| && i <= n && blobs[i].record
  }

  lemma RecordAmongIs(blobs: seq<Blob>, n: nat)
    requires n < |blobs|
    ensures RecordAmong(blobs, n + 1) <==> CameToRecord(blobs, n)
  {
    if CameToRecord(blobs, n) {
      var i :| 0 <= i < |blobs| && i <= n && blobs[i].record;
      assert blobs[..n + 1][i] == blobs[i];
    }
  }

  /** What a run leaves once it has come to deleting blobs. Stopped by a blob, it keeps its bumps and gives the
      Luna back if it came to a record's blob, and nothing otherwise. With all blobs behind it, it is
      decided by the rows and by what becomes of the commit. */
  lemma AfterTheSavepoint(db: Db, store: set<Spot>, req: Request, l: Listing, f: Faults)
    requires Lists(db, req, l) && Reaches(db, req, f)
    ensures var o, blobs := Purge(db, store, req, l, f), AllBlobs(db, req, l);
            var (left, n) := DeleteBlobs(store, blobs, f.reply);
            && o.store == left
            && (n < |blobs| || f.rows ==>
                  && !o.ok
                  && if (if n < |blobs| then CameToRecord(blobs, n) else !f.rollbackTo) && !f.commit.RolledBack?
                     then GivenBack(db, o.db, req, f) else o.db == db)
            && (n == |blobs| && !f.rows ==>
                  && (o.ok <==> f.commit.Committed?)
                  && (f.commit.Committed? ==> MeantIsGone(db, o.db, req) && Raised(db, o.db, req))
                  && (f.commit.RolledBack? ==> OnlyRebumped(db, o.db, req, f))
                  && (f.commit.Unsure? ==> MeantIsGone(db, o.db, req) && RaisedTwice(db, o.db, req, f)))
  {
    var blobs, w := AllBlobs(db, req, l), Working(db, req);
    var n := DeleteBlobs(store, blobs, f.reply).1;
    BeforeTheSavepoint(db, store, req, l, f);
    if n < |blobs| {
      RecordAmongIs(blobs, n);
    }
    ClosedIs(db, req, f);
    GoneIs(db, req);
    RolledBackIs(db, req, f);
    UnsureIs(db, WithoutScope(w, req), req, f);
    hide Purge, AllBlobs, DeleteBlobs, CloseAfterError, AfterFailedCommit, WithoutScope, Working, GivenBack,
        MeantIsGone, Raised, OnlyRebumped, RaisedTwice, CameToRecord, RecordAmong, Reaches;
  }

  lemma {:induction false} AllTaken(store: set<Spot>, blobs: seq<Blob>, f: Faults)
    requires forall b :: b in blobs ==> f.reply(b).Removed?
    ensures var (left, n) := DeleteBlobs(store, blobs, f.reply);
            n == |blobs| && forall s :: s in left <==> s in store && !exists b :: b in blobs && b.spot == s
  {
    AllDeleted(store, blobs, f);
    DeletesUpTo(store, blobs, f);
    hide DeleteBlobs;
    forall s
      ensures TakenFrom(blobs, |blobs|, f, s) <==> exists b :: b in blobs && b.spot == s
    {
      if b :| b in blobs && b.spot == s {
        var i :| 0 <= i < |blobs| && blobs[i] == b;
      }
    }
  }

  /** With nothing going wrong, a purge that is due takes exactly what is meant, rows and bytes, and raises the
      versions; one that is not due takes nothing. */
  lemma HealthyPurge(db: Db, store: set<Spot>, req: Request, l: Listing, f: Faults)
    requires Lists(db, req, l) && req.account != "" && Healthy(f)
    requires forall b :: b in AllBlobs(db, req, l) ==> f.reply(b).Removed?
    ensures var o := Purge(db, store, req, l, f);
            && o.ok
            && (!Due(db, req) ==> o.db == db && o.store == store)
            && (Due(db, req) ==>
                  && MeantIsGone(db, o.db, req) && Raised(db, o.db, req)
                  && forall s :: s in o.store <==>
                       s in store && !(Meant(req, s.account, s.luna) && (s in db.rows || s in db.pending)))
  {
    var blobs := AllBlobs(db, req, l);
    BeforeTheSavepoint(db, store, req, l, f);
    BlobsCover(db, req, l);
    AllTaken(store, blobs, f);
    hide Purge, AllBlobs, DeleteBlobs, Deleting, MeantIsGone, Raised, HasBlobs;
    if Due(db, req) {
      AfterTheSavepoint(db, store, req, l, f);
      forall s: Spot
        ensures (exists b :: b in blobs && b.spot == s)
                <==> Meant(req, s.account, s.luna) && (s in db.rows || s in db.pending)
      {
        assert s in db.rows && InScope(req, KeyOf(s)) ==> Blob(s, db.rows[s], IsRecord(s)).spot == s;
        assert s in db.pending && InScope(req, KeyOf(s)) ==> Blob(s, db.pending[s], false).spot == s;
      }
    }
  }

  /** A purge of one Luna never widens to the account: with an empty id nothing happens. */
  lemma NoLunaNoPurge(db: Db, store: set<Spot>, req: Request, l: Listing, f: Faults)
    requires Lists(db, req, l)
    ensures req.luna == "" ==> PurgeLuna(db, store, req, l, f) == Outcome(db, store, true)
    ensures req.luna != "" ==> PurgeLuna(db, store, req, l, f) == Purge(db, store, req, l, f)
  {
    hide Purge;
  }
}
