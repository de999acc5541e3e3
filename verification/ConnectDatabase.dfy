/** `purgeStorage` as the program runs it: a transaction on top of the committed database, a
    savepoint within it, and a blob store outside of it. */
module ConnectDatabase {
  import opened StorageRows
  import opened StoragePurge

  class Connect {
    /** What other connections see. */
    var committed: Db
    /** What the open transaction sees. */
    var working: Db
    var savepoint: Db
    var store: set<Spot>

    constructor (db: Db, store: set<Spot>)
      ensures committed == db && this.store == store
    {
      committed, working, savepoint := db, db, db;
      this.store := store;
    }

    /** One result set, read row by row. */
    method Collect(m: map<Spot, string>, spots: seq<Spot>, record: bool) returns (blobs: seq<Blob>)
      requires forall s :: s in spots ==> s in m
      ensures blobs == BlobsOf(m, spots, record)
    {
      blobs := [];
      for i := 0 to |spots|
        invariant |blobs| == i
        invariant forall j :: 0 <= j < i ==> blobs[j] == Blob(spots[j], m[spots[j]], record)
      {
        assert spots[i] in spots;
        blobs := blobs + [Blob(spots[i], m[spots[i]], record)];
      }
    }

    method BumpAll(ks: set<LunaKey>)
      modifies this`working
      ensures working == Bumped(old(working), ks)
    {
      var rest := ks;
      while rest != {}
        invariant rest <= ks
        invariant working == Bumped(old(working), ks - rest)
        decreases |rest|
      {
        var k :| k in rest;
        BumpOne(old(working), ks - rest, k);
        working := working.(versions := working.versions[k := Version(working, k) + 1]);
        assert ks - (rest - {k}) == (ks - rest) + {k};
        rest := rest - {k};
      }
      assert ks - rest == ks;
    }

    /** Delete blobs one after the other; `blocked` if one of them stopped the purge. */
    method DeleteAll(blobs: seq<Blob>, reply: Blob -> Reply) returns (blocked: bool, recordDeleteStarted: bool)
      modifies this`store
      ensures store == DeleteBlobs(old(store), blobs, reply).0
      ensures blocked <==> DeleteBlobs(old(store), blobs, reply).1 < |blobs|
      ensures blocked ==> (recordDeleteStarted <==>
                             RecordAmong(blobs, DeleteBlobs(old(store), blobs, reply).1 + 1))
    {
      recordDeleteStarted := false;
      var i := 0;
      while i < |blobs|
        invariant i <= |blobs|
        invariant DeleteBlobs(old(store), blobs, reply).0 == DeleteBlobs(store, blobs[i..], reply).0
        invariant DeleteBlobs(old(store), blobs, reply).1 == i + DeleteBlobs(store, blobs[i..], reply).1
        invariant recordDeleteStarted <==> exists b :: b in blobs[..i] && b.record
      {
        var b := blobs[i];
        assert blobs[i..][0] == b && blobs[i..][1..] == blobs[i + 1..];
        assert blobs[..i + 1] == blobs[..i] + [b];
        if b.record {
          recordDeleteStarted := true;
        }
        var r := reply(b);
        if r.Removed? || (r.Broken? && r.gone) {
          store := store - {b.spot};
        }
        if r.Broken? || (r.NotConfigured? && b.backend != "local") {
          return true, recordDeleteStarted;
        }
        i := i + 1;
      }
      return false, recordDeleteStarted;
    }

    /** `releaseClaim`, then commit: the exit after an error that keeps the version bumps. */
    method Close(req: Request, was: int, f: Faults)
      requires req.luna != "" ==> was == OldPurgeAfter(committed, Target(req))
      modifies this`committed, this`working
      ensures committed == CloseAfterError(old(committed), old(working), req, f)
    {
      if req.luna != "" && !f.release {
        working := Released(working, Target(req), was);
      }
      if !f.commit.RolledBack? {
        committed := working;
      }
    }

    method PurgeStorage(req: Request, l: Listing, f: Faults) returns (ok: bool)
      requires Lists(committed, req, l)
      modifies this
      ensures Outcome(committed, store, ok) == Purge(old(committed), old(store), req, l, f)
    {
      if req.account == "" {
        return true;
      }
      working := committed;
      if f.setup {
        return false;
      }
      var k, was := Target(req), 0;
      if req.luna != "" {
        if f.claim {
          return false;
        }
        if k in working.lunas {
          was := working.lunas[k];
          if was != -1 && (was <= 0 || req.now < was) {
            return true;
          }
          working := working.(lunas := working.lunas[k := -1]);
        }
      }
      assert k in committed.lunas && req.luna != "" ==> Claimable(committed.lunas[k], req.now);
      hide Claimable, InScope;
      if f.scan {
        return false;
      }
      var packs := Collect(working.rows, l.packs, false);
      var pending := Collect(working.pending, l.pending, false);
      if |packs + pending| > 0 && f.noStore {
        return false;
      }
      if f.inventory {
        return false;
      }
      var records := Collect(working.rows, l.records, true);
      var blobs := packs + pending + records;
      assert blobs == AllBlobs(old(committed), req, l);
      if |blobs| > 0 && f.noStore {
        return false;
      }
      hide AllBlobs;
      var recordLunas := RecordLunas(working, req);
      assert recordLunas == RecordLunas(old(committed), req);
      hide RecordLunas;
      BumpAll(recordLunas);
      if f.bump || f.savepoint {
        return false;
      }
      savepoint := working;
      hide Bumped, CloseAfterError, AfterFailedCommit, Released, DeleteBlobs;
      ok := FromSavepoint(req, was, blobs, recordLunas, f);
    }

    /** Everything after the savepoint was set. */
    method FromSavepoint(req: Request, was: int, blobs: seq<Blob>, recordLunas: set<LunaKey>, f: Faults)
      returns (ok: bool)
      requires savepoint == working
      requires req.luna != "" ==> was == OldPurgeAfter(committed, Target(req))
      requires recordLunas == RecordLunas(committed, req)
      modifies this
      ensures Outcome(committed, store, ok) == Deleting(old(committed), old(working), old(store), req, blobs, f)
    {
      hide Bumped, CloseAfterError, RecordLunas, DeleteBlobs, OldPurgeAfter, RecordAmong;
      var blocked, recordDeleteStarted := DeleteAll(blobs, f.reply);
      if blocked {
        if recordDeleteStarted {
          Close(req, was, f);
        }
        return false;
      }
      working := WithoutScope(working, req);
      hide WithoutScope;
      if f.rows {
        if f.rollbackTo {
          return false;
        }
        working := savepoint;
        Close(req, was, f);
        return false;
      }
      if !f.commit.RolledBack? {
        committed := working;
      }
      if f.commit.Committed? {
        return true;
      }
      ghost var left := committed;
      if req.luna != "" && !f.restore {
        committed := Released(committed, Target(req), was);
      }
      hide Released;
      working := committed;
      BumpAll(set k | k in recordLunas && !f.rebump(k));
      committed := working;
      return false;
    }
  }

  lemma BumpOne(db: Db, ks: set<LunaKey>, k: LunaKey)
    requires k !in ks
    ensures var w := Bumped(db, ks);
            w.(versions := w.versions[k := Version(w, k) + 1]) == Bumped(db, ks + {k})
  {
  }
}
