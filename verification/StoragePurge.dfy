/** Purging an account's, or one Luna's, cloud storage: one transaction around blob deletes
    that cannot be taken back, with an error exit at every step. */
module StoragePurge {
  import opened StorageRows

  /** An empty `luna` means every Luna on the account. */
  datatype Request = Request(account: string, luna: string, now: int)

  predicate InScope(req: Request, k: LunaKey) {
    k.account == req.account && (req.luna == "" || k.luna == req.luna)
  }

  function Target(req: Request): LunaKey {
    LunaKey(req.account, req.luna)
  }

  /** A blob to delete, as a row named it; `record` marks those found as record rows. */
  datatype Blob = Blob(spot: Spot, backend: string, record: bool)

  /** The order the database returns rows in. */
  datatype Listing = Listing(packs: seq<Spot>, pending: seq<Spot>, records: seq<Spot>)

  ghost predicate Lists(db: Db, req: Request, l: Listing) {
    && (forall s :: s in l.packs <==> s in db.rows && s.path.Pack? && InScope(req, KeyOf(s)))
    && (forall s :: s in l.pending <==> s in db.pending && InScope(req, KeyOf(s)))
    && (forall s :: s in l.records <==> s in db.rows && s.path.Record? && InScope(req, KeyOf(s)))
  }

  /** `Removed`: no error, or the blob was already gone. `Broken` is any other error; the
      bytes may be gone all the same. */
  datatype Reply = Removed | NotConfigured | Broken(gone: bool)

  /** `Unsure`: the commit took effect and was reported as failed. */
  datatype CommitReply = Committed | RolledBack | Unsure

  /** What goes wrong; each flag is set when that step fails. */
  datatype Faults = Faults(
    setup: bool,                    // begin, or the account lock
    claim: bool,                    // reading or claiming the Luna's row
    scan: bool,                     // listing Lunas, packs or pending deletes
    noStore: bool,                  // no blob store is configured
    inventory: bool,                // the inventory locks, or listing records under them
    bump: bool,
    savepoint: bool,
    reply: Blob -> Reply,
    rows: bool,                     // deleting rows of some table, or `finalize`
    rollbackTo: bool,
    release: bool,
    commit: CommitReply,
    restore: bool,
    rebump: LunaKey -> bool)

  datatype Outcome = Outcome(db: Db, store: set<Spot>, ok: bool)

  /** Due, or claimed by a purge that never finished. */
  predicate Claimable(purgeAfter: int, now: int) {
    purgeAfter == -1 || 0 < purgeAfter <= now
  }

  function Claimed(db: Db, k: LunaKey): Db {
    if k in db.lunas then db.(lunas := db.lunas[k := -1]) else db
  }

  /** `purge_after` goes back to `was` where it is still -1. */
  function Released(db: Db, k: LunaKey, was: int): Db {
    if k in db.lunas && db.lunas[k] == -1 then db.(lunas := db.lunas[k := was]) else db
  }

  function OldPurgeAfter(db: Db, k: LunaKey): int {
    if k in db.lunas then db.lunas[k] else 0
  }

  function BlobsOf(m: map<Spot, string>, spots: seq<Spot>, record: bool): (blobs: seq<Blob>)
    requires forall s :: s in spots ==> s in m
    ensures |blobs| == |spots|
    ensures forall i :: 0 <= i < |spots| ==> blobs[i] == Blob(spots[i], m[spots[i]], record)
  {
    seq(|spots|, i requires 0 <= i < |spots| => assert spots[i] in spots; Blob(spots[i], m[spots[i]], record))
  }

  /** Packs first, then pending deletes, then records. */
  function AllBlobs(db: Db, req: Request, l: Listing): seq<Blob>
    requires Lists(db, req, l)
  {
    BlobsOf(db.rows, l.packs, false) + BlobsOf(db.pending, l.pending, false) + BlobsOf(db.rows, l.records, true)
  }

  /** The Lunas whose record rows go. */
  function RecordLunas(db: Db, req: Request): set<LunaKey> {
    set s | s in db.rows && s.path.Record? && InScope(req, KeyOf(s)) :: KeyOf(s)
  }

  /** May the purge go on after this answer? A local blob counts as gone when its backend is
      not set up. */
  predicate Passes(b: Blob, reply: Reply) {
    reply.Removed? || (reply.NotConfigured? && b.backend == "local")
  }

  function StoreAfter(store: set<Spot>, b: Blob, reply: Reply): set<Spot> {
    if reply.Removed? || (reply.Broken? && reply.gone) then store - {b.spot} else store
  }

  /** Delete blobs in order up to the first that does not pass; how many passed. */
  function DeleteBlobs(store: set<Spot>, blobs: seq<Blob>, reply: Blob -> Reply): (r: (set<Spot>, nat))
    ensures r.1 <= |blobs|
  {
    if blobs == [] then (store, 0)
    else
      var b := blobs[0];
      var next := StoreAfter(store, b, reply(b));
      if !Passes(b, reply(b)) then (next, 0)
      else
        var (end, n) := DeleteBlobs(next, blobs[1..], reply);
        (end, n + 1)
  }

  /** Rows, reminders, share links and Luna identities in scope are gone. */
  function WithoutScope(db: Db, req: Request): Db {
    db.(rows := map s | s in db.rows && !InScope(req, KeyOf(s)) :: db.rows[s],
        pending := map s | s in db.pending && !InScope(req, KeyOf(s)) :: db.pending[s],
        links := map i | i in db.links && !InScope(req, db.links[i]) :: db.links[i],
        lunas := map k | k in db.lunas && !InScope(req, k) :: db.lunas[k])
  }

  /** An error exit that keeps the version bumps: give the claim back and commit. */
  function CloseAfterError(db: Db, working: Db, req: Request, f: Faults): Db {
    if f.commit.RolledBack? then db
    else if req.luna != "" && !f.release then Released(working, Target(req), OldPurgeAfter(db, Target(req)))
    else working
  }

  /** The final commit failed: put the claim right and bump the inventories on their own. */
  function AfterFailedCommit(db: Db, left: Db, req: Request, f: Faults): Db {
    var restored := if req.luna != ""
        && !f.restore then Released(left, Target(req), OldPurgeAfter(db, Target(req))) else left;
    Bumped(restored, set k | k in RecordLunas(db, req) && !f.rebump(k))
  }

  /** `purgeStorage`. */
  function Purge(db: Db, store: set<Spot>, req: Request, l: Listing, f: Faults): Outcome
    requires Lists(db, req, l)
  {
    var k := Target(req);
    if req.account == "" then Outcome(db, store, true)
    else if f.setup || (req.luna != "" && f.claim) then Outcome(db, store, false)
    else if req.luna != "" && k in db.lunas && !Claimable(db.lunas[k], req.now) then Outcome(db, store, true)
    else
      var blobs := AllBlobs(db, req, l);
      if f.scan || (blobs != [] && f.noStore) || f.inventory || f.bump || f.savepoint then Outcome(db, store, false)
      else
        var claimed := if req.luna != "" then Claimed(db, k) else db;
        Deleting(db, Bumped(claimed, RecordLunas(db, req)), store, req, blobs, f)
  }

  /** Is one of the first `n` a record's blob? */
  predicate RecordAmong(blobs: seq<Blob>, n: nat)
    requires n <= |blobs|
  {
    exists b :: b in blobs[..n] && b.record
  }

  /** From the savepoint on: `working` is what the transaction has written so far. */
  function Deleting(db: Db, working: Db, store: set<Spot>, req: Request, blobs: seq<Blob>, f: Faults): Outcome {
    var (left, n) := DeleteBlobs(store, blobs, f.reply);
    if n < |blobs| then
      var recordDeleteStarted := RecordAmong(blobs, n + 1);
      Outcome(if recordDeleteStarted then CloseAfterError(db, working, req, f) else db, left, false)
    else if f.rows then
      Outcome(if f.rollbackTo then db else CloseAfterError(db, working, req, f), left, false)
    else
      match f.commit
      case Committed => Outcome(WithoutScope(working, req), left, true)
      case RolledBack => Outcome(AfterFailedCommit(db, db, req, f), left, false)
      case Unsure => Outcome(AfterFailedCommit(db, WithoutScope(working, req), req, f), left, false)
  }

  /** `PurgeLunaStorage`: an empty id deletes nothing. */
  function PurgeLuna(db: Db, store: set<Spot>, req: Request, l: Listing, f: Faults): Outcome
    requires Lists(db, req, l)
  {
    if req.luna == "" then Outcome(db, store, true) else Purge(db, store, req, l, f)
  }
}
