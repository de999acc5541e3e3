/** Luna Connect's cloud storage: database rows that name blobs, and the blob store. */
module StorageRows {

  /** `packs/<id>` or `records/<kind>/<name>`. */
  datatype Path = Pack(id: string) | Record(kind: string, name: string)

  /** A blob's address; the store keeps it under `storage-<luna>` of the account. */
  datatype Spot = Spot(account: string, luna: string, path: Path)

  datatype LunaKey = LunaKey(account: string, luna: string)

  function KeyOf(s: Spot): LunaKey {
    LunaKey(s.account, s.luna)
  }

  /** `rows` are the pack and record rows and `pending` the delayed deletes, each with the
      backend it recorded; `lunas` holds `purge_after`. A missing version reads as 0. */
  datatype Db = Db(
    rows: map<Spot, string>,
    pending: map<Spot, string>,
    links: map<string, LunaKey>,
    lunas: map<LunaKey, int>,
    versions: map<LunaKey, nat>)

  function Version(db: Db, k: LunaKey): nat {
    if k in db.versions then db.versions[k] else 0
  }

  /** `BumpStorageRecordVersion` for each of the Lunas. */
  function Bumped(db: Db, ks: set<LunaKey>): Db {
    db.(versions := db.versions + map k | k in ks :: Version(db, k) + 1)
  }

  /** The record rows named like this. */
  predicate IsRecord(s: Spot) {
    s.path.Record?
  }
}
