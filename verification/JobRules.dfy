/** Which saves of a folder upload or a sync are accepted, and what the list of jobs is afterwards. */
module JobRules {
  import opened JobBook
  import opened LunaFolders

  /** A drive id has letters, digits, dashes and underscores, and no name of the path climbs or holds the end
      of a text. */
  predicate PlaceIsGood(drive: string, path: string) {
    && drive != ""
    && (forall c :: c in drive ==> 'a' <= c <= 'z' || 'A' <= c <= 'Z' || '0' <= c <= '9' || c in "-_")
    && ".." !in Segments(path)
    && forall s :: s in Segments(path) ==> '\0' !in s
  }

  lemma GoodIff(drive: string, path: string)
    ensures ValidFolder(drive, path) <==> PlaceIsGood(drive, path)
  {
    hide Segments;
  }

  /** On one drive, and nested when both paths are normalized again. */
  predicate Collides(x: Job, job: Job) {
    x.drive == job.drive && Nested(Again(Segments(x.path)), Again(Segments(job.path)))
  }

  /** One of these jobs, other than those with the id, is in the job's way. */
  ghost predicate SomeCollides(jobs: seq<Job>, job: Job, id: string) {
    exists x :: x in jobs && x.id != id && Collides(x, job)
  }

  ghost predicate AnyCollides(jobs: seq<Job>, job: Job) {
    exists x :: x in jobs && Collides(x, job)
  }

  lemma WayIff(jobs: seq<Job>, job: Job)
    ensures AnyInTheWay(jobs, job.id, job.drive, Normalize(job.path)) <==> SomeCollides(jobs, job, job.id)
    ensures (exists i :: 0 <= i < |jobs| && InTheWay(jobs[i], job.drive, Normalize(job.path)))
            <==> AnyCollides(jobs, job)
  {
    forall x
      ensures InTheWay(x, job.drive, Normalize(job.path)) <==> Collides(x, job)
    {
      CheckIs(x, job);
    }
    hide InTheWay, Normalize, Collides;
    if x :| x in jobs && x.id != job.id && Collides(x, job) {
      var i :| 0 <= i < |jobs| && jobs[i] == x;
    }
    if x :| x in jobs && Collides(x, job) {
      var i :| 0 <= i < |jobs| && jobs[i] == x;
    }
    if i :| 0 <= i < |jobs| && jobs[i].id != job.id && InTheWay(jobs[i], job.drive, Normalize(job.path)) {
      assert jobs[i] in jobs;
    }
  }

  /** The job takes the place of the first with its id, or comes last, under a new id if it has none. */
  ghost predicate PutIn(before: seq<Job>, after: seq<Job>, job: Job, newId: string) {
    if i :| 0 <= i < |before| && before[i].id == job.id && forall j :: 0 <= j < i ==> before[j].id != job.id
    then after == before[..i] + [job] + before[i + 1..]
    else after == before + [Job(if job.id == "" then newId else job.id, job.drive, job.path)]
  }

  lemma FiledIs(jobs: seq<Job>, job: Job, newId: string)
    ensures PutIn(jobs, Filed(jobs, job, newId), job, newId)
  {
    var i := Position(jobs, job.id);
    hide Position;
    if i < |jobs| {
      assert jobs[i := job] == jobs[..i] + [job] + jobs[i + 1..];
      assert forall k :: 0 <= k < |jobs| && jobs[k].id == job.id && (forall j :: 0 <= j < k ==> jobs[j].id != job.id)
                         ==> k == i;
    }
  }

  /** A folder upload is saved, as it was typed, exactly if its folders here and its place on Luna are good and
      no other job has a folder in its way. */
  lemma BackupSavedIff(b: Book, job: Job, here: bool, newId: string)
    ensures var after := After(b, SaveBackup(job, here, newId));
            && after.syncs == b.syncs
            && if here && PlaceIsGood(job.drive, job.path)
                  && !SomeCollides(b.backups, job, job.id) && !AnyCollides(b.syncs, job)
               then PutIn(b.backups, after.backups, job, newId)
               else after.backups == b.backups
  {
    GoodIff(job.drive, job.path);
    WayIff(b.backups, job);
    WayIff(b.syncs, job);
    FiledIs(b.backups, job, newId);
    hide ValidFolder, PlaceIsGood, AnyInTheWay, InTheWay, SomeCollides, AnyCollides, Filed, PutIn, Normalize;
  }

  /** A sync is saved under its own id or a new one, with its path normalized, exactly if the same is so. */
  lemma SyncSavedIff(b: Book, job: Job, here: bool, newId: string)
    ensures var after := After(b, SaveSync(job, here, newId));
            && after.backups == b.backups
            && if here && PlaceIsGood(job.drive, job.path)
                  && !SomeCollides(b.syncs, job, job.id) && !AnyCollides(b.backups, job)
               then PutIn(b.syncs, after.syncs,
                          Job(if job.id == "" then newId else job.id, job.drive, Normalize(job.path)), newId)
               else after.syncs == b.syncs
  {
    GoodIff(job.drive, job.path);
    WayIff(b.syncs, job);
    WayIff(b.backups, job);
    var stored := Job(if job.id == "" then newId else job.id, job.drive, Normalize(job.path));
    FiledIs(b.syncs, stored, newId);
    hide ValidFolder, PlaceIsGood, AnyInTheWay, InTheWay, SomeCollides, AnyCollides, Filed, PutIn, Normalize;
  }
}
