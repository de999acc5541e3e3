/** The folder uploads and syncs a computer is set up with, and the rule that keeps their
    folders on Luna apart. */
module JobBook {
  import opened LunaFolders
  import opened Text

  /** What matters of a folder upload or a sync here: its id and its place on Luna. */
  datatype Job = Job(id: string, drive: string, path: string)

  datatype Book = Book(backups: seq<Job>, syncs: seq<Job>)

  /** `validate_luna_folder` accepts the place. */
  predicate ValidFolder(drive: string, path: string) {
    && drive != ""
    && (forall c :: c in drive ==> 'A' <= c <= 'Z' || 'a' <= c <= 'z' || '0' <= c <= '9' || c == '-' || c == '_')
    && (forall s :: s in Segments(path) ==> s != ".." && '\0' !in s)
  }

  /** Does a job stand in the way of a folder? `path` is normalized already, the job's is not. */
  predicate InTheWay(other: Job, drive: string, path: string) {
    other.drive == drive && PathsOverlap(Normalize(other.path), path)
  }

  predicate AnyInTheWay(jobs: seq<Job>, skipId: string, drive: string, path: string) {
    exists i :: 0 <= i < |jobs| && jobs[i].id != skipId && InTheWay(jobs[i], drive, path)
  }

  /** The first job with that id, or the number of jobs. */
  function Position(jobs: seq<Job>, id: string): (i: nat)
    ensures i <= |jobs|
    ensures i < |jobs| ==> jobs[i].id == id
    ensures forall j :: 0 <= j < i ==> jobs[j].id != id
  {
    if jobs == [] || jobs[0].id == id then 0 else 1 + Position(jobs[1..], id)
  }

  /** A job without an id gets a new one. */
  function Named(job: Job, newId: string): Job {
    if job.id == "" then job.(id := newId) else job
  }

  /** Replace the job with that id, or add it under a name of its own. */
  function Filed(jobs: seq<Job>, job: Job, newId: string): seq<Job> {
    var i := Position(jobs, job.id);
    if i < |jobs| then jobs[i := job] else jobs + [Named(job, newId)]
  }

  /** An edit; `here` says whether its folders on this computer pass their own checks. */
  datatype Edit =
    | SaveBackup(job: Job, here: bool, newId: string)
    | SaveSync(job: Job, here: bool, newId: string)
    | DeleteBackup(id: string)
    | DeleteSync(id: string)

  function Others(jobs: seq<Job>, id: string): seq<Job> {
    if jobs == [] then [] else (if jobs[0].id != id then [jobs[0]] else []) + Others(jobs[1..], id)
  }

  /** A sync is named first and stored under its normalized path, an upload as it was typed. */
  function After(b: Book, e: Edit): Book {
    match e
    case SaveBackup(job, here, newId) =>
      var path := Normalize(job.path);
      if !here || !ValidFolder(job.drive, job.path)
         || AnyInTheWay(b.backups, job.id, job.drive, path)
         || exists i :: 0 <= i < |b.syncs| && InTheWay(b.syncs[i], job.drive, path)
      then b
      else b.(backups := Filed(b.backups, job, newId))
    case SaveSync(job, here, newId) =>
      var path := Normalize(job.path);
      if !here || !ValidFolder(job.drive, job.path)
         || AnyInTheWay(b.syncs, job.id, job.drive, path)
         || exists i :: 0 <= i < |b.backups| && InTheWay(b.backups[i], job.drive, path)
      then b
      else b.(syncs := Filed(b.syncs, Named(job, newId).(path := path), newId))
    case DeleteBackup(id) => b.(backups := Others(b.backups, id))
    case DeleteSync(id) => b.(syncs := Others(b.syncs, id))
  }

  function AfterAll(b: Book, edits: seq<Edit>): Book
    decreases |edits|
  {
    if edits == [] then b else AfterAll(After(b, edits[0]), edits[1..])
  }

  /** Two jobs with nested folders on one drive. */
  predicate Clash(a: Job, b: Job) {
    a.drive == b.drive && Nested(Segments(a.path), Segments(b.path))
  }

  predicate Apart(jobs: seq<Job>) {
    forall i, j :: 0 <= i < j < |jobs| ==> jobs[i].id != jobs[j].id && !Clash(jobs[i], jobs[j])
  }

  predicate Across(a: seq<Job>, b: seq<Job>) {
    forall x, y :: x in a && y in b ==> !Clash(x, y)
  }

  predicate AllNamed(jobs: seq<Job>) {
    forall x :: x in jobs ==> x.id != ""
  }

  /** No two jobs ever share a folder on a drive, nor does one lie inside another's. */
  predicate Exclusive(b: Book) {
    && Apart(b.backups) && Apart(b.syncs) && Across(b.backups, b.syncs)
    && AllNamed(b.backups) && AllNamed(b.syncs)
  }

  /** The edit's own path, as typed for an upload and as stored for a sync, does not hide any
      folder from the checks. */
  predicate Open(e: Edit) {
    match e
    case SaveBackup(job, _, _) => !HidesSomewhere(Segments(job.path))
    case SaveSync(job, _, _) =>
      var stored := Segments(Normalize(job.path));
      !StartsBlank(stored) && !HidesSomewhere(stored)
    case _ => true
  }

  /** A new id is new. */
  predicate NewIdIsNew(b: Book, e: Edit) {
    match e
    case SaveBackup(_, _, newId) => newId != "" && Position(b.backups, newId) == |b.backups|
    case SaveSync(_, _, newId) => newId != "" && Position(b.syncs, newId) == |b.syncs|
    case _ => true
  }

  predicate Sensible(b: Book, e: Edit) {
    Open(e) && NewIdIsNew(b, e)
  }

  predicate AllSensible(b: Book, edits: seq<Edit>)
    decreases |edits|
  {
    edits == [] || (Sensible(b, edits[0]) && AllSensible(After(b, edits[0]), edits[1..]))
  }

  /** What the checks look for, for all paths: whether the folders are nested once both paths
      have been normalized again. */
  lemma CheckIs(other: Job, job: Job)
    ensures InTheWay(other, job.drive, Normalize(job.path))
            <==> other.drive == job.drive && Nested(Again(Segments(other.path)), Again(Segments(job.path)))
  {
    OverlapIsAgain(other.path, job.path);
    hide Normalize, Segments, PathsOverlap, Again;
  }

  /** Two folders that clash are seen to, unless they differ and the outer one hides the inner. */
  lemma CheckSeesClash(other: Job, job: Job)
    requires Clash(other, job)
    ensures var s, t := Segments(other.path), Segments(job.path);
            var outer := if |s| <= |t| then s else t;
            InTheWay(other, job.drive, Normalize(job.path)) <==> s == t || outer == [] || !Hides(outer, |outer| - 1)
  {
    OverlapSeenIff(other.path, job.path);
    hide Normalize, Segments, PathsOverlap, Hides;
  }

  /** An upload is checked by the folder it will use. */
  lemma BackupSeen(other: Job, job: Job)
    requires Clash(other, job) && !HidesSomewhere(Segments(job.path))
    ensures InTheWay(other, job.drive, Normalize(job.path))
  {
    CheckIs(other, job);
    CheckIs(job, other);
    NothingHidden(job.path, other.path);
    hide Normalize, Segments, PathsOverlap, Again;
  }

  function StoredSync(job: Job, newId: string): Job {
    Named(job, newId).(path := Normalize(job.path))
  }

  /** A sync is checked by its path as typed, and uses the folder that is stored. */
  lemma SyncSeen(other: Job, job: Job, newId: string)
    requires Clash(other, StoredSync(job, newId))
    requires var t := Segments(Normalize(job.path)); !StartsBlank(t) && !HidesSomewhere(t)
    ensures InTheWay(other, job.drive, Normalize(job.path))
  {
    CheckIs(other, job);
    SegmentsClean(job.path);
    SegmentsClean(other.path);
    SegmentsClean(Normalize(job.path));
    AgainIs(Segments(job.path));
    OnceSeen(Segments(other.path), Segments(Normalize(job.path)));
    hide Segments, PathsOverlap, Again, HidesSomewhere, StartsBlank, Clean, InTheWay;
  }

  lemma {:induction false} OthersSplit(jobs: seq<Job>, id: string)
    requires Apart(jobs)
    ensures Apart(Others(jobs, id))
    ensures forall x :: x in Others(jobs, id) <==> x in jobs && x.id != id
  {
    if jobs != [] {
      hide Clash;
      assert Apart(jobs[1..]);
      OthersSplit(jobs[1..], id);
      FirstOrRest(jobs);
      HeadApart(jobs, Others(jobs[1..], id));
    }
  }

  lemma FirstOrRest(jobs: seq<Job>)
    requires jobs != []
    ensures forall x :: x in jobs <==> x == jobs[0] || x in jobs[1..]
  {
    assert jobs == [jobs[0]] + jobs[1..];
  }

  lemma HeadApart(jobs: seq<Job>, rest: seq<Job>)
    requires jobs != [] && Apart(jobs) && Apart(rest) && forall x :: x in rest ==> x in jobs[1..]
    ensures Apart([jobs[0]] + rest)
  {
    hide Clash;
    forall j | 0 <= j < |rest|
      ensures jobs[0].id != rest[j].id && !Clash(jobs[0], rest[j])
    {
      assert rest[j] in jobs[1..];
    }
  }

  lemma ClashSymmetric(a: Job, b: Job)
    ensures Clash(a, b) <==> Clash(b, a)
  {
    hide Segments;
  }

  /** Filing a job that clashes with no other keeps the jobs apart. */
  lemma FiledApart(jobs: seq<Job>, job: Job, newId: string)
    requires Apart(jobs) && AllNamed(jobs) && newId != "" && Position(jobs, newId) == |jobs|
    requires forall i :: 0 <= i < |jobs| && jobs[i].id != job.id ==> !Clash(jobs[i], job)
    ensures Apart(Filed(jobs, job, newId)) && AllNamed(Filed(jobs, job, newId))
    ensures forall x :: x in Filed(jobs, job, newId) ==> x in jobs || (x.drive == job.drive && x.path == job.path)
  {
    var i := Position(jobs, job.id);
    var all := Filed(jobs, job, newId);
    var x := if i < |jobs| then job else Named(job, newId);
    forall a, b | 0 <= a < b < |all|
      ensures all[a].id != all[b].id && !Clash(all[a], all[b])
    {
      ClashSymmetric(all[a], all[b]);
      hide Position;
      if b < |jobs| {
        assert jobs[a].id != jobs[b].id && !Clash(jobs[a], jobs[b]);
      }
    }
  }

  /** The jobs of one list, in their order, among those of another. */
  ghost predicate Among(some: seq<Job>, all: seq<Job>)
    decreases |all|
  {
    || some == []
    || (all != [] && ((some[0] == all[0] && Among(some[1..], all[1..])) || Among(some, all[1..])))
  }

  function Times(jobs: seq<Job>, x: Job): nat {
    if jobs == [] then 0 else (if jobs[0] == x then 1 else 0) + Times(jobs[1..], x)
  }

  lemma {:induction false} OthersAmong(jobs: seq<Job>, id: string)
    ensures Among(Others(jobs, id), jobs)
  {
    if jobs != [] {
      OthersAmong(jobs[1..], id);
      var rest := Others(jobs[1..], id);
      assert ([jobs[0]] + rest)[1..] == rest && [] + rest == rest;
    }
  }

  lemma {:induction false} OthersTimes(jobs: seq<Job>, id: string, x: Job)
    ensures Times(Others(jobs, id), x) == if x.id == id then 0 else Times(jobs, x)
  {
    if jobs != [] {
      OthersTimes(jobs[1..], id, x);
      var rest := Others(jobs[1..], id);
      assert ([jobs[0]] + rest)[1..] == rest && [] + rest == rest;
    }
  }

  /** Deleting a job takes every job of that kind with the id, and leaves all others as they were, in
      their order. */
  lemma DeleteIs(b: Book, id: string, x: Job)
    ensures var after := After(b, DeleteBackup(id));
            && after.syncs == b.syncs && Among(after.backups, b.backups)
            && Times(after.backups, x) == if x.id == id then 0 else Times(b.backups, x)
    ensures var after := After(b, DeleteSync(id));
            && after.backups == b.backups && Among(after.syncs, b.syncs)
            && Times(after.syncs, x) == if x.id == id then 0 else Times(b.syncs, x)
  {
    OthersAmong(b.backups, id);
    OthersAmong(b.syncs, id);
    OthersTimes(b.backups, id, x);
    OthersTimes(b.syncs, id, x);
    hide Times, Among, Others;
  }

  lemma EditKeepsApart(b: Book, e: Edit)
    requires Exclusive(b) && Sensible(b, e)
    ensures Exclusive(After(b, e))
  {
    match e
    case SaveBackup(job, here, newId) => BackupKeepsApart(b, job, here, newId);
    case SaveSync(job, here, newId) => SyncKeepsApart(b, job, here, newId);
    case DeleteBackup(id) => OthersSplit(b.backups, id);
    case DeleteSync(id) => OthersSplit(b.syncs, id);
  }

  lemma BackupKeepsApart(b: Book, job: Job, here: bool, newId: string)
    requires Exclusive(b) && Sensible(b, SaveBackup(job, here, newId))
    ensures Exclusive(After(b, SaveBackup(job, here, newId)))
  {
    var b' := After(b, SaveBackup(job, here, newId));
    if b' != b {
      forall x | Clash(x, job)
        ensures InTheWay(x, job.drive, Normalize(job.path))
      {
        BackupSeen(x, job);
      }
      NoneClashes(b, job, job, b.backups, b.syncs);
      hide Normalize, HidesSomewhere, Segments, InTheWay, ValidFolder;
      FiledApart(b.backups, job, newId);
      SamePlace(job);
      hide Filed, Clash, Position;
    }
  }

  lemma SyncKeepsApart(b: Book, job: Job, here: bool, newId: string)
    requires Exclusive(b) && Sensible(b, SaveSync(job, here, newId))
    ensures Exclusive(After(b, SaveSync(job, here, newId)))
  {
    var stored := StoredSync(job, newId);
    var b' := After(b, SaveSync(job, here, newId));
    if b' != b {
      forall x | Clash(x, stored)
        ensures InTheWay(x, job.drive, Normalize(job.path))
      {
        SyncSeen(x, job, newId);
      }
      NoneClashes(b, job, stored, b.syncs, b.backups);
      hide Normalize, HidesSomewhere, StartsBlank, Segments, InTheWay, ValidFolder;
      FiledApart(b.syncs, stored, newId);
      SamePlace(stored);
      hide Filed, Clash, Position;
    }
  }

  /** The checks found nothing, so nothing clashes. */
  lemma NoneClashes(b: Book, job: Job, stored: Job, own: seq<Job>, across: seq<Job>)
    requires forall x :: Clash(x, stored) ==> InTheWay(x, job.drive, Normalize(job.path))
    requires !AnyInTheWay(own, job.id, job.drive, Normalize(job.path))
    requires forall i :: 0 <= i < |across| ==> !InTheWay(across[i], job.drive, Normalize(job.path))
    ensures forall i :: 0 <= i < |own| && own[i].id != job.id ==> !Clash(own[i], stored)
    ensures forall x :: x in across ==> !Clash(x, stored) && !Clash(stored, x)
  {
    hide InTheWay, Normalize, Clash;
    forall x | x in across
      ensures !Clash(x, stored) && !Clash(stored, x)
    {
      ClashSymmetric(x, stored);
    }
  }

  lemma SamePlace(job: Job)
    ensures forall x: Job, y: Job :: x.drive == job.drive && x.path == job.path ==>
              (Clash(x, y) <==> Clash(job, y)) && (Clash(y, x) <==> Clash(y, job))
  {
  }

  /** Over every history of saving, editing and deleting uploads and syncs, accepted or
      refused, no two jobs on one drive ever have overlapping folders on Luna. */
  lemma {:induction false} AlwaysExclusive(b: Book, edits: seq<Edit>)
    requires Exclusive(b) && AllSensible(b, edits)
    ensures Exclusive(AfterAll(b, edits))
    decreases |edits|
  {
    if edits != [] {
      EditKeepsApart(b, edits[0]);
      hide Exclusive, Sensible, After;
      AlwaysExclusive(After(b, edits[0]), edits[1..]);
    }
  }

  lemma TwoEdits(b: Book, e1: Edit, e2: Edit)
    ensures AfterAll(b, [e1, e2]) == After(After(b, e1), e2)
  {
    var b1 := After(b, e1);
    hide After;
    assert [e1, e2][1..] == [e2] && [e2][1..] == [];
    assert AfterAll(b1, [e2]) == AfterAll(After(b1, e2), []);
  }

  lemma FirstAccepted(job: Job)
    requires ValidFolder(job.drive, job.path) && job.id != ""
    ensures After(Book([], []), SaveBackup(job, true, "x")) == Book([job], [])
  {
    hide ValidFolder, InTheWay;
  }

  const EMPTY := Book([], [])

  /** Whatever was saved, edited and deleted before, as long as no jobs clash yet, the edit makes
      none clash. */
  ghost predicate AlwaysSafe(e: Edit) {
    forall edits :: SafeAfter(edits, e)
  }

  ghost predicate SafeAfter(edits: seq<Edit>, e: Edit) {
    var b := AfterAll(EMPTY, edits);
    Exclusive(b) && NewIdIsNew(b, e) ==> Exclusive(After(b, e))
  }

  /** A save that passes its own checks, of a folder that can be used as it is stored. */
  predicate Usable(e: Edit) {
    match e
    case SaveBackup(job, here, newId) => here && newId != "" && ValidFolder(job.drive, job.path)
    case SaveSync(job, here, newId) =>
      here && newId != "" && ValidFolder(job.drive, job.path) && ValidFolder(job.drive, Normalize(job.path))
    case _ => false
  }

  /** The job as an accepted save leaves it. */
  function Stored(e: Edit): Job
    requires e.SaveBackup? || e.SaveSync?
  {
    if e.SaveBackup? then e.job else StoredSync(e.job, e.newId)
  }

  /** A valid folder that clashes with the save and is not seen to. */
  lemma HiddenFrom(e: Edit) returns (path: string)
    requires Usable(e) && !Open(e)
    ensures ValidFolder(e.job.drive, path)
    ensures var other := Job("", e.job.drive, path);
            Clash(other, Stored(e)) && !InTheWay(other, e.job.drive, Normalize(e.job.path))
  {
    if e.SaveBackup? {
      path := HiddenFromBackup(e.job);
    } else {
      path := HiddenFromSync(e.job, e.newId);
    }
  }

  lemma AnyId(a: Job, b: Job, stored: Job, job: Job)
    requires a.drive == b.drive && a.path == b.path
    ensures Clash(a, stored) <==> Clash(b, stored)
    ensures InTheWay(a, job.drive, Normalize(job.path)) <==> InTheWay(b, job.drive, Normalize(job.path))
  {
    hide Segments, Normalize, PathsOverlap;
  }

  lemma HiddenFromBackup(job: Job) returns (path: string)
    requires ValidFolder(job.drive, job.path) && HidesSomewhere(Segments(job.path))
    ensures ValidFolder(job.drive, path)
    ensures var other := Job("", job.drive, path);
            Clash(other, job) && !InTheWay(other, job.drive, Normalize(job.path))
  {
    var s := Segments(job.path);
    var i :| 0 <= i < |s| && Hides(s, i);
    var t := HiddenBy(s, i);
    path := PathOf(t);
    HiddenByNames(s, i);
    hide Segments, Normalize, PathsOverlap, Hides, HiddenBy, PathOf, InTheWay, Clash, Nested;
    HiddenByIs(job.path, i);
    StaysValid(s, t);
    BackupHidden(job, path);
  }

  lemma BackupHidden(job: Job, path: string)
    requires Nested(Segments(job.path), Segments(path)) && !PathsOverlap(Normalize(job.path), Normalize(path))
    ensures var other := Job("", job.drive, path);
            Clash(other, job) && !InTheWay(other, job.drive, Normalize(job.path))
  {
    CheckIs(Job("", job.drive, path), job);
    OverlapIsAgain(job.path, path);
    hide Segments, Normalize, PathsOverlap, Again, InTheWay;
  }

  lemma HiddenFromSync(job: Job, newId: string) returns (path: string)
    requires ValidFolder(job.drive, Normalize(job.path))
    requires var t := Segments(Normalize(job.path)); StartsBlank(t) || HidesSomewhere(t)
    ensures ValidFolder(job.drive, path)
    ensures var other := Job("", job.drive, path);
            Clash(other, StoredSync(job, newId)) && !InTheWay(other, job.drive, Normalize(job.path))
  {
    var t := Segments(Normalize(job.path));
    SegmentsClean(job.path);
    SegmentsClean(Normalize(job.path));
    AgainIs(Segments(job.path));
    var s := OnceHider(t);
    path := PathOf(s);
    PathOfIs(s);
    StaysValid(t, s);
    CheckIs(Job("", job.drive, path), job);
    hide Segments, PathsOverlap, Again, HidesSomewhere, StartsBlank, PathOf;
  }

  /** Every name is a name of a valid folder, or a letter. */
  lemma StaysValid(s: seq<string>, t: seq<string>)
    requires forall x :: x in s ==> x != ".." && '\0' !in x
    requires forall x :: x in t ==> x in s || x == "b" || x == "c"
    ensures forall x :: x in t ==> x != ".." && '\0' !in x
  {
    assert |"b"| == |"c"| == 1 && |".."| == 2;
  }

  lemma ClashFollows(e: Edit, other: Job)
    requires Usable(e) && other.drive == e.job.drive && other.id != ""
    requires other.id != e.job.id && other.id != e.newId
    requires Clash(other, Stored(e)) && !InTheWay(other, e.job.drive, Normalize(e.job.path))
    ensures var b := Book([other], []); Exclusive(b) && NewIdIsNew(b, e) && !Exclusive(After(b, e))
  {
    var b := Book([other], []);
    OneJobAlone(other);
    if e.SaveBackup? {
      BackupAdded(other, e.job, e.newId);
      hide InTheWay, Clash, ValidFolder, Normalize, After;
      var job := Named(e.job, e.newId);
      SamePlaceClash(other, e.job, job);
      var jobs := [other, job];
      assert Clash(jobs[0], jobs[1]);
    } else {
      SyncAdded(other, e.job, e.newId);
      hide InTheWay, Clash, ValidFolder, Normalize, After;
      var job := StoredSync(e.job, e.newId);
      assert other in [other] && job in [job];
    }
  }

  lemma OneJobAlone(other: Job)
    requires other.id != ""
    ensures Exclusive(Book([other], []))
    ensures forall id :: id != other.id ==> Position([other], id) == 1
  {
    hide Clash;
  }

  lemma BackupAdded(other: Job, job: Job, newId: string)
    requires ValidFolder(job.drive, job.path) && other.id != job.id
    requires !InTheWay(other, job.drive, Normalize(job.path))
    ensures After(Book([other], []), SaveBackup(job, true, newId)) == Book([other, Named(job, newId)], [])
  {
    hide ValidFolder, InTheWay;
    assert Position([other], job.id) == 1;
  }

  lemma SyncAdded(other: Job, job: Job, newId: string)
    requires ValidFolder(job.drive, job.path)
    requires !InTheWay(other, job.drive, Normalize(job.path))
    ensures After(Book([other], []), SaveSync(job, true, newId)) == Book([other], [StoredSync(job, newId)])
  {
    hide ValidFolder, InTheWay;
    assert Position([], StoredSync(job, newId).id) == 0;
  }

  lemma SamePlaceClash(other: Job, a: Job, b: Job)
    requires a.drive == b.drive && a.path == b.path
    ensures Clash(other, a) <==> Clash(other, b)
  {
  }

  /** A save is safe after every history exactly when its own path hides no folder. */
  lemma SafeIffOpen(e: Edit)
    requires Usable(e)
    ensures AlwaysSafe(e) <==> Open(e)
  {
    if Open(e) {
      forall edits
        ensures SafeAfter(edits, e)
      {
        var b := AfterAll(EMPTY, edits);
        hide AfterAll, Open, NewIdIsNew, Exclusive, After;
        if Exclusive(b) && NewIdIsNew(b, e) {
          EditKeepsApart(b, e);
        }
      }
    } else {
      var id := e.job.id + e.newId + "x";
      assert |id| > |e.job.id| && |id| > |e.newId|;
      var path := HiddenFrom(e);
      var other := Job(id, e.job.drive, path);
      AnyId(Job("", e.job.drive, path), other, Stored(e), e.job);
      var first := SaveBackup(other, true, "x");
      FirstAccepted(other);
      var b := AfterAll(EMPTY, [first]);
      OneEdit(EMPTY, first);
      assert b == Book([other], []);
      ClashFollows(e, other);
      hide *;
      assert !SafeAfter([first], e);
    }
  }

  lemma OneEdit(b: Book, e: Edit)
    ensures AfterAll(b, [e]) == After(b, e)
  {
    var b1 := After(b, e);
    hide After;
    assert [e][1..] == [];
    assert AfterAll(b1, []) == b1;
  }

  lemma NestedPlacesValid()
    ensures ValidFolder("d", "a /") && ValidFolder("d", "a /b")
    ensures Clash(Job("1", "d", "a /"), Job("2", "d", "a /b"))
    ensures !InTheWay(Job("1", "d", "a /"), "d", Normalize("a /b"))
  {
    NestedUnseen();
    hide Segments, Normalize, PathsOverlap;
    assert |"a "| == 2 && |"b"| == 1 && |".."| == 2 && "a "[0] != ".."[0];
  }

  lemma NamedKeeps(job: Job, newId: string)
    requires job.id != ""
    ensures Named(job, newId) == job
  {
  }

  /** With white space at an end the rule can be broken: both uploads are accepted, and the
      second copies into the first one's folder. */
  lemma NestedAccepted()
    ensures var edits := [SaveBackup(Job("1", "d", "a /"), true, "x"), SaveBackup(Job("2", "d", "a /b"), true, "x")];
            var b := AfterAll(Book([], []), edits);
            |b.backups| == 2 && Clash(b.backups[0], b.backups[1])
  {
    NestedPlacesValid();
    hide *;
    var j1, j2 := Job("1", "d", "a /"), Job("2", "d", "a /b");
    FirstAccepted(j1);
    assert j1.id[0] != j2.id[0];
    BackupAdded(j1, j2, "x");
    assert Named(j2, "x") == j2 by {
      NamedKeeps(j2, "x");
    }
    TwoEdits(Book([], []), SaveBackup(j1, true, "x"), SaveBackup(j2, true, "x"));
  }

  lemma NextOther(jobs: seq<Job>, i: nat, id: string)
    requires i < |jobs|
    ensures Others(jobs[i..], id)
         == if jobs[i].id != id then [jobs[i]] + Others(jobs[i + 1..], id) else Others(jobs[i + 1..], id)
  {
    assert jobs[i..][1..] == jobs[i + 1..] && jobs[i..][0] == jobs[i];
  }

  /** The settings files, edited as the program does it: load the list, change it, save it. */
  class Store {
    var backups: seq<Job>
    var syncs: seq<Job>

    ghost function Contents(): Book
      reads this
    {
      Book(backups, syncs)
    }

    constructor ()
      ensures Contents() == Book([], [])
    {
      backups, syncs := [], [];
    }

    /** Look for a job in the way, passing over the one being edited, if any. */
    method Clear(jobs: seq<Job>, editing: bool, id: string, drive: string, path: string) returns (clear: bool)
      ensures clear <==>
              !exists i :: 0 <= i < |jobs| && !(editing && jobs[i].id == id) && InTheWay(jobs[i], drive, path)
    {
      hide InTheWay;
      for i := 0 to |jobs|
        invariant forall j :: 0 <= j < i && !(editing && jobs[j].id == id) ==> !InTheWay(jobs[j], drive, path)
      {
        if !(editing && jobs[i].id == id) && InTheWay(jobs[i], drive, path) {
          return false;
        }
      }
      return true;
    }

    /** Replace the first job with that id in place, or push the job. */
    method File(jobs: seq<Job>, job: Job, newId: string) returns (all: seq<Job>)
      ensures all == Filed(jobs, job, newId)
    {
      for i := 0 to |jobs|
        invariant Position(jobs, job.id) == i + Position(jobs[i..], job.id)
      {
        if jobs[i].id == job.id {
          return jobs[i := job];
        }
      }
      return jobs + [Named(job, newId)];
    }

    /** `retain(|j| j.id != id)`. */
    method Retain(jobs: seq<Job>, id: string) returns (rest: seq<Job>)
      ensures rest == Others(jobs, id)
    {
      rest := [];
      for i := 0 to |jobs|
        invariant rest + Others(jobs[i..], id) == Others(jobs, id)
      {
        NextOther(jobs, i, id);
        hide Others;
        if jobs[i].id != id {
          Regroup(rest, [jobs[i]], Others(jobs[i + 1..], id));
          rest := rest + [jobs[i]];
        }
      }
    }

    method SaveBackupJob(job: Job, here: bool, newId: string)
      modifies this`backups
      ensures Contents() == After(old(Contents()), SaveBackup(job, here, newId))
    {
      hide InTheWay, Filed, ValidFolder;
      if !here || !ValidFolder(job.drive, job.path) {
        return;
      }
      var path := Normalize(job.path);
      var free := Clear(backups, true, job.id, job.drive, path);
      if free {
        free := Clear(syncs, false, "", job.drive, path);
      }
      if free {
        backups := File(backups, job, newId);
      }
    }

    method SaveSyncPair(job: Job, here: bool, newId: string)
      modifies this`syncs
      ensures Contents() == After(old(Contents()), SaveSync(job, here, newId))
    {
      hide InTheWay, Filed, ValidFolder;
      if !here || !ValidFolder(job.drive, job.path) {
        return;
      }
      var path := Normalize(job.path);
      var free := Clear(syncs, true, job.id, job.drive, path);
      if free {
        free := Clear(backups, false, "", job.drive, path);
      }
      if free {
        syncs := File(syncs, Named(job, newId).(path := path), newId);
      }
    }

    method DeleteBackupJob(id: string)
      modifies this`backups
      ensures Contents() == After(old(Contents()), DeleteBackup(id))
    {
      backups := Retain(backups, id);
    }

    method DeleteSyncPair(id: string)
      modifies this`syncs
      ensures Contents() == After(old(Contents()), DeleteSync(id))
    {
      syncs := Retain(syncs, id);
    }
  }
}
