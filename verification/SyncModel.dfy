/** One pair of Luna Desktop's two-way sync: the folder on this computer, the folder on
    Luna, the ledger of what was last in step, and the trash. A pass visits names one by
    one; every call it makes can fail, and the environment chooses each answer. */
module SyncModel {
  import opened Names
  import opened Options

  newtype Byte = b: int | 0 <= b < 256

  datatype File = File(bytes: seq<Byte>, mtime: int)

  datatype Entry = Entry(size: nat, localMtime: int, remoteMtime: int)

  /** `folders` are local paths that exist but are not synced files. */
  datatype World = World(
    local: map<string, File>,
    remote: map<string, File>,
    ledger: map<string, Entry>,
    trash: map<string, File>,
    folders: set<string>)

  /** What one request to Luna came back as. `Lost` took effect, yet was reported as failed. */
  datatype Reply = Done(mtime: int) | Lost(mtime: int) | Failed {
    function Time(): int {
      if Failed? then 0 else mtime
    }
  }

  /** Everything the environment decides while one name is visited. */
  datatype Answers = Answers(
    elsewhere: Option<map<string, File>>, // what other devices made of the Luna folder meanwhile
    rename: bool,                         // moving a file aside on this computer works
    path: bool,                           // `local_path` accepts the name
    fetch: bool,                          // the download arrives and replaces the local file
    fetchTime: int,                       // mtime the downloaded file gets on this computer
    meta: bool,                           // the downloaded file can be looked at afterwards
    restore: bool,                        // the file set aside can be moved back
    send: Reply,                          // the upload; `mtime` is the server's choice
    erase: Reply,                         // the delete on Luna
    stamp: nat)                           // seconds, names the trash folder

  function Lookup<T>(m: map<string, T>, name: string): Option<T> {
    if name in m then Some(m[name]) else None
  }

  datatype Arm = Idle | Conflict | Replace | Fetch | Adopt | SetAside | Send | Erase | Forget

  predicate LocalChanged(f: File, e: Entry) {
    |f.bytes| != e.size || f.mtime != e.localMtime
  }

  predicate RemoteChanged(f: File, e: Entry) {
    |f.bytes| != e.size || f.mtime != e.remoteMtime
  }

  /** Same size and times within two seconds: taken to be the same file. */
  predicate Twins(l: File, r: File) {
    |l.bytes| == |r.bytes| && -2 <= l.mtime - r.mtime <= 2
  }

  /** The case split of a pass. Only sizes and times of the listed files are looked at. */
  function Decide(l: Option<File>, r: Option<File>, e: Option<Entry>): Arm {
    match (l, r, e)
    case (Some(l), Some(r), Some(e)) =>
      if LocalChanged(l, e) && RemoteChanged(r, e) then Conflict
      else if LocalChanged(l, e) then Replace
      else if RemoteChanged(r, e) then Fetch
      else Idle
    case (Some(l), Some(r), None) =>
      if Twins(l, r) then Adopt
      else if r.mtime <= l.mtime then Replace
      else Fetch
    case (Some(_), None, Some(_)) => SetAside
    case (Some(_), None, None) => Send
    case (None, Some(_), Some(_)) => Erase
    case (None, Some(_), None) => Fetch
    case (None, None, Some(_)) => Forget
    case (None, None, None) => Idle
  }

  /** The arm taken for a name: files as listed when the pass began, ledger as it is now. */
  function ArmOf(start: World, w: World, rel: string): Arm {
    Decide(Lookup(start.local, rel), Lookup(start.remote, rel), Lookup(w.ledger, rel))
  }

  function Taken(w: World): set<string> {
    w.local.Keys + w.folders
  }

  /** Where the conflict arm would set the local file aside. */
  function AsideName(w: World, rel: string): string {
    FreeSibling(Taken(w), ConflictName(rel))
  }

  function TrashName(w: World, rel: string, stamp: nat): string {
    FreeSibling(w.trash.Keys, Decimal(stamp) + "/" + rel)
  }

  /** `upload_file`: without `overwrite` an existing file on Luna is refused (409). */
  function Upload(w: World, name: string, overwrite: bool, reply: Reply): (World, bool) {
    if name !in w.local || (!overwrite && name in w.remote) then (w, false)
    else
      match reply
      case Done(m) => (w.(remote := w.remote[name := File(w.local[name].bytes, m)]), true)
      case Lost(m) => (w.(remote := w.remote[name := File(w.local[name].bytes, m)]), false)
      case Failed => (w, false)
  }

  /** Upload `rel` under its own name and note the local mtime on both sides of the ledger. */
  function SendArm(start: World, w: World, rel: string, overwrite: bool, a: Answers): (World, bool)
    requires rel in start.local
  {
    var (w1, ok) := Upload(w, rel, overwrite, a.send);
    var f := start.local[rel];
    if ok then (w1.(ledger := w1.ledger[rel := Entry(|f.bytes|, f.mtime, f.mtime)]), true) else (w1, false)
  }

  /** `download_file` onto the local name: an atomic replace. */
  function Download(w: World, rel: string, mtime: int): World
    requires rel in w.remote
  {
    w.(local := w.local[rel := File(w.remote[rel].bytes, mtime)])
  }

  function FetchArm(start: World, w: World, rel: string, a: Answers): (World, bool)
    requires rel in start.remote
  {
    if !a.path || !a.fetch || rel !in w.remote then (w, false)
    else
      var w1 := Download(w, rel, a.fetchTime);
      if !a.meta then (w1, false)
      else
        var e := Entry(|w1.local[rel].bytes|, a.fetchTime, start.remote[rel].mtime);
        (w1.(ledger := w1.ledger[rel := e]), true)
  }

  /** The local file moved to its conflict name. */
  function MovedAside(w: World, rel: string): World
    requires rel in w.local
  {
    w.(local := (w.local - {rel})[AsideName(w, rel) := w.local[rel]])
  }

  function ConflictArm(start: World, w: World, rel: string, a: Answers): (World, bool)
    requires rel in start.remote
  {
    if !a.rename || rel !in w.local then (w, false)
    else
      var w1 := MovedAside(w, rel);
      if !a.path then (w1, false)
      else if !a.fetch || rel !in w.remote then (if a.restore then w else w1, false)
      else
        var w2 := Download(w1, rel, a.fetchTime);
        var re := start.remote[rel];
        var e := Entry(|re.bytes|, if a.meta then a.fetchTime else re.mtime, re.mtime);
        (Upload(w2.(ledger := w2.ledger[rel := e]), AsideName(w, rel), false, a.send).0, true)
  }

  function SetAsideArm(w: World, rel: string, a: Answers): World {
    if !a.rename || rel !in w.local then w
    else
      w.(local := w.local - {rel}, ledger := w.ledger - {rel},
         trash := w.trash[TrashName(w, rel, a.stamp) := w.local[rel]])
  }

  function EraseArm(w: World, rel: string, a: Answers): (World, bool) {
    match a.erase
    case Done(_) => (w.(remote := w.remote - {rel}, ledger := w.ledger - {rel}), true)
    case Lost(_) => (w.(remote := w.remote - {rel}), false)
    case Failed => (w, false)
  }

  /** What the Luna folder holds once other devices had their turn. */
  function Meanwhile(w: World, a: Answers): World {
    match a.elsewhere
    case Some(r) => w.(remote := r)
    case None => w
  }

  /** One arm, without changes from elsewhere. */
  function Act(start: World, w: World, rel: string, a: Answers): (World, bool) {
    match ArmOf(start, w, rel)
    case Idle => (w, true)
    case Conflict => ConflictArm(start, w, rel, a)
    case Replace => SendArm(start, w, rel, true, a)
    case Fetch => FetchArm(start, w, rel, a)
    case Adopt =>
      var l := start.local[rel];
      (w.(ledger := w.ledger[rel := Entry(|l.bytes|, l.mtime, start.remote[rel].mtime)]), true)
    case SetAside => (SetAsideArm(w, rel, a), true)
    case Send => SendArm(start, w, rel, false, a)
    case Erase => EraseArm(w, rel, a)
    case Forget => (w.(ledger := w.ledger - {rel}), true)
  }

  /** The visit of one name; false means the pass ends here with an error. */
  function Visit(start: World, w: World, rel: string, a: Answers): (World, bool) {
    Act(start, Meanwhile(w, a), rel, a)
  }

  /** Visit the names of `order` one after the other until one fails. */
  function Run(start: World, w: World, order: seq<string>, ans: string -> Answers): (World, bool)
    decreases |order|
  {
    if order == [] then (w, true)
    else
      var (w1, ok) := Visit(start, w, order[0], ans(order[0]));
      if ok then Run(start, w1, order[1..], ans) else (w1, false)
  }

  /** A pass from `w`; a prefix of the names is a pass that was stopped. */
  function Pass(w: World, order: seq<string>, ans: string -> Answers): World {
    Run(w, w, order, ans).0
  }

  predicate NoDup(order: seq<string>) {
    forall i, j :: 0 <= i < j < |order| ==> order[i] != order[j]
  }

  /** Every name a full pass visits. */
  function AllNames(w: World): set<string> {
    w.local.Keys + w.remote.Keys + w.ledger.Keys
  }

  ghost predicate FullOrder(w: World, order: seq<string>) {
    NoDup(order) && forall n :: n in order <==> n in AllNames(w)
  }

  /** Nothing fails and nobody else is at work. */
  predicate Calm(a: Answers) {
    && a.elsewhere.None? && a.rename && a.path && a.fetch && a.meta && a.send.Done? && a.erase.Done?
  }

  function Smooth(t: int): Answers {
    Answers(None, true, true, true, t, true, true, Done(t), Done(t), 0)
  }
}
