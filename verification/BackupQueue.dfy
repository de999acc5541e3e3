/** Folder uploads: the queue of files waiting to be copied to Luna, retried round after
    round, and the walk that fills it at the start. */
module BackupQueue {
  import opened Options

  /** What the disk and Luna have to say when a file's turn comes. `settled`: not written to in
      the last seconds; `sent`: the upload succeeds. */
  datatype Look =
    | Missing
    | Unreadable
    | NotFile
    | Seen(size: nat, mtime: int, settled: bool, sent: bool)

  datatype Stamp = Stamp(size: nat, mtime: int)

  /** Why a path left the queue. */
  datatype Reason = Gone | Outside | NotAFile | Current(stamp: Stamp) | Uploaded(stamp: Stamp)

  /** `ledger` has one entry per path below a source; `log` is what left the queue and why, `copied`
      the uploads that Luna accepted, with the full path of the file, and `there` what Luna holds of
      them now, where every upload replaces the one before. */
  datatype State = State(
    queue: seq<string>,
    failed: set<string>,
    ledger: map<string, Stamp>,
    log: seq<(string, Reason)>,
    copied: set<(string, Stamp)>,
    there: map<string, (string, Stamp)>)

  /** The path below the first source that holds it. */
  function Rel(sources: seq<string>, path: string): Option<string> {
    if sources == [] then None
    else
      var dir := sources[0] + "/";
      if dir <= path then Some(path[|dir|..]) else Rel(sources[1..], path)
  }

  /** A path is the rest after the first source folder that holds it, and nothing exactly if none does. */
  lemma {:induction false} RelIs(sources: seq<string>, path: string, rel: string)
    ensures Rel(sources, path) == Some(rel) <==>
              exists i :: 0 <= i < |sources| && path == sources[i] + "/" + rel
                          && forall j :: 0 <= j < i ==> !(sources[j] + "/" <= path)
    ensures Rel(sources, path).None? <==> forall i :: 0 <= i < |sources| ==> !(sources[i] + "/" <= path)
  {
    if sources != [] {
      var dir, rest := sources[0] + "/", sources[1..];
      RelIs(rest, path, rel);
      assert forall i :: 0 <= i < |rest| ==> rest[i] == sources[i + 1];
      assert forall i :: 1 <= i < |sources| ==> sources[i] == rest[i - 1];
      if dir <= path {
        assert path == dir + path[|dir|..];
        assert path == dir + rel ==> path[|dir|..] == rel;
      } else {
        assert path != dir + rel;
        if i :| 0 <= i < |rest| && path == rest[i] + "/" + rel && forall j :: 0 <= j < i ==> !(rest[j] + "/" <= path) {
          assert path == sources[i + 1] + "/" + rel && forall j :: 0 <= j < i + 1 ==> !(sources[j] + "/" <= path);
        }
        if i :| 0 <= i < |sources| && path == sources[i] + "/" + rel
                && forall j :: 0 <= j < i ==> !(sources[j] + "/" <= path) {
          assert path == rest[i - 1] + "/" + rel;
          assert forall j :: 0 <= j < i - 1 ==> rest[j] == sources[j + 1];
        }
      }
    }
  }

  /** What becomes of a path: why it may go, or nothing if it has to stay. */
  function Verdict(sources: seq<string>, ledger: map<string, Stamp>, path: string, look: Look): Option<Reason> {
    if look.Missing? then Some(Gone)
    else
      match Rel(sources, path)
      case None => Some(Outside)
      case Some(rel) =>
        if look.Unreadable? then None
        else if look.NotFile? then Some(NotAFile)
        else
          var stamp := Stamp(look.size, look.mtime);
          if rel in ledger && ledger[rel] == stamp then Some(Current(stamp))
          else if look.settled && look.sent then Some(Uploaded(stamp))
          else None
  }

  /** The ledger, the uploads and Luna's files after `upload_one`. */
  function Recorded(sources: seq<string>, s: State, path: string, look: Look): State {
    match Verdict(sources, s.ledger, path, look)
    case Some(Uploaded(stamp)) =>
      var rel := Rel(sources, path).value;
      s.(ledger := s.ledger[rel := stamp], copied := s.copied + {(path, stamp)}, there := s.there[rel := (path, stamp)])
    case _ => s
  }

  /** One path's turn, apart from the queue itself. */
  function Turn(sources: seq<string>, s: State, path: string, look: Look): State {
    var v := Verdict(sources, s.ledger, path, look);
    var s' := Recorded(sources, s, path, look);
    match v
    case None => s'.(failed := s'.failed + {path})
    case Some(reason) => s'.(failed := s'.failed - {path}, log := s'.log + [(path, reason)])
  }

  /** A round over `todo`, leaving in the queue, after `kept`, what has to stay. */
  function Round(sources: seq<string>, s: State, kept: seq<string>, todo: seq<string>, look: string -> Look): State
    decreases |todo|
  {
    if todo == [] then s.(queue := kept)
    else
      var p := todo[0];
      var stays := Verdict(sources, s.ledger, p, look(p)).None?;
      Round(sources, Turn(sources, s, p, look(p)), if stays then kept + [p] else kept, todo[1..], look)
  }

  predicate NoDup(queue: seq<string>) {
    forall i, j :: 0 <= i < j < |queue| ==> queue[i] != queue[j]
  }

  /** What holds between rounds: no path is queued twice, and only queued paths count as failed. */
  ghost predicate Tidy(s: State) {
    NoDup(s.queue) && forall p :: p in s.failed ==> p in s.queue
  }

  lemma {:induction false} RoundKeepsOrLogs(sources: seq<string>, s: State, kept: seq<string>, todo: seq<string>,
                                            look: string -> Look)
    requires NoDup(kept + todo)
    requires forall p :: p in s.failed ==> p in kept + todo
    requires forall p :: p in kept ==> p in s.failed
    ensures var e := Round(sources, s, kept, todo, look);
            && NoDup(e.queue)
            && (forall p :: p in e.queue <==> p in e.failed)
            && (forall p :: p in e.queue ==> p in kept + todo)
            && s.log <= e.log
            && (forall p :: p in todo ==> p in e.queue || p in LogPaths(e.log[|s.log|..]))
            && (forall p :: p in kept ==> p in e.queue)
    decreases |todo|
  {
    if todo == [] {
      assert kept + todo == kept;
    } else {
      var p := todo[0];
      var s1 := Turn(sources, s, p, look(p));
      var stays := Verdict(sources, s.ledger, p, look(p)).None?;
      var k1 := if stays then kept + [p] else kept;
      TurnKeeps(sources, s, kept, todo, look(p));
      hide Turn, Verdict;
      RoundKeepsOrLogs(sources, s1, k1, todo[1..], look);
      var e := Round(sources, s1, k1, todo[1..], look);
      assert p in k1 || p in LogPaths(e.log[|s.log|..]) by {
        if !stays {
          assert s1.log[|s.log|].0 == p;
          assert e.log[|s.log|..][0] == s1.log[|s.log|];
          LogHas(e.log[|s.log|..], 0);
        }
      }
      LogTail(e.log, |s.log|, |s1.log|);
      assert forall q :: q in todo ==> q == p || q in todo[1..];
    }
  }

  function LogPaths(log: seq<(string, Reason)>): set<string> {
    set i | 0 <= i < |log| :: log[i].0
  }

  lemma LogHas(log: seq<(string, Reason)>, i: nat)
    requires i < |log|
    ensures log[i].0 in LogPaths(log)
  {
  }

  lemma LogTail(log: seq<(string, Reason)>, a: nat, b: nat)
    requires a <= b <= |log|
    ensures LogPaths(log[b..]) <= LogPaths(log[a..])
  {
    forall p | p in LogPaths(log[b..])
      ensures p in LogPaths(log[a..])
    {
      var i :| 0 <= i < |log[b..]| && log[b..][i].0 == p;
      assert log[a..][i + b - a] == log[b..][i];
    }
  }

  lemma TurnKeeps(sources: seq<string>, s: State, kept: seq<string>, todo: seq<string>, look: Look)
    requires todo != [] && NoDup(kept + todo)
    requires forall p :: p in s.failed ==> p in kept + todo
    requires forall p :: p in kept ==> p in s.failed
    ensures var p := todo[0]; var s1 := Turn(sources, s, p, look);
            var stays := Verdict(sources, s.ledger, p, look).None?;
            var k1 := if stays then kept + [p] else kept;
            && NoDup(k1 + todo[1..])
            && (forall q :: q in s1.failed ==> q in k1 + todo[1..])
            && (forall q :: q in k1 ==> q in s1.failed)
            && (forall q :: q in k1 + todo[1..] ==> q in kept + todo)
            && s.log <= s1.log
            && (!stays ==> |s1.log| == |s.log| + 1 && s1.log[|s.log|].0 == p)
  {
    var p := todo[0];
    var all := kept + todo;
    assert forall i :: 0 <= i < |kept| ==> all[i] == kept[i];
    assert all[|kept|] == p;
    assert todo == [p] + todo[1..];
    var stays := Verdict(sources, s.ledger, p, look).None?;
    if stays {
      assert kept + [p] + todo[1..] == all;
    } else {
      assert kept + todo[1..] == all[..|kept|] + all[|kept| + 1..];
    }
    hide Verdict;
  }

  /** A full round over the queue. */
  function AfterRound(sources: seq<string>, s: State, look: string -> Look): State {
    Round(sources, s, [], s.queue, look)
  }

  /** A path the watcher reports is queued unless it is waiting already. */
  function Enqueued(s: State, path: string): State {
    if path in s.queue then s else s.(queue := s.queue + [path])
  }

  /** After a round the queue is exactly the set of failed files, without repeats; whatever
      left it is in the log. */
  lemma RoundSettles(sources: seq<string>, s: State, look: string -> Look)
    requires Tidy(s)
    ensures var e := AfterRound(sources, s, look);
            && Tidy(e) && (forall p :: p in e.queue <==> p in e.failed)
            && s.log <= e.log
            && forall p :: p in s.queue ==> p in e.queue || p in LogPaths(e.log[|s.log|..])
  {
    assert [] + s.queue == s.queue;
    RoundKeepsOrLogs(sources, s, [], s.queue, look);
  }

  /** The reason given is the true one. `Current` only says that the ledger has the file's
      size and time under its path below a source. */
  predicate Truthful(sources: seq<string>, e: State, path: string, reason: Reason, look: Look) {
    match reason
    case Gone => look.Missing?
    case Outside => forall i :: 0 <= i < |sources| ==> !(sources[i] + "/" <= path)
    case NotAFile => look.NotFile?
    case Current(stamp) => look.Seen? && stamp == Stamp(look.size, look.mtime) && Rel(sources, path).Some?
    case Uploaded(stamp) => look.Seen? && stamp == Stamp(look.size, look.mtime) && (path, stamp) in e.copied
  }

  /** Every entry of the ledger is there because such a file was copied. */
  ghost predicate Honest(sources: seq<string>, files: set<string>, s: State) {
    forall rel :: rel in s.ledger ==>
      exists p :: p in files && Rel(sources, p) == Some(rel) && (p, s.ledger[rel]) in s.copied
  }

  /** No two of the files have the same path below their own source. */
  ghost predicate NoCollision(sources: seq<string>, files: set<string>) {
    forall p, q :: p in files && q in files && Rel(sources, p).Some? && Rel(sources, p) == Rel(sources, q) ==> p == q
  }

  lemma TurnHonest(sources: seq<string>, files: set<string>, s: State, path: string, look: Look)
    requires Honest(sources, files, s) && path in files
    ensures Honest(sources, files, Turn(sources, s, path, look))
    ensures s.copied <= Turn(sources, s, path, look).copied
    ensures var v := Verdict(sources, s.ledger, path, look);
            v.Some? ==> Truthful(sources, Turn(sources, s, path, look), path, v.value, look)
    ensures var v := Verdict(sources, s.ledger, path, look);
            v.Some? && v.value.Current? && NoCollision(sources, files) ==> Copied(s, path, look)
  {
    var s' := Turn(sources, s, path, look);
    RelIs(sources, path, "");
    hide Rel;
    forall rel | rel in s'.ledger
      ensures exists p :: p in files && Rel(sources, p) == Some(rel) && (p, s'.ledger[rel]) in s'.copied
    {
      if rel in s.ledger && s'.ledger[rel] == s.ledger[rel] {
        var p :| p in files && Rel(sources, p) == Some(rel) && (p, s.ledger[rel]) in s.copied;
      } else {
        assert Rel(sources, path) == Some(rel) && (path, s'.ledger[rel]) in s'.copied;
      }
    }
  }

  predicate Copied(s: State, path: string, look: Look) {
    look.Seen? && (path, Stamp(look.size, look.mtime)) in s.copied
  }

  /** What an entry of the log amounts to, for what was seen of the file. */
  ghost predicate Justified(sources: seq<string>, files: set<string>, e: State, entry: (string, Reason), look: Look) {
    var (path, reason) := entry;
    && Truthful(sources, e, path, reason, look)
    && (NoCollision(sources, files) && (reason.Current? || reason.Uploaded?) ==> Copied(e, path, look))
  }

  /** All log entries of a round are true; with no collisions, a file that left the queue as
      uploaded or current has been copied, itself and in its present state. */
  lemma {:induction false} RoundTruthful(sources: seq<string>, files: set<string>, s: State, kept: seq<string>,
                                         todo: seq<string>, look: string -> Look)
    requires Honest(sources, files, s) && forall p :: p in todo ==> p in files
    ensures var e := Round(sources, s, kept, todo, look);
            && Honest(sources, files, e) && s.copied <= e.copied && s.log <= e.log
            && forall i :: |s.log| <= i < |e.log| ==> Justified(sources, files, e, e.log[i], look(e.log[i].0))
    decreases |todo|
  {
    if todo != [] {
      var p := todo[0];
      var s1 := Turn(sources, s, p, look(p));
      TurnHonest(sources, files, s, p, look(p));
      var v := Verdict(sources, s.ledger, p, look(p));
      assert s1.log == if v.Some? then s.log + [(p, v.value)] else s.log;
      assert forall q :: q in todo[1..] ==> q in todo;
      hide Turn, Verdict, Honest, NoCollision, Rel;
      RoundTruthful(sources, files, s1, if v.None? then kept + [p] else kept, todo[1..], look);
      var e := Round(sources, s1, if v.None? then kept + [p] else kept, todo[1..], look);
      assert Round(sources, s, kept, todo, look) == e;
      assert v.Some? ==> e.log[|s.log|] == (p, v.value);
    }
  }

  lemma {:induction false} RoundShrinks(sources: seq<string>, s: State, kept: seq<string>, todo: seq<string>,
                                        look: string -> Look)
    ensures forall p :: p in Round(sources, s, kept, todo, look).queue ==> p in kept || p in todo
    decreases |todo|
  {
    if todo != [] {
      var p := todo[0];
      var stays := Verdict(sources, s.ledger, p, look(p)).None?;
      hide Turn, Verdict;
      RoundShrinks(sources, Turn(sources, s, p, look(p)), if stays then kept + [p] else kept, todo[1..], look);
      assert forall q :: q in todo[1..] ==> q in todo;
    }
  }

  /** A source folder as the first walk finds it. */
  datatype Tree =
    | NoMetadata
    | Link
    | Leaf(path: string, look: Look)
    | Folder(readable: bool, entries: seq<Tree>)

  /** `upload_one` during the walk, where a file that has gone counts as unreadable. */
  function FirstLook(look: Look): Look {
    if look.Missing? then Unreadable else look
  }

  /** The files the walk gets to see, and what it sees of them. */
  function Visible(entries: seq<Tree>): seq<(string, Look)> {
    if entries == [] then [] else VisibleIn(entries[0]) + Visible(entries[1..])
  }

  function VisibleIn(t: Tree): seq<(string, Look)> {
    match t
    case Leaf(path, look) => [(path, FirstLook(look))]
    case Folder(readable, inner) => if readable then Visible(inner) else []
    case _ => []
  }

  predicate Sees(entries: seq<Tree>, path: string) {
    exists i :: 0 <= i < |Visible(entries)| && Visible(entries)[i].0 == path
  }

  /** `upload_tree`: try every file; the paths that could not be copied are returned. */
  function Walk(sources: seq<string>, s: State, entries: seq<Tree>): (State, seq<string>)
    decreases entries
  {
    if entries == [] then (s, [])
    else
      var (s1, missed) := WalkOne(sources, s, entries[0]);
      var (s2, more) := Walk(sources, s1, entries[1..]);
      (s2, missed + more)
  }

  function WalkOne(sources: seq<string>, s: State, t: Tree): (State, seq<string>)
    decreases t
  {
    match t
    case Leaf(path, look) => WalkLeaf(sources, s, path, FirstLook(look))
    case Folder(readable, inner) => if readable then Walk(sources, s, inner) else (s, [])
    case _ => (s, [])
  }

  function WalkLeaf(sources: seq<string>, s: State, path: string, look: Look): (State, seq<string>) {
    var v := Verdict(sources, s.ledger, path, look);
    var s' := Recorded(sources, s, path, look);
    if v.None? then (s', [path]) else (s'.(log := s'.log + [(path, v.value)]), [])
  }

  /** Every new entry of the log has a file the walk saw, and is justified by what it saw of it. */
  ghost predicate WalkJustified(sources: seq<string>, files: set<string>, s: State, e: State, seen: seq<(string,
                                Look)>) {
    && s.log <= e.log && s.copied <= e.copied
    && forall i :: |s.log| <= i < |e.log| ==> SeenJustified(sources, files, e, i, seen)
  }

  ghost predicate SeenJustified(sources: seq<string>, files: set<string>, e: State, i: nat, seen: seq<(string, Look)>)
    requires i < |e.log|
  {
    exists k :: 0 <= k < |seen| && seen[k].0 == e.log[i].0 && Justified(sources, files, e, e.log[i], seen[k].1)
  }

  /** The paths are either returned or logged, and no others are returned. */
  ghost predicate WalkAccounts(s: State, e: State, missed: seq<string>, seen: seq<(string, Look)>) {
    && (forall k :: 0 <= k < |seen| ==> seen[k].0 in missed || LoggedSince(s, e, seen[k].0))
    && (forall p :: p in missed ==> exists k :: 0 <= k < |seen| && seen[k].0 == p)
  }

  /** The path has left the queue, or was taken care of, since. */
  predicate LoggedSince(s: State, e: State, path: string) {
    exists i :: |s.log| <= i < |e.log| && e.log[i].0 == path
  }

  /** What a walk does to the rest of the state: nothing. */
  predicate SameQueue(s: State, e: State) {
    e.queue == s.queue && e.failed == s.failed
  }

  ghost predicate WalkDone(sources: seq<string>, files: set<string>, s: State, e: State, missed: seq<string>,
                           seen: seq<(string, Look)>) {
    && Honest(sources, files, e) && SameQueue(s, e)
    && WalkJustified(sources, files, s, e, seen) && WalkAccounts(s, e, missed, seen)
  }

  /** The first walk accounts for exactly the files it sees: each is returned for the queue or logged
      as done, and nothing else is. Its log entries are true, and the ledger goes on naming
      only uploads that took place. What lies in a folder that cannot be read, or has no readable
      metadata, is not seen. */
  lemma {:induction false} WalkAccountsForVisible(sources: seq<string>, files: set<string>, s: State,
                                                  entries: seq<Tree>)
    requires Honest(sources, files, s) && forall p :: Sees(entries, p) ==> p in files
    ensures var (e, missed) := Walk(sources, s, entries); WalkDone(sources, files, s, e, missed, Visible(entries))
    decreases entries
  {
    if entries != [] {
      var (s1, m1) := WalkOne(sources, s, entries[0]);
      var (e, m2) := Walk(sources, s1, entries[1..]);
      SeesFirst(entries);
      WalkOneAccounts(sources, files, s, entries[0]);
      WalkAccountsForVisible(sources, files, s1, entries[1..]);
      hide WalkOne, VisibleIn, Honest, Sees, Visible, Walk;
      WalkBoth(sources, files, s, s1, e, m1, m2, VisibleIn(entries[0]), Visible(entries[1..]));
      WalkUnfold(sources, s, entries);
    }
  }

  lemma WalkUnfold(sources: seq<string>, s: State, entries: seq<Tree>)
    requires entries != []
    ensures var (s1, m1) := WalkOne(sources, s, entries[0]);
            var (e, m2) := Walk(sources, s1, entries[1..]);
            Walk(sources, s, entries) == (e, m1 + m2)
    ensures Visible(entries) == VisibleIn(entries[0]) + Visible(entries[1..])
  {
    hide WalkOne, VisibleIn;
  }

  lemma SeesFirst(entries: seq<Tree>)
    requires entries != []
    ensures forall p :: Sees(entries[1..], p) ==> Sees(entries, p)
    ensures forall k :: 0 <= k < |VisibleIn(entries[0])| ==> Sees(entries, VisibleIn(entries[0])[k].0)
  {
    var a, b := VisibleIn(entries[0]), Visible(entries[1..]);
    assert Visible(entries) == a + b;
    hide Visible, VisibleIn;
    assert forall k :: 0 <= k < |a| ==> (a + b)[k] == a[k];
    assert forall k :: 0 <= k < |b| ==> (a + b)[|a| + k] == b[k];
  }

  lemma {:induction false} WalkOneAccounts(sources: seq<string>, files: set<string>, s: State, t: Tree)
    requires Honest(sources, files, s) && forall k :: 0 <= k < |VisibleIn(t)| ==> VisibleIn(t)[k].0 in files
    ensures var (e, missed) := WalkOne(sources, s, t); WalkDone(sources, files, s, e, missed, VisibleIn(t))
    decreases t
  {
    match t
    case Leaf(path, look) =>
      assert VisibleIn(t)[0] == (path, FirstLook(look));
      LeafAccounts(sources, files, s, path, FirstLook(look));
    case Folder(readable, inner) =>
      if readable {
        forall p | Sees(inner, p)
          ensures p in files
        {
          var i :| 0 <= i < |Visible(inner)| && Visible(inner)[i].0 == p;
          assert VisibleIn(t)[i].0 == p;
        }
        WalkAccountsForVisible(sources, files, s, inner);
      }
    case _ =>
  }

  lemma LeafAccounts(sources: seq<string>, files: set<string>, s: State, path: string, look: Look)
    requires Honest(sources, files, s) && path in files
    ensures var (e, missed) := WalkLeaf(sources, s, path, look);
            WalkDone(sources, files, s, e, missed, [(path, look)])
  {
    var (e, missed) := WalkLeaf(sources, s, path, look);
    var v, seen := Verdict(sources, s.ledger, path, look), [(path, look)];
    TurnHonest(sources, files, s, path, look);
    var s1 := Turn(sources, s, path, look);
    assert e.ledger == s1.ledger && e.copied == s1.copied && e.log == s1.log;
    hide Turn, Verdict, Recorded, Rel, NoCollision;
    assert Honest(sources, files, e);
    hide Honest;
    assert seen[0] == (path, look);
    if v.Some? {
      assert e.log[|s.log|] == (path, v.value);
      assert Justified(sources, files, e, e.log[|s.log|], look);
    } else {
      assert path in missed;
    }
  }

  lemma WalkBoth(sources: seq<string>, files: set<string>, s: State, s1: State, e: State, m1: seq<string>,
                 m2: seq<string>,
                 seen1: seq<(string, Look)>, seen2: seq<(string, Look)>)
    requires WalkDone(sources, files, s, s1, m1, seen1) && WalkDone(sources, files, s1, e, m2, seen2)
    ensures WalkDone(sources, files, s, e, m1 + m2, seen1 + seen2)
  {
    var seen := seen1 + seen2;
    BothJustified(sources, files, s, s1, e, seen1, seen2);
    hide Honest, WalkJustified;
    forall k | 0 <= k < |seen|
      ensures seen[k].0 in m1 + m2 || LoggedSince(s, e, seen[k].0)
    {
      if k < |seen1| {
        assert seen[k] == seen1[k];
        if LoggedSince(s, s1, seen1[k].0) {
          LoggedOn(sources, files, s, s1, e, seen1[k].0, seen2);
        }
      } else {
        assert seen[k] == seen2[k - |seen1|];
        if LoggedSince(s1, e, seen[k].0) {
          LoggedBefore(sources, files, s, s1, e, seen[k].0, seen1);
        }
      }
    }
    forall p | p in m1 + m2
      ensures exists k :: 0 <= k < |seen| && seen[k].0 == p
    {
      if p in m1 {
        var k :| 0 <= k < |seen1| && seen1[k].0 == p;
        assert seen[k] == seen1[k];
      } else {
        var k :| 0 <= k < |seen2| && seen2[k].0 == p;
        assert seen[|seen1| + k] == seen2[k];
      }
    }
  }

  lemma LoggedOn(sources: seq<string>, files: set<string>, s: State, s1: State, e: State, p: string,
                 seen: seq<(string, Look)>)
    requires LoggedSince(s, s1, p) && WalkJustified(sources, files, s1, e, seen)
    ensures LoggedSince(s, e, p)
  {
    var i :| |s.log| <= i < |s1.log| && s1.log[i].0 == p;
    assert e.log[i] == s1.log[i];
  }

  lemma LoggedBefore(sources: seq<string>, files: set<string>, s: State, s1: State, e: State, p: string,
                     seen: seq<(string, Look)>)
    requires LoggedSince(s1, e, p) && WalkJustified(sources, files, s, s1, seen)
    ensures LoggedSince(s, e, p)
  {
  }

  lemma BothJustified(sources: seq<string>, files: set<string>, s: State, s1: State, e: State,
                      seen1: seq<(string, Look)>, seen2: seq<(string, Look)>)
    requires WalkJustified(sources, files, s, s1, seen1) && WalkJustified(sources, files, s1, e, seen2)
    ensures WalkJustified(sources, files, s, e, seen1 + seen2)
  {
    var seen := seen1 + seen2;
    forall i | |s.log| <= i < |e.log|
      ensures SeenJustified(sources, files, e, i, seen)
    {
      if i < |s1.log| {
        assert SeenJustified(sources, files, s1, i, seen1);
        var k :| 0 <= k < |seen1| && seen1[k].0 == s1.log[i].0 && Justified(sources, files, s1, s1.log[i], seen1[k].1);
        JustifiedOn(sources, files, s1, e, s1.log[i], seen1[k].1);
        hide Justified;
        assert e.log[i] == s1.log[i] && seen[k] == seen1[k];
      } else {
        assert SeenJustified(sources, files, e, i, seen2);
        hide Justified;
        var k :| 0 <= k < |seen2| && seen2[k].0 == e.log[i].0 && Justified(sources, files, e, e.log[i], seen2[k].1);
        assert seen[|seen1| + k] == seen2[k];
      }
    }
  }

  /** What was justified stays so: the uploads that took place only grow in number. */
  lemma JustifiedOn(sources: seq<string>, files: set<string>, s: State, e: State, entry: (string, Reason), look: Look)
    requires Justified(sources, files, s, entry, look) && s.copied <= e.copied
    ensures Justified(sources, files, e, entry, look)
  {
    hide Rel, NoCollision;
  }
}
