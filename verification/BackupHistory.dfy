/** A running upload job over its whole history: the walk it begins with, what the watcher reports,
    and round after round. */
module BackupHistory {
  import opened BackupQueue

  datatype Event =
    | Walked(entries: seq<Tree>)
    | Reported(path: string)
    | Pass(look: string -> Look)

  function EnqueuedAll(s: State, paths: seq<string>): State
    decreases |paths|
  {
    if paths == [] then s else EnqueuedAll(Enqueued(s, paths[0]), paths[1..])
  }

  /** The walk, and what it could not copy queued. */
  function AfterWalk(sources: seq<string>, s: State, entries: seq<Tree>): State {
    var (walked, missed) := Walk(sources, s, entries);
    EnqueuedAll(walked, missed)
  }

  function After(sources: seq<string>, s: State, e: Event): State {
    match e
    case Walked(entries) => AfterWalk(sources, s, entries)
    case Reported(path) => Enqueued(s, path)
    case Pass(look) => AfterRound(sources, s, look)
  }

  function AfterAll(sources: seq<string>, s: State, events: seq<Event>): State
    decreases |events|
  {
    if events == [] then s else AfterAll(sources, After(sources, s, events[0]), events[1..])
  }

  /** The files an event brings up: those a walk sees, and the one the watcher reports. */
  predicate BringsUp(e: Event, path: string) {
    match e
    case Walked(entries) => Sees(entries, path)
    case Reported(p) => p == path
    case Pass(_) => false
  }

  /** What an event sees of a file. */
  ghost predicate Shows(e: Event, path: string, look: Look) {
    match e
    case Walked(entries) => exists i :: 0 <= i < |Visible(entries)| && Visible(entries)[i] == (path, look)
    case Reported(_) => false
    case Pass(seen) => look == seen(path)
  }

  /** Entry `i` of the log is there because of an event in which it was justified. */
  ghost predicate Explained(sources: seq<string>, files: set<string>, e: State, events: seq<Event>, i: nat)
    requires i < |e.log|
  {
    exists k, look :: 0 <= k < |events| && Shows(events[k], e.log[i].0, look)
        && Justified(sources, files, e, e.log[i], look)
  }

  /** Only these files are ever brought up. */
  ghost predicate Only(files: set<string>, s: State, events: seq<Event>) {
    && (forall p :: p in s.queue ==> p in files)
    && (forall k, p :: 0 <= k < |events| && BringsUp(events[k], p) ==> p in files)
  }

  /** What a history leaves of a state: every departure has a true reason. */
  ghost predicate Traced(sources: seq<string>, files: set<string>, s: State, events: seq<Event>, e: State) {
    && Tidy(e) && Honest(sources, files, e)
    && s.log <= e.log && s.copied <= e.copied
    && forall i :: |s.log| <= i < |e.log| ==> Explained(sources, files, e, events, i)
  }

  /** A path is queued still, or has left the queue since. */
  predicate QueuedOrGone(s: State, e: State, p: string) {
    p in e.queue || LoggedSince(s, e, p)
  }

  ghost predicate BroughtUp(events: seq<Event>, p: string) {
    exists k :: 0 <= k < |events| && BringsUp(events[k], p)
  }

  /** No file is dropped silently: over every history of walks, reports and rounds, from any point of
      it, a path queued there or brought up since is queued still, or has left the queue since, for a
      reason that was true when the file was last looked at. A file that left as uploaded or
      current has been copied as it was then, unless two files share their path below a source. */
  lemma {:induction false} NeverDroppedSilently(sources: seq<string>, files: set<string>, s: State, events: seq<Event>)
    requires Tidy(s) && Honest(sources, files, s) && Only(files, s, events)
    ensures var e := AfterAll(sources, s, events);
            && Traced(sources, files, s, events, e)
            && forall p :: p in s.queue || BroughtUp(events, p) ==> QueuedOrGone(s, e, p)
    decreases |events|
  {
    if events != [] {
      var s1 := After(sources, s, events[0]);
      EventTraced(sources, files, s, events);
      hide After, Only, Tidy, Honest, BringsUp;
      NeverDroppedSilently(sources, files, s1, events[1..]);
      var e := AfterAll(sources, s1, events[1..]);
      hide AfterAll;
      TracedOn(sources, files, s, s1, e, events);
      forall p | p in s.queue || BroughtUp(events, p)
        ensures QueuedOrGone(s, e, p)
      {
        if p in s.queue || BringsUp(events[0], p) {
          QueuedOn(s, s1, e, p);
        } else {
          LaterBroughtUp(events, p);
          GoneBefore(s, s1, e, p);
        }
      }
    }
  }

  lemma LaterBroughtUp(events: seq<Event>, p: string)
    requires events != [] && BroughtUp(events, p) && !BringsUp(events[0], p)
    ensures BroughtUp(events[1..], p)
  {
    var k :| 0 <= k < |events| && BringsUp(events[k], p);
    assert events[1..][k - 1] == events[k];
  }

  lemma GoneBefore(s: State, s1: State, e: State, p: string)
    requires s.log <= s1.log && QueuedOrGone(s1, e, p)
    ensures QueuedOrGone(s, e, p)
  {
  }

  lemma QueuedOn(s: State, s1: State, e: State, p: string)
    requires s.log <= s1.log <= e.log
    requires QueuedOrGone(s, s1, p) && (p in s1.queue ==> QueuedOrGone(s1, e, p))
    ensures QueuedOrGone(s, e, p)
  {
    if p !in s1.queue {
      var i :| |s.log| <= i < |s1.log| && s1.log[i].0 == p;
      assert e.log[i] == s1.log[i];
    }
  }

  lemma EventTraced(sources: seq<string>, files: set<string>, s: State, events: seq<Event>)
    requires events != [] && Tidy(s) && Honest(sources, files, s) && Only(files, s, events)
    ensures var s1 := After(sources, s, events[0]);
            && Traced(sources, files, s, [events[0]], s1) && Only(files, s1, events[1..])
            && forall p :: p in s.queue || BringsUp(events[0], p) ==> QueuedOrGone(s, s1, p)
  {
    var e, s1 := events[0], After(sources, s, events[0]);
    assert forall p :: BringsUp(e, p) ==> p in files;
    match e {
      case Walked(entries) => WalkTraced(sources, files, s, entries);
      case Reported(path) => ReportKeeps(sources, files, s, path);
      case Pass(look) => PassTraced(sources, files, s, look);
    }
    hide After, Tidy, Honest, BringsUp, Explained;
    forall k, p | 0 <= k < |events[1..]| && BringsUp(events[1..][k], p)
      ensures p in files
    {
      assert events[1..][k] == events[k + 1];
    }
  }

  lemma ReportKeeps(sources: seq<string>, files: set<string>, s: State, path: string)
    requires Tidy(s) && Honest(sources, files, s)
    ensures var s1 := Enqueued(s, path);
            && Tidy(s1) && Honest(sources, files, s1)
            && s1.log == s.log && s1.copied == s.copied
            && forall p :: p in s1.queue <==> p in s.queue || p == path
  {
  }

  lemma {:induction false} AllReported(sources: seq<string>, files: set<string>, s: State, paths: seq<string>)
    requires Tidy(s) && Honest(sources, files, s)
    ensures var s1 := EnqueuedAll(s, paths);
            && Tidy(s1) && Honest(sources, files, s1)
            && s1.log == s.log && s1.copied == s.copied
            && forall p :: p in s1.queue <==> p in s.queue || p in paths
    decreases |paths|
  {
    if paths != [] {
      ReportKeeps(sources, files, s, paths[0]);
      AllReported(sources, files, Enqueued(s, paths[0]), paths[1..]);
      hide Tidy, Honest, Enqueued;
      assert forall p :: p in paths <==> p == paths[0] || p in paths[1..];
    }
  }

  lemma WalkTraced(sources: seq<string>, files: set<string>, s: State, entries: seq<Tree>)
    requires Tidy(s) && Honest(sources, files, s)
    requires forall p :: Sees(entries, p) ==> p in files
    requires forall p :: p in s.queue ==> p in files
    ensures var s1 := AfterWalk(sources, s, entries);
            && Traced(sources, files, s, [Walked(entries)], s1)
            && (forall p :: p in s1.queue ==> p in files)
            && forall p :: p in s.queue || Sees(entries, p) ==> QueuedOrGone(s, s1, p)
  {
    var (w, missed) := Walk(sources, s, entries);
    WalkAccountsForVisible(sources, files, s, entries);
    AllReported(sources, files, w, missed);
    var s1, seen := AfterWalk(sources, s, entries), Visible(entries);
    assert SameQueue(s, w);
    hide Walk, Honest, Tidy, EnqueuedAll, Visible;
    forall i | |s.log| <= i < |s1.log|
      ensures Explained(sources, files, s1, [Walked(entries)], i)
    {
      WalkExplained(sources, files, w, entries, i);
      ExplainedSame(sources, files, w, s1, [Walked(entries)], i);
    }
    forall p | p in s1.queue
      ensures p in files
    {
      if p in missed {
        var k :| 0 <= k < |seen| && seen[k].0 == p;
      }
    }
    forall p | Sees(entries, p)
      ensures QueuedOrGone(s, s1, p)
    {
      var k :| 0 <= k < |seen| && seen[k].0 == p;
    }
  }

  lemma WalkExplained(sources: seq<string>, files: set<string>, w: State, entries: seq<Tree>, i: nat)
    requires i < |w.log| && SeenJustified(sources, files, w, i, Visible(entries))
    ensures Explained(sources, files, w, [Walked(entries)], i)
  {
    var seen := Visible(entries);
    var k :| 0 <= k < |seen| && seen[k].0 == w.log[i].0 && Justified(sources, files, w, w.log[i], seen[k].1);
    hide Visible, Justified;
    assert seen[k] == (w.log[i].0, seen[k].1);
    assert Shows([Walked(entries)][0], w.log[i].0, seen[k].1);
  }

  lemma ExplainedSame(sources: seq<string>, files: set<string>, w: State, s: State, events: seq<Event>, i: nat)
    requires i < |w.log| && s.log == w.log && s.copied == w.copied && Explained(sources, files, w, events, i)
    ensures Explained(sources, files, s, events, i)
  {
    var k, look :| 0 <= k < |events| && Shows(events[k], w.log[i].0, look)
        && Justified(sources, files, w, w.log[i], look);
    JustifiedOn(sources, files, w, s, w.log[i], look);
    hide Justified, Shows;
  }

  lemma PassTraced(sources: seq<string>, files: set<string>, s: State, look: string -> Look)
    requires Tidy(s) && Honest(sources, files, s)
    requires forall p :: p in s.queue ==> p in files
    ensures var s1 := AfterRound(sources, s, look);
            && Traced(sources, files, s, [Pass(look)], s1)
            && (forall p :: p in s1.queue ==> p in files)
            && forall p :: p in s.queue ==> QueuedOrGone(s, s1, p)
  {
    RoundSettles(sources, s, look);
    RoundTruthful(sources, files, s, [], s.queue, look);
    RoundShrinks(sources, s, [], s.queue, look);
    var s1 := AfterRound(sources, s, look);
    hide Round, Tidy, Honest, Justified;
    forall i | |s.log| <= i < |s1.log|
      ensures Explained(sources, files, s1, [Pass(look)], i)
    {
      assert Shows([Pass(look)][0], s1.log[i].0, look(s1.log[i].0));
    }
    forall p | p in s.queue
      ensures QueuedOrGone(s, s1, p)
    {
      if p in LogPaths(s1.log[|s.log|..]) {
        var i :| 0 <= i < |s1.log[|s.log|..]| && s1.log[|s.log|..][i].0 == p;
        assert s1.log[|s.log| + i].0 == p;
      }
    }
  }

  /** What was explained stays so. */
  lemma TracedOn(sources: seq<string>, files: set<string>, s: State, s1: State, e: State, events: seq<Event>)
    requires events != []
    requires Traced(sources, files, s, [events[0]], s1) && Traced(sources, files, s1, events[1..], e)
    ensures Traced(sources, files, s, events, e)
  {
    hide Tidy, Honest, Justified, Shows;
    forall i | |s.log| <= i < |e.log|
      ensures Explained(sources, files, e, events, i)
    {
      if i < |s1.log| {
        assert Explained(sources, files, s1, [events[0]], i) && e.log[i] == s1.log[i];
        var k, look :| 0 <= k < 1 && Shows([events[0]][k], s1.log[i].0, look)
            && Justified(sources, files, s1, s1.log[i], look);
        JustifiedOn(sources, files, s1, e, s1.log[i], look);
        assert Shows(events[0], e.log[i].0, look);
      } else {
        assert Explained(sources, files, e, events[1..], i);
        var k, look :| 0 <= k < |events[1..]| && Shows(events[1..][k], e.log[i].0, look)
            && Justified(sources, files, e, e.log[i], look);
        assert events[k + 1] == events[1..][k];
      }
    }
  }
}
