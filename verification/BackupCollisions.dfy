/** Files with the same path below different sources share one ledger entry and one place on Luna:
    exactly what goes wrong with them, and exactly when. */
module BackupCollisions {
  import opened BackupHistory
  import opened BackupQueue
  import opened Options

  /** A regular file left the queue since as taken care of, and no bytes of it were ever copied. */
  predicate LeavesUncopied(s: State, e: State, path: string, look: Look) {
    && path !in e.queue
    && (exists i :: |s.log| <= i < |e.log| && e.log[i].0 == path && (e.log[i].1.Current? || e.log[i].1.Uploaded?))
    && !Copied(e, path, look)
  }

  ghost predicate SomeUncopied(sources: seq<string>, s: State, look: string -> Look) {
    exists p :: p in s.queue && LeavesUncopied(s, AfterRound(sources, s, look), p, look(p))
  }

  /** The ledger has an entry for the path below the source that is not this file's own. */
  predicate Borrowed(sources: seq<string>, s: State, p: string) {
    var rel := Rel(sources, p);
    rel.Some? && rel.value in s.ledger && (p, s.ledger[rel.value]) !in s.copied
  }

  /** Another queued file has the same path below its source, or the ledger entry is another file's. */
  ghost predicate AtRisk(sources: seq<string>, s: State) {
    || (exists p :: p in s.queue && Borrowed(sources, s, p))
    || !NoCollision(sources, set p | p in s.queue)
  }

  /** From any state, a round can count a queued file as done that was never copied exactly if that
      is so. */
  lemma UncopiedIff(sources: seq<string>, s: State)
    requires NoDup(s.queue)
    ensures (exists look :: SomeUncopied(sources, s, look)) <==> AtRisk(sources, s)
  {
    if AtRisk(sources, s) {
      var look := Uncopying(sources, s);
      assert SomeUncopied(sources, s, look);
    } else {
      forall look
        ensures !SomeUncopied(sources, s, look)
      {
        OwnRound(sources, s, [], s.queue, look);
        hide AfterRound, Round, Copied;
      }
    }
  }

  /** Nothing to do is borrowed, nor are two paths below a source the same. */
  ghost predicate AllOwn(sources: seq<string>, s: State, todo: seq<string>) {
    && (forall p :: p in todo ==> !Borrowed(sources, s, p))
    && NoCollision(sources, set p | p in todo)
  }

  lemma OwnTurn(sources: seq<string>, s: State, todo: seq<string>, look: Look)
    requires todo != [] && NoDup(todo) && AllOwn(sources, s, todo)
    ensures var s1 := Turn(sources, s, todo[0], look);
            AllOwn(sources, s1, todo[1..]) && NoDup(todo[1..]) && s.copied <= s1.copied && s.log <= s1.log
            && forall i :: |s.log| <= i < |s1.log| ==>
                 s1.log[i].0 == todo[0] && (s1.log[i].1.Current? || s1.log[i].1.Uploaded? ==> Copied(s1, todo[0], look))
  {
    var p, s1 := todo[0], Turn(sources, s, todo[0], look);
    assert p in todo && !Borrowed(sources, s, p);
    forall q | q in todo[1..]
      ensures q in todo && q != p && (Rel(sources, q).Some? ==> Rel(sources, q) != Rel(sources, p))
    {
      var i :| 0 <= i < |todo[1..]| && todo[1..][i] == q;
      assert todo[i + 1] == q;
      assert q in (set x | x in todo) && p in (set x | x in todo);
    }
    hide Rel;
  }

  lemma {:induction false} OwnRound(sources: seq<string>, s: State, kept: seq<string>, todo: seq<string>,
                                    look: string -> Look)
    requires NoDup(todo) && AllOwn(sources, s, todo)
    ensures var e := Round(sources, s, kept, todo, look);
            && s.copied <= e.copied && s.log <= e.log
            && forall i :: |s.log| <= i < |e.log| && (e.log[i].1.Current? || e.log[i].1.Uploaded?) ==>
                 Copied(e, e.log[i].0, look(e.log[i].0))
    decreases |todo|
  {
    if todo != [] {
      var p := todo[0];
      var s1 := Turn(sources, s, p, look(p));
      var k1 := if Verdict(sources, s.ledger, p, look(p)).None? then kept + [p] else kept;
      OwnTurn(sources, s, todo, look(p));
      hide Turn, Verdict, AllOwn, NoDup;
      OwnRound(sources, s1, k1, todo[1..], look);
      var e := Round(sources, s1, k1, todo[1..], look);
      assert forall i :: |s.log| <= i < |s1.log| ==> e.log[i] == s1.log[i];
    }
  }

  /** Two files, which may be the same, with one size and time; everything else is gone. */
  function Pair(p: string, q: string, stamp: Stamp): string -> Look {
    x => if x == p || x == q then Seen(stamp.size, stamp.mtime, true, true) else Missing
  }

  /** A round in which a file at risk is lost. */
  lemma Uncopying(sources: seq<string>, s: State) returns (look: string -> Look)
    requires AtRisk(sources, s)
    ensures SomeUncopied(sources, s, look)
  {
    if p :| p in s.queue && Borrowed(sources, s, p) {
      var stamp := s.ledger[Rel(sources, p).value];
      look := Pair(p, p, stamp);
      LoseOne(sources, s, p, p, stamp);
      assert LeavesUncopied(s, AfterRound(sources, s, look), p, look(p));
    } else {
      var files := set x | x in s.queue;
      var p, q :| p in files && q in files && Rel(sources, p).Some? && Rel(sources, p) == Rel(sources, q) && p != q;
      var t := Later(s.copied);
      look := Pair(p, q, Stamp(0, t));
      assert (p, Stamp(0, t)) !in s.copied && (q, Stamp(0, t)) !in s.copied;
      assert !Borrowed(sources, s, p) && !Borrowed(sources, s, q);
      LoseOne(sources, s, p, q, Stamp(0, t));
      var e := AfterRound(sources, s, look);
      assert LeavesUncopied(s, e, p, look(p)) || LeavesUncopied(s, e, q, look(q));
    }
  }

  /** A time later than those of all uploads. */
  lemma {:induction false} Later(copied: set<(string, Stamp)>) returns (t: int)
    ensures forall x :: x in copied ==> x.1.mtime < t
    decreases |copied|
  {
    if copied == {} {
      t := 0;
    } else {
      var x :| x in copied;
      t := Later(copied - {x});
      t := if x.1.mtime < t then t else x.1.mtime + 1;
    }
  }

  /** The ledger entry tells of an upload of at most one of the two, which have their path in common. */
  predicate Shared(sources: seq<string>, s: State, p: string, q: string, stamp: Stamp) {
    && Rel(sources, p).Some? && Rel(sources, q) == Rel(sources, p)
    && ((p, stamp) !in s.copied || (q, stamp) !in s.copied)
    && ((p, stamp) in s.copied || (q, stamp) in s.copied || p == q ==>
          Rel(sources, p).value in s.ledger && s.ledger[Rel(sources, p).value] == stamp)
  }

  /** Taken care of since, says the log. */
  predicate DoneSince(n: nat, e: State, p: string) {
    exists i :: n <= i < |e.log| && e.log[i].0 == p && (e.log[i].1.Current? || e.log[i].1.Uploaded?)
  }

  lemma SharedTurn(sources: seq<string>, s: State, x: string, p: string, q: string, stamp: Stamp)
    requires Shared(sources, s, p, q, stamp)
    ensures var look := Pair(p, q, stamp)(x);
            var s1 := Turn(sources, s, x, look);
            && Verdict(sources, s.ledger, x, look).Some?
            && Shared(sources, s1, p, q, stamp) && s.log <= s1.log
            && (x == p || x == q ==> DoneSince(|s.log|, s1, x))
  {
    var s1 := Turn(sources, s, x, Pair(p, q, stamp)(x));
    hide Rel;
    assert s1.log[|s.log|].0 == x;
  }

  lemma {:induction false} SharedRound(sources: seq<string>, s: State, todo: seq<string>, p: string, q: string,
                                       stamp: Stamp)
    requires Shared(sources, s, p, q, stamp)
    ensures var e := Round(sources, s, [], todo, Pair(p, q, stamp));
            && e.queue == [] && Shared(sources, e, p, q, stamp) && s.log <= e.log
            && (p in todo ==> DoneSince(|s.log|, e, p)) && (q in todo ==> DoneSince(|s.log|, e, q))
    decreases |todo|
  {
    if todo != [] {
      var x := todo[0];
      SharedTurn(sources, s, x, p, q, stamp);
      var s1 := Turn(sources, s, x, Pair(p, q, stamp)(x));
      hide Turn, Verdict, Shared, Pair;
      SharedRound(sources, s1, todo[1..], p, q, stamp);
      var e := Round(sources, s1, [], todo[1..], Pair(p, q, stamp));
      DoneStays(|s.log|, s1, e, x);
      assert DoneSince(|s1.log|, e, p) ==> DoneSince(|s.log|, e, p);
      assert DoneSince(|s1.log|, e, q) ==> DoneSince(|s.log|, e, q);
      hide DoneSince;
      assert forall y :: y in todo ==> y == x || y in todo[1..];
    }
  }

  lemma DoneStays(n: nat, s: State, e: State, p: string)
    requires s.log <= e.log
    ensures DoneSince(n, s, p) ==> DoneSince(n, e, p)
  {
    if DoneSince(n, s, p) {
      var i :| n <= i < |s.log| && s.log[i].0 == p && (s.log[i].1.Current? || s.log[i].1.Uploaded?);
      assert e.log[i] == s.log[i];
    }
  }

  lemma LoseOne(sources: seq<string>, s: State, p: string, q: string, stamp: Stamp)
    requires p in s.queue && q in s.queue && Shared(sources, s, p, q, stamp)
    ensures var look := Pair(p, q, stamp);
            var e := AfterRound(sources, s, look);
            LeavesUncopied(s, e, p, look(p)) || LeavesUncopied(s, e, q, look(q))
  {
    SharedRound(sources, s, s.queue, p, q, stamp);
    hide Round, Rel;
  }

  /** What Luna holds below the destination is what the ledger says, from a file with that path. */
  ghost predicate Mirrors(sources: seq<string>, files: set<string>, s: State) {
    && s.there.Keys == s.ledger.Keys
    && forall rel :: rel in s.there ==>
         s.there[rel].0 in files && Rel(sources, s.there[rel].0) == Some(rel) && s.there[rel].1 == s.ledger[rel]
  }

  predicate SaysCopied(reason: Reason) {
    reason.Current? || reason.Uploaded?
  }

  /** Entry `i` is the last to say that its file has been copied. */
  predicate LastWord(e: State, i: nat)
    requires i < |e.log|
  {
    && SaysCopied(e.log[i].1)
    && forall j :: i < j < |e.log| ==> !(e.log[j].0 == e.log[i].0 && SaysCopied(e.log[j].1))
  }

  /** Luna holds the file of the entry, in the state the entry speaks of. */
  predicate HoldsEntry(sources: seq<string>, e: State, entry: (string, Reason))
    requires SaysCopied(entry.1)
  {
    var rel := Rel(sources, entry.0);
    rel.Some? && rel.value in e.there && e.there[rel.value] == (entry.0, entry.1.stamp)
  }

  /** Every file that left the queue as uploaded or current is on Luna, as it was when it last did. */
  predicate HoldsAll(sources: seq<string>, e: State) {
    forall i :: 0 <= i < |e.log| && LastWord(e, i) ==> HoldsEntry(sources, e, e.log[i])
  }

  ghost predicate Good(sources: seq<string>, files: set<string>, s: State) {
    Mirrors(sources, files, s) && HoldsAll(sources, s)
  }

  /** What a turn and a step of the walk have in common. */
  function Taken(sources: seq<string>, s: State, path: string, look: Look): State {
    var v := Verdict(sources, s.ledger, path, look);
    var s' := Recorded(sources, s, path, look);
    if v.None? then s' else s'.(log := s'.log + [(path, v.value)])
  }

  lemma TakenMirrors(sources: seq<string>, files: set<string>, s: State, path: string, look: Look)
    requires Mirrors(sources, files, s) && path in files
    ensures Mirrors(sources, files, Taken(sources, s, path, look))
  {
    hide Rel;
  }

  lemma TakenGood(sources: seq<string>, files: set<string>, s: State, path: string, look: Look)
    requires NoCollision(sources, files) && Good(sources, files, s) && path in files
    ensures Good(sources, files, Taken(sources, s, path, look))
  {
    var e, v := Taken(sources, s, path, look), Verdict(sources, s.ledger, path, look);
    TakenMirrors(sources, files, s, path, look);
    forall i | 0 <= i < |e.log| && LastWord(e, i)
      ensures HoldsEntry(sources, e, e.log[i])
    {
      if i < |s.log| {
        EarlierWord(sources, files, s, path, look, i);
      } else {
        hide Rel;
      }
    }
  }

  lemma EarlierWord(sources: seq<string>, files: set<string>, s: State, path: string, look: Look, i: nat)
    requires NoCollision(sources, files) && Good(sources, files, s) && path in files
    requires i < |s.log| && LastWord(Taken(sources, s, path, look), i)
    ensures HoldsEntry(sources, Taken(sources, s, path, look), s.log[i])
  {
    var e, v := Taken(sources, s, path, look), Verdict(sources, s.ledger, path, look);
    assert s.log <= e.log;
    forall j | i < j < |s.log|
      ensures !(s.log[j].0 == s.log[i].0 && SaysCopied(s.log[j].1))
    {
      assert e.log[j] == s.log[j];
    }
    assert LastWord(s, i) && HoldsEntry(sources, s, s.log[i]);
    if v.Some? && v.value.Uploaded? {
      assert e.log[|s.log|] == (path, v.value);
      assert s.log[i].0 != path;
      hide Verdict;
    }
  }

  lemma {:induction false} RoundGood(sources: seq<string>, files: set<string>, s: State, kept: seq<string>,
                                     todo: seq<string>, look: string -> Look)
    requires NoCollision(sources, files) && Good(sources, files, s) && forall p :: p in todo ==> p in files
    ensures Good(sources, files, Round(sources, s, kept, todo, look))
    decreases |todo|
  {
    if todo != [] {
      var p := todo[0];
      TakenGood(sources, files, s, p, look(p));
      var s1 := Turn(sources, s, p, look(p));
      GoodAlike(sources, files, Taken(sources, s, p, look(p)), s1);
      var k1 := if Verdict(sources, s.ledger, p, look(p)).None? then kept + [p] else kept;
      assert forall q :: q in todo[1..] ==> q in todo;
      hide Turn, Verdict, Taken, Good, NoCollision;
      RoundGood(sources, files, s1, k1, todo[1..], look);
    } else {
      GoodAlike(sources, files, s, s.(queue := kept));
    }
  }

  lemma GoodAlike(sources: seq<string>, files: set<string>, s: State, t: State)
    requires Good(sources, files, s) && t.log == s.log && t.ledger == s.ledger && t.there == s.there
    ensures Good(sources, files, t)
  {
    hide Rel;
    assert forall i :: 0 <= i < |t.log| ==> (LastWord(t, i) <==> LastWord(s, i));
  }

  lemma {:induction false} WalkGood(sources: seq<string>, files: set<string>, s: State, entries: seq<Tree>)
    requires NoCollision(sources, files) && Good(sources, files, s) && forall p :: Sees(entries, p) ==> p in files
    ensures Good(sources, files, Walk(sources, s, entries).0)
    decreases entries
  {
    if entries != [] {
      SeesFirst(entries);
      WalkOneGood(sources, files, s, entries[0]);
      hide NoCollision, Good, WalkOne, Sees;
      WalkGood(sources, files, WalkOne(sources, s, entries[0]).0, entries[1..]);
    }
  }

  lemma {:induction false} WalkOneGood(sources: seq<string>, files: set<string>, s: State, t: Tree)
    requires NoCollision(sources, files) && Good(sources, files, s)
    requires forall k :: 0 <= k < |VisibleIn(t)| ==> VisibleIn(t)[k].0 in files
    ensures Good(sources, files, WalkOne(sources, s, t).0)
    decreases t
  {
    hide NoCollision, Good;
    match t
    case Leaf(path, look) =>
      assert VisibleIn(t)[0] == (path, FirstLook(look));
      TakenGood(sources, files, s, path, FirstLook(look));
    case Folder(readable, inner) =>
      if readable {
        forall p | Sees(inner, p)
          ensures p in files
        {
          var i :| 0 <= i < |Visible(inner)| && Visible(inner)[i].0 == p;
          assert VisibleIn(t)[i].0 == p;
        }
        WalkGood(sources, files, s, inner);
      }
    case _ =>
  }

  lemma {:induction false} EnqueuedGood(sources: seq<string>, files: set<string>, s: State, paths: seq<string>)
    requires Good(sources, files, s)
    ensures Good(sources, files, EnqueuedAll(s, paths))
    decreases |paths|
  {
    if paths != [] {
      GoodAlike(sources, files, s, Enqueued(s, paths[0]));
      hide Good, Enqueued;
      EnqueuedGood(sources, files, Enqueued(s, paths[0]), paths[1..]);
    }
  }

  lemma EventGood(sources: seq<string>, files: set<string>, s: State, e: Event)
    requires NoCollision(sources, files) && Good(sources, files, s)
    requires forall p :: p in s.queue || BringsUp(e, p) ==> p in files
    ensures Good(sources, files, After(sources, s, e))
  {
    hide NoCollision, Good;
    match e
    case Walked(entries) =>
      assert forall p :: Sees(entries, p) ==> BringsUp(e, p);
      WalkGood(sources, files, s, entries);
      hide Walk;
      EnqueuedGood(sources, files, Walk(sources, s, entries).0, Walk(sources, s, entries).1);
    case Reported(path) => GoodAlike(sources, files, s, Enqueued(s, path));
    case Pass(look) => RoundGood(sources, files, s, [], s.queue, look);
  }

  lemma {:induction false} HistoryGood(sources: seq<string>, files: set<string>, s: State, events: seq<Event>)
    requires NoCollision(sources, files) && Good(sources, files, s)
    requires Tidy(s) && Honest(sources, files, s) && Only(files, s, events)
    ensures Good(sources, files, AfterAll(sources, s, events))
    decreases |events|
  {
    if events != [] {
      EventGood(sources, files, s, events[0]);
      EventTraced(sources, files, s, events);
      hide NoCollision, Good, Tidy, Honest, Only, After;
      HistoryGood(sources, files, After(sources, s, events[0]), events[1..]);
    }
  }

  /** A job that starts: nothing queued, and a ledger that speaks of uploads that are still on Luna. */
  ghost predicate Started(sources: seq<string>, files: set<string>, s: State) {
    && s.queue == [] && s.failed == {} && s.log == []
    && Mirrors(sources, files, s) && Honest(sources, files, s)
  }

  ghost predicate HoldsAfter(sources: seq<string>, files: set<string>, s: State, events: seq<Event>) {
    Started(sources, files, s) && Only(files, s, events) ==> HoldsAll(sources, AfterAll(sources, s, events))
  }

  /** After every history of every job over these files, Luna holds each file that left the queue as
      uploaded or current, as it was when it last did, exactly if no two of them have the same
      path below their sources. */
  lemma LunaHoldsIff(sources: seq<string>, files: set<string>)
    ensures (forall s, events :: HoldsAfter(sources, files, s, events)) <==> NoCollision(sources, files)
  {
    if NoCollision(sources, files) {
      forall s, events
        ensures HoldsAfter(sources, files, s, events)
      {
        hide NoCollision, Mirrors, Honest, Only, AfterAll;
        if Started(sources, files, s) && Only(files, s, events) {
          HistoryGood(sources, files, s, events);
        }
      }
    } else {
      var p, q :| p in files && q in files && Rel(sources, p).Some? && Rel(sources, p) == Rel(sources, q) && p != q;
      Overwritten(sources, files, p, q);
      hide *;
      assert !HoldsAfter(sources, files, Fresh(), OneThenOther(p, q));
    }
  }

  function Fresh(): State {
    State([], {}, map[], [], {}, map[])
  }

  /** Both files are reported and uploaded, with different times. */
  function OneThenOther(p: string, q: string): seq<Event> {
    [Reported(p), Reported(q), Pass(x => Seen(0, if x == p then 1 else 2, true, true))]
  }

  lemma ThreeEvents(sources: seq<string>, s0: State, s1: State, s2: State, s3: State, events: seq<Event>)
    requires |events| == 3
    requires After(sources, s0, events[0]) == s1 && After(sources, s1, events[1]) == s2
             && After(sources, s2, events[2]) == s3
    ensures AfterAll(sources, s0, events) == s3
  {
    hide After;
    assert events[2..][1..] == [] && AfterAll(sources, s2, events[2..]) == s3;
    assert events[1..][1..] == events[2..] && AfterAll(sources, s1, events[1..]) == s3;
  }

  /** The round over both: the second upload replaces the first on Luna. */
  lemma BothUploaded(sources: seq<string>, p: string, q: string) returns (e: State)
    requires Rel(sources, p).Some? && Rel(sources, p) == Rel(sources, q) && p != q
    ensures e == AfterRound(sources, Fresh().(queue := [p, q]), OneThenOther(p, q)[2].look)
    ensures e.log == [(p, Uploaded(Stamp(0, 1))), (q, Uploaded(Stamp(0, 2)))]
    ensures Rel(sources, p).value in e.there && e.there[Rel(sources, p).value] == (q, Stamp(0, 2))
  {
    hide Rel;
    var look, s := OneThenOther(p, q)[2].look, Fresh().(queue := [p, q]);
    var s1 := Turn(sources, s, p, look(p));
    var s2 := Turn(sources, s1, q, look(q));
    assert [p, q][1..] == [q] && [q][1..] == [];
    e := s2.(queue := []);
    assert Round(sources, s2, [], [], look) == e;
    assert Round(sources, s1, [], [q], look) == e;
  }

  lemma Overwritten(sources: seq<string>, files: set<string>, p: string, q: string)
    requires p in files && q in files && Rel(sources, p).Some? && Rel(sources, p) == Rel(sources, q) && p != q
    ensures !HoldsAfter(sources, files, Fresh(), OneThenOther(p, q))
  {
    var events, r0 := OneThenOther(p, q), Fresh();
    var r1, r2 := r0.(queue := [p]), r0.(queue := [p, q]);
    var e := BothUploaded(sources, p, q);
    hide Rel, AfterRound;
    assert After(sources, r0, events[0]) == r1 && After(sources, r1, events[1]) == r2;
    assert After(sources, r2, events[2]) == e;
    ThreeEvents(sources, r0, r1, r2, e, events);
    hide After, AfterAll;
    assert LastWord(e, 0) && !HoldsEntry(sources, e, e.log[0]);
  }
}
