/** What a round and the first walk make of a file: whether it has to be tried again, and what the ledger and
    Luna have of it afterwards. */
module BackupOutcomes {
  import opened BackupQueue
  import opened Options

  lemma {:induction false} KeptStays(sources: seq<string>, s: State, kept: seq<string>, todo: seq<string>,
                                     look: string -> Look)
    ensures forall p :: p in kept ==> p in Round(sources, s, kept, todo, look).queue
    decreases |todo|
  {
    if todo != [] {
      var p := todo[0];
      var stays := Verdict(sources, s.ledger, p, look(p)).None?;
      hide Turn, Verdict;
      KeptStays(sources, Turn(sources, s, p, look(p)), if stays then kept + [p] else kept, todo[1..], look);
      assert forall q :: q in kept ==> q in kept + [p];
    }
  }

  /** No other of these files has the path's own path below a source. */
  ghost predicate OwnPath(sources: seq<string>, todo: seq<string>, path: string) {
    forall q :: q in todo && q != path && Rel(sources, path).Some? ==> Rel(sources, q) != Rel(sources, path)
  }

  /** The ledger has a file of this size and time under the path. */
  predicate Recent(ledger: map<string, Stamp>, rel: string, look: Look)
    requires look.Seen?
  {
    rel in ledger && ledger[rel].size == look.size && ledger[rel].mtime == look.mtime
  }

  /** The file is to be uploaded now, and that works. */
  predicate GoesUp(sources: seq<string>, s: State, path: string, look: Look) {
    && look.Seen? && look.settled && look.sent
    && Rel(sources, path).Some? && !Recent(s.ledger, Rel(sources, path).value, look)
  }

  /** A path has to be tried again exactly if it lies below a source and cannot be read, or is a file that is
      not in the ledger as it is and is still being written to or could not be sent. */
  predicate HasToStay(sources: seq<string>, s: State, path: string, look: Look) {
    && Rel(sources, path).Some?
    && match look
       case Missing => false
       case Unreadable => true
       case NotFile => false
       case Seen(_, _, settled, sent) => !Recent(s.ledger, Rel(sources, path).value, look) && !(settled && sent)
  }

  /** What the ledger and Luna have under a path. */
  predicate SameAt(s: State, e: State, rel: string) {
    && (rel in s.ledger <==> rel in e.ledger) && (rel in s.ledger ==> e.ledger[rel] == s.ledger[rel])
    && (rel in s.there <==> rel in e.there) && (rel in s.there ==> e.there[rel] == s.there[rel])
  }

  /** On Luna and in the ledger as it was just seen. */
  predicate IsUp(e: State, rel: string, path: string, look: Look)
    requires look.Seen?
  {
    var stamp := Stamp(look.size, look.mtime);
    && (path, stamp) in e.copied
    && rel in e.ledger && e.ledger[rel] == stamp && rel in e.there && e.there[rel] == (path, stamp)
  }

  /** What is to become of the path, and what is under it afterwards. */
  predicate DoneRight(sources: seq<string>, s: State, e: State, path: string, look: Look) {
    Rel(sources, path).Some? ==>
      if GoesUp(sources, s, path, look) then IsUp(e, Rel(sources, path).value, path, look)
      else SameAt(s, e, Rel(sources, path).value)
  }

  lemma DoneStaysRight(sources: seq<string>, s: State, s1: State, e: State, path: string, look: Look)
    requires DoneRight(sources, s, s1, path, look) && s1.copied <= e.copied
    requires Rel(sources, path).Some? ==> SameAt(s1, e, Rel(sources, path).value)
    ensures DoneRight(sources, s, e, path, look)
  {
    hide Rel;
  }

  lemma SameForIt(sources: seq<string>, s: State, s1: State, e: State, path: string, look: Look)
    requires Rel(sources, path).Some? ==> SameAt(s, s1, Rel(sources, path).value)
    ensures HasToStay(sources, s1, path, look) <==> HasToStay(sources, s, path, look)
    ensures DoneRight(sources, s1, e, path, look) ==> DoneRight(sources, s, e, path, look)
  {
    hide Rel;
  }

  lemma OwnTurnDecides(sources: seq<string>, s: State, path: string, look: Look)
    ensures Verdict(sources, s.ledger, path, look).None? <==> HasToStay(sources, s, path, look)
    ensures DoneRight(sources, s, Turn(sources, s, path, look), path, look)
  {
    hide Rel;
  }

  lemma OtherTurn(sources: seq<string>, s: State, q: string, look: Look, path: string)
    requires Rel(sources, path).Some? ==> Rel(sources, q) != Rel(sources, path)
    ensures Rel(sources, path).Some? ==> SameAt(s, Turn(sources, s, q, look), Rel(sources, path).value)
    ensures s.copied <= Turn(sources, s, q, look).copied
  {
    hide Rel;
  }

  lemma {:induction false} OthersLeavePath(sources: seq<string>, s: State, kept: seq<string>, todo: seq<string>,
                                           look: string -> Look, path: string)
    requires Rel(sources, path).Some? ==> forall q :: q in todo ==> Rel(sources, q) != Rel(sources, path)
    ensures Rel(sources, path).Some? ==>
              SameAt(s, Round(sources, s, kept, todo, look), Rel(sources, path).value)
    ensures s.copied <= Round(sources, s, kept, todo, look).copied
    decreases |todo|
  {
    if todo != [] {
      var p := todo[0];
      OtherTurn(sources, s, p, look(p), path);
      assert forall q :: q in todo[1..] ==> q in todo;
      hide Turn, Verdict, Rel;
      OthersLeavePath(sources, Turn(sources, s, p, look(p)),
                      if Verdict(sources, s.ledger, p, look(p)).None? then kept + [p] else kept, todo[1..], look, path);
    }
  }

  /** What a round makes of each queued file that shares its path below a source with no other queued file. */
  lemma {:induction false} RoundDecides(sources: seq<string>, s: State, kept: seq<string>, todo: seq<string>,
                                        look: string -> Look, path: string)
    requires NoDup(todo) && path in todo && path !in kept && OwnPath(sources, todo, path)
    ensures var e := Round(sources, s, kept, todo, look);
            && (path in e.queue <==> HasToStay(sources, s, path, look(path)))
            && DoneRight(sources, s, e, path, look(path))
    decreases |todo|
  {
    var p, rest := todo[0], todo[1..];
    var s1 := Turn(sources, s, p, look(p));
    var k1 := if Verdict(sources, s.ledger, p, look(p)).None? then kept + [p] else kept;
    var e := Round(sources, s1, k1, rest, look);
    assert forall q :: q in rest ==> q in todo;
    assert forall i :: 0 <= i < |rest| ==> rest[i] == todo[i + 1] && rest[i] != p;
    if p == path {
      OwnTurnDecides(sources, s, path, look(path));
      KeptStays(sources, s1, k1, rest, look);
      RoundShrinks(sources, s1, k1, rest, look);
      hide Turn, Verdict, Rel, SameAt, DoneRight, HasToStay, NoDup;
      OthersLeavePath(sources, s1, k1, rest, look, path);
      DoneStaysRight(sources, s, s1, e, path, look(path));
    } else {
      assert todo == [p] + rest && NoDup(rest);
      OtherTurn(sources, s, p, look(p), path);
      SameForIt(sources, s, s1, e, path, look(path));
      assert OwnPath(sources, rest, path);
      hide Turn, Verdict, Rel, SameAt, DoneRight, HasToStay, NoDup, OwnPath;
      RoundDecides(sources, s1, k1, rest, look, path);
    }
  }

  /** The same for a full round over the queue. */
  lemma QueueDecides(sources: seq<string>, s: State, look: string -> Look, path: string)
    requires NoDup(s.queue) && path in s.queue && OwnPath(sources, s.queue, path)
    ensures var e := AfterRound(sources, s, look);
            && (path in e.queue <==> HasToStay(sources, s, path, look(path)))
            && DoneRight(sources, s, e, path, look(path))
  {
    RoundDecides(sources, s, [], s.queue, look, path);
  }

  /** The walk comes to this entry, through folders it can read. */
  ghost predicate ComesTo(entries: seq<Tree>, t: Tree)
    decreases entries
  {
    exists i :: 0 <= i < |entries| && EntryComesTo(entries[i], t)
  }

  ghost predicate EntryComesTo(e: Tree, t: Tree)
    decreases e
  {
    e == t || (e.Folder? && e.readable && ComesTo(e.entries, t))
  }

  /** A file that is listed and gone by the time the walk reads it is queued, for a round to find out. */
  lemma {:induction false} GoneFileIsQueued(sources: seq<string>, s: State, entries: seq<Tree>, path: string)
    requires ComesTo(entries, Leaf(path, Missing)) && Rel(sources, path).Some?
    ensures path in Walk(sources, s, entries).1
    decreases entries
  {
    var (s1, m1) := WalkOne(sources, s, entries[0]);
    hide Verdict, Recorded, Rel;
    WalkUnfold(sources, s, entries);
    if EntryComesTo(entries[0], Leaf(path, Missing)) {
      GoneEntryIsQueued(sources, s, entries[0], path);
    } else {
      var i :| 0 < i < |entries| && EntryComesTo(entries[i], Leaf(path, Missing));
      assert entries[1..][i - 1] == entries[i];
      GoneFileIsQueued(sources, s1, entries[1..], path);
    }
  }

  lemma {:induction false} GoneEntryIsQueued(sources: seq<string>, s: State, e: Tree, path: string)
    requires EntryComesTo(e, Leaf(path, Missing)) && Rel(sources, path).Some?
    ensures path in WalkOne(sources, s, e).1
    decreases e
  {
    hide Rel;
    if e.Folder? {
      GoneFileIsQueued(sources, s, e.entries, path);
    }
  }

  /** A file the walk comes to is seen as it is; one that has gone by then counts as unreadable. */
  lemma {:induction false} SeenAsItIs(entries: seq<Tree>, path: string, look: Look)
    requires ComesTo(entries, Leaf(path, look))
    ensures (path, if look == Missing then Unreadable else look) in Visible(entries)
    decreases entries
  {
    hide ComesTo, EntryComesTo;
    var i :| 0 <= i < |entries| && EntryComesTo(entries[i], Leaf(path, look)) by {
      OneComesTo(entries, Leaf(path, look));
    }
    VisibleParts(entries, i);
    EntrySeen(entries[i], path, look);
  }

  lemma OneComesTo(entries: seq<Tree>, t: Tree)
    requires ComesTo(entries, t)
    ensures exists i :: 0 <= i < |entries| && EntryComesTo(entries[i], t)
  {
  }

  lemma {:induction false} VisibleParts(entries: seq<Tree>, i: nat)
    requires i < |entries|
    ensures forall x :: x in VisibleIn(entries[i]) ==> x in Visible(entries)
  {
    hide VisibleIn;
    if i != 0 {
      assert entries[1..][i - 1] == entries[i];
      VisibleParts(entries[1..], i - 1);
    }
  }

  lemma {:induction false} EntrySeen(e: Tree, path: string, look: Look)
    requires EntryComesTo(e, Leaf(path, look))
    ensures (path, if look == Missing then Unreadable else look) in VisibleIn(e)
    decreases e
  {
    if e.Folder? {
      SeenAsItIs(e.entries, path, look);
    }
  }

  /** The walk over the files it sees, one after the other. */
  function WalkList(sources: seq<string>, s: State, seen: seq<(string, Look)>): (State, seq<string>)
    decreases |seen|
  {
    if seen == [] then (s, [])
    else
      var (s1, missed) := WalkLeaf(sources, s, seen[0].0, seen[0].1);
      var (e, more) := WalkList(sources, s1, seen[1..]);
      (e, missed + more)
  }

  lemma {:induction false} WalkListJoined(sources: seq<string>, s: State, a: seq<(string, Look)>,
                                          b: seq<(string, Look)>)
    ensures var (s1, m1) := WalkList(sources, s, a);
            var (e, m2) := WalkList(sources, s1, b);
            WalkList(sources, s, a + b) == (e, m1 + m2)
    decreases |a|
  {
    if a == [] {
      assert a + b == b;
      assert [] + WalkList(sources, s, b).1 == WalkList(sources, s, b).1;
    } else {
      var (s1, m) := WalkLeaf(sources, s, a[0].0, a[0].1);
      hide WalkLeaf;
      assert (a + b)[0] == a[0] && (a + b)[1..] == a[1..] + b;
      WalkListJoined(sources, s1, a[1..], b);
      var (s2, m1) := WalkList(sources, s1, a[1..]);
      var m2 := WalkList(sources, s2, b).1;
      assert m + (m1 + m2) == (m + m1) + m2;
    }
  }

  lemma {:induction false} WalkIsList(sources: seq<string>, s: State, entries: seq<Tree>)
    ensures Walk(sources, s, entries) == WalkList(sources, s, Visible(entries))
    decreases entries
  {
    if entries != [] {
      var (s1, m1) := WalkOne(sources, s, entries[0]);
      EntryIsList(sources, s, entries[0]);
      WalkIsList(sources, s1, entries[1..]);
      WalkUnfold(sources, s, entries);
      hide WalkOne, VisibleIn, WalkList, Walk, Visible;
      WalkListJoined(sources, s, VisibleIn(entries[0]), Visible(entries[1..]));
    }
  }

  lemma {:induction false} EntryIsList(sources: seq<string>, s: State, t: Tree)
    ensures WalkOne(sources, s, t) == WalkList(sources, s, VisibleIn(t))
    decreases t
  {
    match t
    case Leaf(path, look) =>
      var seen := [(path, FirstLook(look))];
      assert seen[1..] == [] && VisibleIn(t) == seen;
      var (s1, m) := WalkLeaf(sources, s, path, FirstLook(look));
      hide WalkLeaf;
      assert m + [] == m;
    case Folder(readable, inner) =>
      if readable {
        WalkIsList(sources, s, inner);
      }
    case _ =>
  }

  lemma LeafDecides(sources: seq<string>, s: State, path: string, look: Look)
    ensures WalkLeaf(sources, s, path, look).1 == if HasToStay(sources, s, path, look) then [path] else []
    ensures DoneRight(sources, s, WalkLeaf(sources, s, path, look).0, path, look)
  {
    hide Rel;
  }

  lemma OtherLeaf(sources: seq<string>, s: State, q: string, look: Look, path: string)
    requires Rel(sources, path).Some? ==> Rel(sources, q) != Rel(sources, path)
    ensures Rel(sources, path).Some? ==> SameAt(s, WalkLeaf(sources, s, q, look).0, Rel(sources, path).value)
    ensures s.copied <= WalkLeaf(sources, s, q, look).0.copied
    ensures path !in WalkLeaf(sources, s, q, look).1
  {
    hide Rel;
  }

  lemma {:induction false} OthersWalked(sources: seq<string>, s: State, seen: seq<(string, Look)>, path: string)
    requires Rel(sources, path).Some? ==>
               forall i :: 0 <= i < |seen| ==> Rel(sources, seen[i].0) != Rel(sources, path)
    ensures var (e, missed) := WalkList(sources, s, seen);
            && (Rel(sources, path).Some? ==> SameAt(s, e, Rel(sources, path).value))
            && s.copied <= e.copied && path !in missed
    decreases |seen|
  {
    if seen != [] {
      OtherLeaf(sources, s, seen[0].0, seen[0].1, path);
      hide WalkLeaf, Rel;
      OthersWalked(sources, WalkLeaf(sources, s, seen[0].0, seen[0].1).0, seen[1..], path);
    }
  }

  lemma {:induction false} ListDecides(sources: seq<string>, s: State, seen: seq<(string, Look)>, k: nat)
    requires k < |seen|
    requires Rel(sources, seen[k].0).Some? ==>
               forall i :: 0 <= i < |seen| && i != k ==> Rel(sources, seen[i].0) != Rel(sources, seen[k].0)
    ensures var (e, missed) := WalkList(sources, s, seen);
            && (seen[k].0 in missed <==> HasToStay(sources, s, seen[k].0, seen[k].1))
            && DoneRight(sources, s, e, seen[k].0, seen[k].1)
    decreases |seen|
  {
    var (path, look) := seen[k];
    var s1 := WalkLeaf(sources, s, seen[0].0, seen[0].1).0;
    var e := WalkList(sources, s1, seen[1..]).0;
    if k == 0 {
      LeafDecides(sources, s, path, look);
      OthersWalked(sources, s1, seen[1..], path);
      hide WalkLeaf, Rel, HasToStay, DoneRight;
      DoneStaysRight(sources, s, s1, e, path, look);
    } else {
      OtherLeaf(sources, s, seen[0].0, seen[0].1, path);
      SameForIt(sources, s, s1, e, path, look);
      assert seen[1..][k - 1] == seen[k];
      hide WalkLeaf, Rel, HasToStay, DoneRight;
      ListDecides(sources, s1, seen[1..], k - 1);
    }
  }

  /** What the first walk makes of each file it sees that shares its path below a source with no other it sees. */
  lemma WalkDecides(sources: seq<string>, s: State, entries: seq<Tree>, k: nat)
    requires k < |Visible(entries)|
    requires var (seen, path) := (Visible(entries), Visible(entries)[k].0);
             Rel(sources, path).Some? ==>
               forall i :: 0 <= i < |seen| && i != k ==> Rel(sources, seen[i].0) != Rel(sources, path)
    ensures var (path, look) := Visible(entries)[k];
            var (e, missed) := Walk(sources, s, entries);
            && (path in missed <==> HasToStay(sources, s, path, look))
            && DoneRight(sources, s, e, path, look)
  {
    WalkIsList(sources, s, entries);
    ListDecides(sources, s, Visible(entries), k);
    hide *;
  }
}
