/** What an undisturbed pass makes of each name, told by which sides have it and by sizes and times. */
module SyncOutcome {
  import opened Names
  import opened Options
  import opened SyncConvergence
  import opened SyncCrash
  import opened SyncModel
  import opened SyncSafety

  /** No file in conflict could be set aside under this name. */
  ghost predicate NoCopyName(w: World, n: string) {
    forall rel, k :: ConflictAt(w, rel) && 1 <= k ==> n != Sibling(ConflictName(rel), k)
  }

  /** What is here, on Luna and in the ledger. */
  predicate Has(w: World, n: string, l: Option<File>, r: Option<File>, e: Option<Entry>) {
    && (if n in w.local then l == Some(w.local[n]) else l == None)
    && (if n in w.remote then r == Some(w.remote[n]) else r == None)
    && (if n in w.ledger then e == Some(w.ledger[n]) else e == None)
  }

  /** Names ahead are as listed or hold a conflict copy. */
  ghost predicate Ahead(start: World, w: World, order: seq<string>) {
    forall m :: m in order ==> Same(start, w, m) || Landed(start, w, m)
  }

  lemma VisitKeepsAhead(start: World, w: World, order: seq<string>, a: Answers)
    requires Ahead(start, w, order) && NoDup(order) && order != [] && Calm(a)
    ensures Visit(start, w, order[0], a).1
    ensures Ahead(start, Visit(start, w, order[0], a).0, order[1..])
  {
    var rel := order[0];
    var w' := Visit(start, w, rel, a).0;
    NoDupTail(order);
    assert rel in order;
    CalmGoesThrough(start, w, rel, a);
    hide Visit, NoDup, Same, Landed, Near;
    forall m | m in order[1..]
      ensures Same(start, w', m) || Landed(start, w', m)
    {
      assert m in order && m != rel;
      VisitElsewhere(start, w, rel, a, m);
      NextDoor(start, w, w', m);
    }
  }

  /** Nothing lands on such a name. */
  lemma OthersLeaveIt(start: World, w: World, rel: string, a: Answers, n: string)
    requires NoCopyName(start, n) && rel != n && Calm(a)
    requires Same(start, w, rel) || Landed(start, w, rel)
    ensures Same(w, Visit(start, w, rel, a).0, n)
  {
    VisitElsewhere(start, w, rel, a, n);
    LandsOnAside(start, w, rel, a, n);
    if ArmOf(start, w, rel).Conflict? {
      assert ConflictAt(start, rel);
      FreeSiblingIs(Taken(w), ConflictName(rel));
    }
    hide Visit, ConflictName, Sibling, FreeSibling, ArmOf;
  }

  /** The name is visited as it was listed, and stays what its visit made of it. */
  lemma {:induction false} OwnVisit(start: World, w: World, order: seq<string>, ans: string -> Answers, n: string)
    returns (v: World)
    requires Ahead(start, w, order) && NoDup(order) && NoCopyName(start, n) && forall m :: Calm(ans(m))
    requires n in order ==> Same(start, w, n)
    ensures n in order ==> Same(start, v, n) && Same(Visit(start, v, n, ans(n)).0, Run(start, w, order, ans).0, n)
    ensures n !in order ==> Same(w, Run(start, w, order, ans).0, n)
    ensures Run(start, w, order, ans).1
    ensures forall t :: t in w.trash ==> t in Run(start, w, order, ans).0.trash
                                         && Run(start, w, order, ans).0.trash[t] == w.trash[t]
    ensures n in order ==> forall t :: t in Visit(start, v, n, ans(n)).0.trash ==>
              t in Run(start, w, order, ans).0.trash
              && Run(start, w, order, ans).0.trash[t] == Visit(start, v, n, ans(n)).0.trash[t]
    decreases |order|
  {
    v := w;
    if order != [] {
      var rel := order[0];
      var w1 := Visit(start, w, rel, ans(rel)).0;
      assert rel in order;
      VisitKeepsAhead(start, w, order, ans(rel));
      VisitFrame(start, w, rel, ans(rel));
      NoDupTail(order);
      if rel != n {
        OthersLeaveIt(start, w, rel, ans(rel), n);
      }
      hide Visit, Ahead, NoDup, NoCopyName;
      SameTrans(start, w, w1, n);
      var u := OwnVisit(start, w1, order[1..], ans, n);
      if rel != n {
        v := u;
        SameTrans(w, w1, Run(start, w1, order[1..], ans).0, n);
      }
      assert n in order <==> n == rel || n in order[1..];
      assert Run(start, w, order, ans) == Run(start, w1, order[1..], ans);
    }
  }

  /** Nothing fails, nobody else is at work, every name is visited, and no conflict copy can take this one. */
  ghost predicate Undisturbed(w: World, order: seq<string>, ans: string -> Answers, n: string) {
    FullOrder(w, order) && NoCopyName(w, n) && forall m :: Calm(ans(m))
  }

  /** At the end the name is as its own visit left it. */
  lemma EndsAsVisited(w: World, order: seq<string>, ans: string -> Answers, n: string) returns (v: World)
    requires Undisturbed(w, order, ans, n) && n in AllNames(w)
    ensures Same(w, v, n) && Same(Visit(w, v, n, ans(n)).0, Pass(w, order, ans), n)
    ensures forall t :: t in Visit(w, v, n, ans(n)).0.trash ==>
              t in Pass(w, order, ans).trash && Pass(w, order, ans).trash[t] == Visit(w, v, n, ans(n)).0.trash[t]
  {
    v := OwnVisit(w, w, order, ans, n);
    hide Visit, Run, NoCopyName;
  }

  /** Deleted on Luna, the file here goes to the trash, and nothing is left of the name. */
  lemma DeletedOnLuna(w: World, order: seq<string>, ans: string -> Answers, n: string)
    requires Undisturbed(w, order, ans, n)
    requires n in w.local && n !in w.remote && n in w.ledger
    ensures Has(Pass(w, order, ans), n, None, None, None) && InTrash(Pass(w, order, ans), n, w.local[n])
  {
    var v := EndsAsVisited(w, order, ans, n);
    var v', p := Visit(w, v, n, ans(n)).0, Pass(w, order, ans);
    SetAsideRow(w, v, n, ans(n));
    hide Visit, Pass, Undisturbed;
    var stamp: nat, k: nat :| Sibling(Decimal(stamp) + "/" + n, k) in v'.trash
        && v'.trash[Sibling(Decimal(stamp) + "/" + n, k)] == w.local[n];
  }

  lemma SetAsideRow(w: World, v: World, n: string, a: Answers)
    requires Same(w, v, n) && Calm(a) && n in w.local && n !in w.remote && n in w.ledger
    ensures Has(Visit(w, v, n, a).0, n, None, None, None) && InTrash(Visit(w, v, n, a).0, n, w.local[n])
  {
    VisitSetsAside(w, v, n, a);
    assert n in v.local && n !in v.remote && v.local[n] == w.local[n];
    hide Visit, Has, InTrash;
    SetAsideIs(v, n, a);
  }

  lemma VisitSetsAside(w: World, v: World, n: string, a: Answers)
    requires Same(w, v, n) && Calm(a) && n in w.local && n !in w.remote && n in w.ledger
    ensures Visit(w, v, n, a) == (SetAsideArm(v, n, a), true)
  {
    hide SetAsideArm, ConflictArm, SendArm, FetchArm, EraseArm;
  }

  lemma SetAsideIs(v: World, n: string, a: Answers)
    requires a.rename && n in v.local && n !in v.remote
    ensures Has(SetAsideArm(v, n, a), n, None, None, None) && InTrash(SetAsideArm(v, n, a), n, v.local[n])
  {
    TrashFree(v, n, a.stamp);
    var k :| 1 <= k && TrashName(v, n, a.stamp) == Sibling(Decimal(a.stamp) + "/" + n, k);
    hide TrashName, Sibling, Decimal;
  }

  /** Deleted here, it is deleted on Luna as well. A name nobody has is forgotten. */
  lemma DeletedHere(w: World, order: seq<string>, ans: string -> Answers, n: string)
    requires Undisturbed(w, order, ans, n)
    requires n !in w.local && n in w.ledger
    ensures Has(Pass(w, order, ans), n, None, None, None)
  {
    var v := EndsAsVisited(w, order, ans, n);
    assert Has(Visit(w, v, n, ans(n)).0, n, None, None, None);
    hide Visit, Pass, Undisturbed;
  }

  /** What Luna gets of a file here. */
  function OnLuna(l: File, a: Answers): Option<File>
    requires a.send.Done?
  {
    Some(File(l.bytes, a.send.mtime))
  }

  /** What this computer gets of a file on Luna. */
  function Here(r: File, a: Answers): Option<File> {
    Some(File(r.bytes, a.fetchTime))
  }

  /** Sent, the file has its own time in the ledger for both sides. */
  predicate IsSent(w: World, p: World, n: string, a: Answers)
    requires n in w.local && a.send.Done?
  {
    var l := w.local[n];
    Has(p, n, Some(l), OnLuna(l, a), Some(Entry(|l.bytes|, l.mtime, l.mtime)))
  }

  /** Fetched, the file has each side's time in the ledger. */
  predicate IsFetched(w: World, p: World, n: string, a: Answers)
    requires n in w.remote
  {
    var r := w.remote[n];
    Has(p, n, Here(r, a), Some(r), Some(Entry(|r.bytes|, a.fetchTime, r.mtime)))
  }

  /** A file on one side only that the ledger does not know is copied to the other. */
  lemma NewFile(w: World, order: seq<string>, ans: string -> Answers, n: string)
    requires Undisturbed(w, order, ans, n) && Calm(ans(n)) && n !in w.ledger
    ensures n in w.local && n !in w.remote ==> IsSent(w, Pass(w, order, ans), n, ans(n))
    ensures n in w.remote && n !in w.local ==> IsFetched(w, Pass(w, order, ans), n, ans(n))
  {
    if n in AllNames(w) {
      var v := EndsAsVisited(w, order, ans, n);
      NewRow(w, v, n, ans(n));
      hide Visit, Pass, Undisturbed;
    }
  }

  lemma NewRow(w: World, v: World, n: string, a: Answers)
    requires Same(w, v, n) && Calm(a) && n !in w.ledger
    ensures n in w.local && n !in w.remote ==> IsSent(w, Visit(w, v, n, a).0, n, a)
    ensures n in w.remote && n !in w.local ==> IsFetched(w, Visit(w, v, n, a).0, n, a)
  {
    hide ConflictArm, SetAsideArm, EraseArm;
  }

  /** Unknown to the ledger and on both sides: with one size and times within two seconds of each other
      nothing moves; otherwise the newer file wins, and the one here if they are equally old. */
  lemma OnBothSides(w: World, order: seq<string>, ans: string -> Answers, n: string)
    requires Undisturbed(w, order, ans, n) && Calm(ans(n))
    requires n in w.local && n in w.remote && n !in w.ledger
    ensures var p, l, r := Pass(w, order, ans), w.local[n], w.remote[n];
            if |l.bytes| == |r.bytes| && l.mtime <= r.mtime + 2 && r.mtime <= l.mtime + 2
            then Has(p, n, Some(l), Some(r), Some(Entry(|l.bytes|, l.mtime, r.mtime)))
            else if l.mtime < r.mtime then IsFetched(w, p, n, ans(n))
            else IsSent(w, p, n, ans(n))
  {
    var v := EndsAsVisited(w, order, ans, n);
    BothRow(w, v, n, ans(n));
    hide Visit, Pass, Undisturbed;
  }

  lemma BothRow(w: World, v: World, n: string, a: Answers)
    requires Same(w, v, n) && Calm(a) && n in w.local && n in w.remote && n !in w.ledger
    ensures var p, l, r := Visit(w, v, n, a).0, w.local[n], w.remote[n];
            if |l.bytes| == |r.bytes| && l.mtime <= r.mtime + 2 && r.mtime <= l.mtime + 2
            then Has(p, n, Some(l), Some(r), Some(Entry(|l.bytes|, l.mtime, r.mtime)))
            else if l.mtime < r.mtime then IsFetched(w, p, n, a)
            else IsSent(w, p, n, a)
  {
    hide ConflictArm, SetAsideArm, EraseArm;
  }

  /** Known to the ledger and on both sides: a side counts as changed if its size or its time is not the
      one noted. The changed side wins; with both changed Luna's file comes here, and the file that was here is
      kept, unless the name it is set aside under is new on Luna. */
  lemma KnownOnBothSides(w: World, order: seq<string>, ans: string -> Answers, n: string)
    requires Undisturbed(w, order, ans, n) && Calm(ans(n))
    requires n in w.local && n in w.remote && n in w.ledger
    ensures var p, l, r, e := Pass(w, order, ans), w.local[n], w.remote[n], w.ledger[n];
            var here := |l.bytes| != e.size || l.mtime != e.localMtime;
            var there := |r.bytes| != e.size || r.mtime != e.remoteMtime;
            && (!here && !there ==> Has(p, n, Some(l), Some(r), Some(e)))
            && (here && !there ==> IsSent(w, p, n, ans(n)))
            && (there ==> IsFetched(w, p, n, ans(n)))
            && (here && there && LandingFree(w, n) ==> Kept(p, n, l))
  {
    var v := EndsAsVisited(w, order, ans, n);
    KnownRow(w, v, n, ans(n));
    hide Visit, Kept, LandingFree;
    if Edited(w, n) && LandingFree(w, n) {
      NoEditLost(w, order, ans, n);
    }
    hide Pass, Undisturbed;
  }

  lemma KnownRow(w: World, v: World, n: string, a: Answers)
    requires Same(w, v, n) && Calm(a) && n in w.local && n in w.remote && n in w.ledger
    ensures var p, l, r, e := Visit(w, v, n, a).0, w.local[n], w.remote[n], w.ledger[n];
            var here := |l.bytes| != e.size || l.mtime != e.localMtime;
            var there := |r.bytes| != e.size || r.mtime != e.remoteMtime;
            && (!here && !there ==> Has(p, n, Some(l), Some(r), Some(e)))
            && (here && !there ==> IsSent(w, p, n, a))
            && (there ==> IsFetched(w, p, n, a))
  {
    ConflictRow(w, v, n, a);
    hide ConflictArm, SetAsideArm, EraseArm;
  }

  lemma ConflictRow(w: World, v: World, n: string, a: Answers)
    requires Same(w, v, n) && Calm(a) && n in w.local && n in w.remote
    ensures IsFetched(w, ConflictArm(w, v, n, a).0, n, a)
  {
    AsideFree(v, n);
    hide AsideName;
  }
}
