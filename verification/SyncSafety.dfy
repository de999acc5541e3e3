/** No local edit is lost by a pass, finished or not, whatever fails and whatever other
    devices do on Luna meanwhile. */
module SyncSafety {
  import opened Names
  import opened SyncModel

  /** `n` was in step once and its local copy changed since. */
  predicate Edited(w: World, n: string) {
    n in w.local && n in w.ledger && LocalChanged(w.local[n], w.ledger[n])
  }

  ghost predicate InTrash(w: World, n: string, f: File) {
    exists stamp: nat, k: nat :: Sibling(Decimal(stamp) + "/" + n, k) in w.trash
                              && w.trash[Sibling(Decimal(stamp) + "/" + n, k)] == f
  }

  ghost predicate InSibling(w: World, n: string, f: File) {
    exists k: nat :: 1 <= k && Sibling(ConflictName(n), k) in w.local && w.local[Sibling(ConflictName(n), k)] == f
  }

  /** The file is still at its name, in a conflict sibling of it, or in the trash. */
  ghost predicate Kept(w: World, n: string, f: File) {
    || (n in w.local && w.local[n] == f)
    || InSibling(w, n, f)
    || InTrash(w, n, f)
  }

  /** A file on Luna this computer has neither seen nor synced. */
  predicate NewOnLuna(w: World, n: string) {
    n in w.remote && n !in w.local && n !in w.ledger
  }

  /** If `n` is in conflict, the name its local copy will be set aside under is not new on Luna. */
  predicate LandingFree(w: World, n: string) {
    ArmOf(w, w, n).Conflict? ==> !NewOnLuna(w, AsideName(w, n))
  }

  /** What a visit may do to local files and trash: only the visited name changes, anything
      that appears elsewhere is that name's file under a conflict name that was free. */
  ghost predicate Frame(w: World, w': World, rel: string) {
    && w'.folders == w.folders
    && (forall m :: m in w.local && m != rel ==> m in w'.local && w'.local[m] == w.local[m])
    && (forall m :: m in w'.local && m !in w.local && m != rel ==> m == AsideName(w, rel))
    && (forall m :: m in w.ledger && m != rel ==> m in w'.ledger && w'.ledger[m] == w.ledger[m])
    && (forall m :: m in w'.ledger && m != rel ==> m in w.ledger)
    && (forall t :: t in w.trash ==> t in w'.trash && w'.trash[t] == w.trash[t])
  }

  lemma AsideFree(w: World, rel: string)
    ensures AsideName(w, rel) !in w.local && AsideName(w, rel) !in w.folders
  {
    FreeSiblingIs(Taken(w), ConflictName(rel));
    hide FreeSibling, ConflictName;
  }

  lemma TrashFree(w: World, rel: string, stamp: nat)
    ensures TrashName(w, rel, stamp) !in w.trash
    ensures exists k :: 1 <= k && TrashName(w, rel, stamp) == Sibling(Decimal(stamp) + "/" + rel, k)
  {
    FreeSiblingIs(w.trash.Keys, Decimal(stamp) + "/" + rel);
    hide FreeSibling, Sibling, Decimal;
  }

  lemma MovedAsideFrame(w: World, rel: string)
    requires rel in w.local
    ensures Frame(w, MovedAside(w, rel), rel)
  {
    hide AsideName;
    AsideFree(w, rel);
  }

  /** Only files on Luna differ. */
  predicate SameHere(w: World, w': World) {
    w'.local == w.local && w'.ledger == w.ledger && w'.trash == w.trash && w'.folders == w.folders
  }

  lemma UploadHere(w: World, name: string, overwrite: bool, reply: Reply)
    ensures SameHere(w, Upload(w, name, overwrite, reply).0)
  {
  }

  lemma SendFrame(start: World, w: World, rel: string, overwrite: bool, a: Answers)
    requires rel in start.local
    ensures Frame(w, SendArm(start, w, rel, overwrite, a).0, rel)
  {
    UploadHere(w, rel, overwrite, a.send);
  }

  lemma ConflictFrame(start: World, w: World, rel: string, a: Answers)
    requires rel in start.remote
    ensures Frame(w, ConflictArm(start, w, rel, a).0, rel)
  {
    hide AsideName;
    if a.rename && rel in w.local {
      MovedAsideFrame(w, rel);
      var w1 := MovedAside(w, rel);
      if a.path && a.fetch && rel in w.remote {
        var re := start.remote[rel];
        var e := Entry(|re.bytes|, if a.meta then a.fetchTime else re.mtime, re.mtime);
        var w2 := Download(w1, rel, a.fetchTime);
        var w3 := w2.(ledger := w2.ledger[rel := e]);
        OwnEntryFrame(w, w1, rel, a.fetchTime, e);
        UploadHere(w3, AsideName(w, rel), false, a.send);
        hide Upload, MovedAside, Download;
      } else {
        hide Upload, MovedAside, Download;
      }
    }
  }

  lemma OwnEntryFrame(w: World, w1: World, rel: string, time: int, e: Entry)
    requires Frame(w, w1, rel) && rel in w1.remote
    ensures var w2 := Download(w1, rel, time); Frame(w, w2.(ledger := w2.ledger[rel := e]), rel)
  {
    hide AsideName;
  }

  lemma SetAsideFrame(w: World, rel: string, a: Answers)
    ensures Frame(w, SetAsideArm(w, rel, a), rel)
  {
    TrashFree(w, rel, a.stamp);
    hide TrashName, Sibling;
  }

  lemma ActFrame(start: World, w: World, rel: string, a: Answers)
    ensures Frame(w, Act(start, w, rel, a).0, rel)
  {
    hide AsideName, ConflictArm, SendArm, SetAsideArm, FetchArm, EraseArm;
    match ArmOf(start, w, rel)
    case Conflict => ConflictFrame(start, w, rel, a);
    case Replace => SendFrame(start, w, rel, true, a);
    case Send => SendFrame(start, w, rel, false, a);
    case SetAside => SetAsideFrame(w, rel, a);
    case Fetch => FetchFrame(start, w, rel, a);
    case Erase => EraseFrame(w, rel, a);
    case Idle | Adopt | Forget =>
  }

  lemma FetchFrame(start: World, w: World, rel: string, a: Answers)
    requires rel in start.remote
    ensures Frame(w, FetchArm(start, w, rel, a).0, rel)
  {
    hide AsideName;
  }

  lemma EraseFrame(w: World, rel: string, a: Answers)
    ensures Frame(w, EraseArm(w, rel, a).0, rel)
  {
    hide AsideName;
  }

  lemma VisitFrame(start: World, w: World, rel: string, a: Answers)
    ensures Frame(w, Visit(start, w, rel, a).0, rel)
  {
    var v := Meanwhile(w, a);
    MeanwhileHere(w, a);
    ActFrame(start, v, rel, a);
    hide Act, AsideName, Meanwhile;
    FrameFrom(w, v, Act(start, v, rel, a).0, rel);
  }

  lemma MeanwhileHere(w: World, a: Answers)
    ensures SameHere(w, Meanwhile(w, a))
  {
  }

  lemma AsideHere(w: World, v: World, rel: string)
    requires SameHere(w, v)
    ensures AsideName(v, rel) == AsideName(w, rel)
  {
    assert Taken(v) == Taken(w);
    hide FreeSibling, ConflictName;
  }

  lemma FrameFrom(w: World, v: World, w': World, rel: string)
    requires SameHere(w, v) && Frame(v, w', rel)
    ensures Frame(w, w', rel)
  {
    AsideHere(w, v, rel);
    hide AsideName;
  }

  lemma ConflictKeeps(start: World, w: World, n: string, a: Answers)
    requires n in start.remote && n in w.local
    ensures var w' := ConflictArm(start, w, n, a).0;
            || (n in w'.local && w'.local[n] == w.local[n])
            || (AsideName(w, n) in w'.local && w'.local[AsideName(w, n)] == w.local[n])
  {
    hide AsideName;
    AsideFree(w, n);
    if a.rename && a.path && a.fetch && n in w.remote {
      var w2 := Download(MovedAside(w, n), n, a.fetchTime);
      assert AsideName(w, n) in w2.local && w2.local[AsideName(w, n)] == w.local[n];
    }
  }

  lemma SetAsideKeeps(w: World, n: string, a: Answers)
    requires n in w.local
    ensures var w' := SetAsideArm(w, n, a);
            (n in w'.local && w'.local[n] == w.local[n]) || InTrash(w', n, w.local[n])
  {
    TrashFree(w, n, a.stamp);
    hide Sibling, TrashName;
    var k :| 1 <= k && TrashName(w, n, a.stamp) == Sibling(Decimal(a.stamp) + "/" + n, k);
    if a.rename {
      assert Sibling(Decimal(a.stamp) + "/" + n, k) in SetAsideArm(w, n, a).trash;
    }
  }

  /** The visit of an edited name keeps the edit, in a conflict under its conflict name. */
  lemma EditedVisit(start: World, w: World, n: string, a: Answers)
    requires Edited(start, n)
    requires n in w.local && w.local[n] == start.local[n]
    requires n in w.ledger && w.ledger[n] == start.ledger[n]
    ensures var w' := Visit(start, w, n, a).0; var f := start.local[n];
            || (n in w'.local && w'.local[n] == f)
            || (ArmOf(start, start, n).Conflict?
                && AsideName(w, n) in w'.local && w'.local[AsideName(w, n)] == f)
            || InTrash(w', n, f)
  {
    var v := Meanwhile(w, a);
    assert Taken(v) == Taken(w);
    hide FreeSibling, SetAsideArm, ConflictArm, SendArm, InTrash;
    match ArmOf(start, v, n)
    case Conflict => ConflictKeeps(start, v, n, a);
    case SetAside => SetAsideKeeps(v, n, a);
    case Replace => UploadHere(v, n, true, a.send); SendLocal(start, v, n, true, a);
  }

  lemma SendLocal(start: World, w: World, n: string, overwrite: bool, a: Answers)
    requires n in start.local
    ensures SendArm(start, w, n, overwrite, a).0.local == w.local
  {
  }

  /** Names still to be visited are as the pass found them. */
  ghost predicate Untouched(start: World, w: World, order: seq<string>) {
    && w.folders == start.folders
    && (forall m :: m in order && m in start.local ==> m in w.local && w.local[m] == start.local[m])
    && (forall m :: m in order && m in start.ledger ==> m in w.ledger && w.ledger[m] == start.ledger[m])
    && (forall m :: m in order && m in w.ledger ==> m in start.ledger)
  }

  lemma NoDupTail(order: seq<string>)
    requires NoDup(order) && order != []
    ensures order[0] !in order[1..] && NoDup(order[1..])
    ensures forall m :: m in order[1..] ==> m in order
    ensures forall m :: m in order ==> m == order[0] || m in order[1..]
  {
  }

  lemma UntouchedStep(start: World, w: World, order: seq<string>, a: Answers)
    requires Untouched(start, w, order) && NoDup(order) && order != []
    ensures Untouched(start, Visit(start, w, order[0], a).0, order[1..])
  {
    VisitFrame(start, w, order[0], a);
    NoDupTail(order);
    hide Visit, AsideName, NoDup;
  }

  /** A later visit of `p` itself, should there be one, does not write the local file. */
  ghost predicate Harmless(start: World, order: seq<string>, p: string) {
    p in order ==> p !in start.local && !NewOnLuna(start, p)
  }

  lemma UnseenVisit(start: World, w: World, p: string, a: Answers)
    requires p !in start.local && (p in w.ledger <==> p in start.ledger)
    ensures Visit(start, w, p, a).0.local == w.local || NewOnLuna(start, p)
    ensures ArmOf(start, w, p).Fetch? || Visit(start, w, p, a).0.local == w.local
  {
    hide ConflictArm, SetAsideArm, SendArm;
  }

  lemma {:induction false} Stays(start: World, w: World, order: seq<string>, ans: string -> Answers, p: string)
    requires Untouched(start, w, order) && NoDup(order)
    requires p in w.local && Harmless(start, order, p)
    ensures var w' := Run(start, w, order, ans).0; p in w'.local && w'.local[p] == w.local[p]
    decreases |order|
  {
    if order != [] {
      var rel := order[0];
      var (w1, ok) := Visit(start, w, rel, ans(rel));
      NoDupTail(order);
      UntouchedStep(start, w, order, ans(rel));
      VisitFrame(start, w, rel, ans(rel));
      if rel == p {
        UnseenVisit(start, w, p, ans(p));
      }
      if ok {
        hide Visit, AsideName, NoDup, Frame, Untouched;
        Stays(start, w1, order[1..], ans, p);
      }
    }
  }

  lemma {:induction false} TrashStays(start: World, w: World, order: seq<string>, ans: string -> Answers)
    ensures var w' := Run(start, w, order, ans).0;
            forall t :: t in w.trash ==> t in w'.trash && w'.trash[t] == w.trash[t]
    decreases |order|
  {
    if order != [] {
      var (w1, ok) := Visit(start, w, order[0], ans(order[0]));
      VisitFrame(start, w, order[0], ans(order[0]));
      hide Visit, AsideName;
      if ok {
        TrashStays(start, w1, order[1..], ans);
      }
    }
  }

  /** The name a conflict copy gets is the one that was free when the pass began, or one
      whose own file this pass has already moved away. */
  lemma Landing(start: World, w: World, order: seq<string>, n: string)
    requires Untouched(start, w, order)
    requires AsideName(start, n) !in w.local
    requires !NewOnLuna(start, AsideName(start, n))
    ensures Harmless(start, order, AsideName(w, n))
  {
    var base := ConflictName(n);
    FirstFreeIs(Taken(w), base, 1);
    FirstFreeIs(Taken(start), base, 1);
    var k, k0 := FirstFree(Taken(w), base, 1), FirstFree(Taken(start), base, 1);
    var c := Sibling(base, k);
    hide ConflictName, Sibling;
    if c in order && c !in start.local {
      assert c !in Taken(start);
      assert Sibling(base, k0) !in Taken(w);
      assert k == k0;
    }
  }

  /** Visiting another name does not use up the conflict name of `n`. */
  lemma LandingStays(start: World, w: World, m: string, a: Answers, n: string)
    requires m != n && AsideName(start, n) !in w.local
    requires AsideName(start, n) !in start.local && !NewOnLuna(start, AsideName(start, n))
    requires m in w.ledger <==> m in start.ledger
    ensures AsideName(start, n) !in Visit(start, w, m, a).0.local
  {
    var c := AsideName(start, n);
    VisitFrame(start, w, m, a);
    var k, j := FirstFree(Taken(start), ConflictName(n), 1), FirstFree(Taken(w), ConflictName(m), 1);
    hide Visit, ConflictName, Sibling;
    if c == AsideName(w, m) {
      ConflictNamesApart(n, m, k, j);
    }
    if c == m {
      UnseenVisit(start, w, m, a);
    }
  }

  /** From its own visit on, the edit stays where that visit put it. */
  lemma KeepFromOwnVisit(start: World, w: World, order: seq<string>, ans: string -> Answers, n: string)
    requires Untouched(start, w, order) && NoDup(order)
    requires order != [] && order[0] == n && Edited(start, n)
    requires ArmOf(start, start, n).Conflict? ==>
               AsideName(start, n) !in w.local && !NewOnLuna(start, AsideName(start, n))
    ensures Kept(Run(start, w, order, ans).0, n, start.local[n])
  {
    var (w1, ok) := Visit(start, w, n, ans(n));
    var f, rest := start.local[n], order[1..];
    var c, k := AsideName(w, n), FirstFree(Taken(w), ConflictName(n), 1);
    assert c == Sibling(ConflictName(n), k);
    NoDupTail(order);
    UntouchedStep(start, w, order, ans(n));
    EditedVisit(start, w, n, ans(n));
    if ArmOf(start, start, n).Conflict? {
      LandingTail(start, w, order, n);
    }
    hide Visit, AsideName, Untouched, ConflictName, Sibling, Taken;
    if n in w1.local && w1.local[n] == f {
      if ok {
        Stays(start, w1, rest, ans, n);
      }
    } else if InTrash(w1, n, f) {
      if ok {
        TrashStays(start, w1, rest, ans);
      }
    } else {
      if ok {
        Stays(start, w1, rest, ans, c);
      }
    }
  }

  lemma LandingTail(start: World, w: World, order: seq<string>, n: string)
    requires Untouched(start, w, order) && order != []
    requires AsideName(start, n) !in w.local
    requires !NewOnLuna(start, AsideName(start, n))
    ensures Harmless(start, order[1..], AsideName(w, n))
  {
    Landing(start, w, order, n);
    hide AsideName, Untouched;
    assert AsideName(w, n) in order[1..] ==> AsideName(w, n) in order;
  }

  lemma {:induction false} KeepRun(start: World, w: World, order: seq<string>, ans: string -> Answers, n: string)
    requires Untouched(start, w, order) && NoDup(order)
    requires n in order && Edited(start, n)
    requires ArmOf(start, start, n).Conflict? ==>
               AsideName(start, n) !in w.local && !NewOnLuna(start, AsideName(start, n))
    ensures Kept(Run(start, w, order, ans).0, n, start.local[n])
    decreases |order|
  {
    var m := order[0];
    if m == n {
      KeepFromOwnVisit(start, w, order, ans, n);
    } else {
      var (w1, ok) := Visit(start, w, m, ans(m));
      NoDupTail(order);
      UntouchedStep(start, w, order, ans(m));
      if ArmOf(start, start, n).Conflict? {
        AsideFree(start, n);
        LandingStays(start, w, m, ans(m), n);
      }
      VisitFrame(start, w, m, ans(m));
      hide Visit, AsideName, NoDup, Untouched;
      if ok {
        KeepRun(start, w1, order[1..], ans, n);
      }
    }
  }

  /** Whatever part of a pass is run, whichever calls fail and whatever other devices do,
      an edited file is still here afterwards: at its name, in a conflict sibling, or in
      the trash. */
  lemma NoEditLost(w: World, order: seq<string>, ans: string -> Answers, n: string)
    requires NoDup(order) && Edited(w, n) && LandingFree(w, n)
    ensures Kept(Pass(w, order, ans), n, w.local[n])
  {
    if n in order {
      AsideFree(w, n);
      KeepRun(w, w, order, ans, n);
    } else {
      Stays(w, w, order, ans, n);
    }
  }

  /** The bytes of `n` on this computer are nowhere else. */
  predicate OnlyCopy(w: World, n: string)
    requires n in w.local
  {
    var b := w.local[n].bytes;
    && (forall m :: m in w.local && m != n ==> w.local[m].bytes != b)
    && (forall m :: m in w.remote ==> w.remote[m].bytes != b)
    && (forall t :: t in w.trash ==> w.trash[t].bytes != b)
  }

  ghost predicate Gone(w: World, b: seq<Byte>) {
    && (forall m :: m in w.local ==> w.local[m].bytes != b)
    && (forall m :: m in w.remote ==> w.remote[m].bytes != b)
    && (forall t :: t in w.trash ==> w.trash[t].bytes != b)
  }

  /** In a conflict whose landing name is new on Luna, a pass that visits the name and then
      the landing name, with nothing failing, destroys the only copy of the edit. */
  lemma OverwrittenCopy(w: World, n: string)
    requires Edited(w, n) && OnlyCopy(w, n) && !LandingFree(w, n)
    ensures NoDup([n, AsideName(w, n)])
    ensures Gone(Pass(w, [n, AsideName(w, n)], _ => Smooth(0)), w.local[n].bytes)
  {
    var c, a, ans := AsideName(w, n), Smooth(0), (_: string) => Smooth(0);
    AsideFree(w, n);
    hide AsideName;
    var w1 := Download(MovedAside(w, n), n, 0);
    var w2 := Visit(w, w, n, a).0;
    assert w2.local == w1.local && w2.remote == w.remote && w2.trash == w.trash;
    assert c !in w2.ledger && ArmOf(w, w2, c).Fetch?;
    var w3 := Visit(w, w2, c, a).0;
    assert w3.local == w2.local[c := File(w.remote[c].bytes, 0)];
    assert [n, c][1..] == [c] && [c][1..] == [];
    assert Run(w, w2, [c], ans) == (w3, true) by {
      assert Run(w, w3, [], ans) == (w3, true);
    }
    assert Run(w, w, [n, c], ans) == Run(w, w2, [c], ans);
  }

  /** An edit whose bytes exist nowhere else survives every pass exactly when the name it
      would be set aside under is not a file on Luna this computer has yet to fetch. */
  lemma EditKeptIff(w: World, n: string)
    requires Edited(w, n) && OnlyCopy(w, n)
    ensures (forall order, ans :: NoDup(order) ==> Kept(Pass(w, order, ans), n, w.local[n])) <==> LandingFree(w, n)
  {
    if LandingFree(w, n) {
      forall order, ans | NoDup(order)
        ensures Kept(Pass(w, order, ans), n, w.local[n])
      {
        NoEditLost(w, order, ans, n);
      }
    } else {
      OverwrittenCopy(w, n);
      var order, ans := [n, AsideName(w, n)], (_: string) => Smooth(0);
      GoneNotKept(Pass(w, order, ans), n, w.local[n]);
      hide *;
      assert NoDup(order) && !Kept(Pass(w, order, ans), n, w.local[n]);
    }
  }

  lemma GoneNotKept(w: World, n: string, f: File)
    ensures Gone(w, f.bytes) ==> !Kept(w, n, f)
  {
    hide Sibling, ConflictName, Decimal;
  }

  /** Any name can be in that state: edited on both sides, its landing name new on Luna. */
  lemma LandingTaken(n: string) returns (w: World)
    ensures Edited(w, n) && OnlyCopy(w, n) && !LandingFree(w, n)
  {
    var w0 := World(map[n := File([1], 5)], map[n := File([2], 6)], map[n := Entry(1, 0, 0)], map[], {});
    var c := AsideName(w0, n);
    AsideFree(w0, n);
    w := w0.(remote := w0.remote[c := File([3], 7)]);
    AsideHere(w0, w, n);
    hide AsideName;
    assert ArmOf(w, w, n).Conflict? && NewOnLuna(w, AsideName(w, n));
    OnlyHere(w, n, c);
  }

  lemma OnlyHere(w: World, n: string, c: string)
    requires w.local == map[n := File([1], 5)] && w.trash == map[]
    requires w.remote == map[n := File([2], 6)][c := File([3], 7)]
    ensures OnlyCopy(w, n)
  {
    var a: seq<Byte>, b: seq<Byte>, d: seq<Byte> := [1], [2], [3];
    assert a[0] != b[0] && a[0] != d[0];
  }
}
