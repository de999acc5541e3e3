/** Undisturbed passes bring the two sides together: three passes suffice, and the fourth
    moves nothing. */
module SyncConvergence {
  import opened SyncModel
  import opened SyncSafety

  /** What the ledger says about a name is to be trusted: a file with the size and time noted
      there has the bytes of the other side, and so has a twin the ledger does not know. */
  ghost predicate Sound(w: World) {
    forall n :: n in w.local && n in w.remote ==> SoundAt(w, n)
  }

  predicate SoundAt(w: World, n: string)
    requires n in w.local && n in w.remote
  {
    var l, r := w.local[n], w.remote[n];
    && (n in w.ledger && !LocalChanged(l, w.ledger[n]) && !RemoteChanged(r, w.ledger[n]) ==> l.bytes == r.bytes)
    && (n !in w.ledger && Twins(l, r) ==> l.bytes == r.bytes)
  }

  predicate SameBytes(w: World, n: string) {
    n in w.local && n in w.remote && w.local[n].bytes == w.remote[n].bytes
  }

  predicate Absent(w: World, n: string) {
    n !in w.local && n !in w.remote && n !in w.ledger
  }

  /** Gone everywhere, or the same on both sides with both sides exactly as in the ledger. */
  predicate InStep(w: World, n: string) {
    || Absent(w, n)
    || (SameBytes(w, n) && n in w.ledger
        && !LocalChanged(w.local[n], w.ledger[n]) && !RemoteChanged(w.remote[n], w.ledger[n]))
  }

  /** Same bytes on both sides, but the ledger may have Luna's time wrong, as after an upload. */
  predicate Uploaded(w: World, n: string) {
    SameBytes(w, n) && n in w.ledger && !LocalChanged(w.local[n], w.ledger[n])
  }

  /** At most two passes away: also a conflict copy the ledger does not know yet. */
  predicate Near(w: World, n: string) {
    || InStep(w, n)
    || Uploaded(w, n)
    || (n !in w.ledger && n in w.local && (n in w.remote ==> SameBytes(w, n)))
  }

  /** All three maps agree on a name. */
  predicate Same(w: World, w': World, n: string) {
    && Lookup(w.local, n) == Lookup(w'.local, n)
    && Lookup(w.remote, n) == Lookup(w'.remote, n)
    && Lookup(w.ledger, n) == Lookup(w'.ledger, n)
  }

  /** A conflict copy has come to rest at a name that was not here. */
  predicate Landed(w: World, w': World, n: string) {
    && n !in w.local && n in w'.local
    && Lookup(w.ledger, n) == Lookup(w'.ledger, n)
    && (n in w.remote ==> n in w'.remote && w'.remote[n] == w.remote[n])
    && (n !in w.remote && n in w'.remote ==> SameBytes(w', n))
  }

  lemma SendElsewhere(start: World, w: World, rel: string, overwrite: bool, a: Answers, m: string)
    requires rel in start.local && m != rel
    ensures Same(w, SendArm(start, w, rel, overwrite, a).0, m)
  {
  }

  /** Another name is left as it is, or receives the conflict copy. */
  lemma ConflictElsewhere(start: World, w: World, rel: string, a: Answers, m: string)
    requires rel in start.remote && m != rel
    ensures var w' := ConflictArm(start, w, rel, a).0; Same(w, w', m) || Landed(w, w', m)
  {
    AsideFree(w, rel);
    hide AsideName;
  }

  lemma ActElsewhere(start: World, w: World, rel: string, a: Answers, m: string)
    requires m != rel
    ensures var w' := Act(start, w, rel, a).0;
            Same(w, w', m) || (ArmOf(start, w, rel).Conflict? && Landed(w, w', m))
  {
    hide ConflictArm, SendArm;
    match ArmOf(start, w, rel)
    case Conflict => ConflictElsewhere(start, w, rel, a, m);
    case Replace => SendElsewhere(start, w, rel, true, a, m);
    case Send => SendElsewhere(start, w, rel, false, a, m);
    case SetAside =>
    case Fetch =>
    case Erase =>
    case Idle | Adopt | Forget =>
  }

  lemma VisitElsewhere(start: World, w: World, rel: string, a: Answers, m: string)
    requires m != rel && a.elsewhere.None?
    ensures var w' := Visit(start, w, rel, a).0;
            Same(w, w', m) || (ArmOf(start, w, rel).Conflict? && Landed(w, w', m))
  {
    hide Act, Same, Landed;
    ActElsewhere(start, w, rel, a, m);
  }

  /** With nothing failing, a name that is as listed comes out of its visit near. */
  lemma VisitBringsNear(start: World, w: World, rel: string, a: Answers)
    requires Calm(a) && Same(start, w, rel)
    requires rel in start.local && rel in start.remote ==> SoundAt(start, rel)
    ensures Visit(start, w, rel, a).1 && Near(Visit(start, w, rel, a).0, rel)
  {
    hide ConflictArm;
    match ArmOf(start, w, rel)
    case Conflict => ConflictResolves(start, w, rel, a);
    case _ =>
  }

  lemma ConflictResolves(start: World, w: World, rel: string, a: Answers)
    requires Calm(a) && Same(start, w, rel) && rel in start.local && rel in start.remote
    ensures ConflictArm(start, w, rel, a).1 && InStep(ConflictArm(start, w, rel, a).0, rel)
  {
    AsideFree(w, rel);
    hide AsideName;
  }

  lemma VisitLanded(start: World, w: World, rel: string, a: Answers)
    requires Calm(a) && Landed(start, w, rel)
    ensures Visit(start, w, rel, a).1 && Near(Visit(start, w, rel, a).0, rel)
  {
    hide ConflictArm, SendArm, SetAsideArm;
  }

  /** Halfway through a pass: names behind are near, names ahead are as listed, or have
      received a conflict copy. */
  ghost predicate Midway(start: World, w: World, order: seq<string>) {
    forall m :: if m in order then Same(start, w, m) || Landed(start, w, m) else Near(w, m)
  }

  lemma MidwayStep(start: World, w: World, order: seq<string>, a: Answers)
    requires Sound(start) && Midway(start, w, order) && NoDup(order) && order != [] && Calm(a)
    ensures Visit(start, w, order[0], a).1
    ensures Midway(start, Visit(start, w, order[0], a).0, order[1..])
  {
    var rel := order[0];
    var w' := Visit(start, w, rel, a).0;
    NoDupTail(order);
    hide Visit, NoDup, Same, Landed, Near, SoundAt;
    assert rel in order;
    if Same(start, w, rel) {
      VisitBringsNear(start, w, rel, a);
    } else {
      VisitLanded(start, w, rel, a);
    }
    forall m | m != rel
      ensures if m in order[1..] then Same(start, w', m) || Landed(start, w', m) else Near(w', m)
    {
      VisitElsewhere(start, w, rel, a, m);
      NextDoor(start, w, w', m);
    }
  }

  /** A name that was near or as listed, and is left alone or receives a conflict copy. */
  lemma NextDoor(start: World, w: World, w': World, m: string)
    requires Same(w, w', m) || Landed(w, w', m)
    ensures Same(start, w, m) || Landed(start, w, m) ==> Same(start, w', m) || Landed(start, w', m)
    ensures Near(w, m) ==> Near(w', m)
  {
  }

  lemma {:induction false} RunBringsNear(start: World, w: World, order: seq<string>, ans: string -> Answers)
    requires Sound(start) && Midway(start, w, order) && NoDup(order)
    requires forall n :: Calm(ans(n))
    ensures Run(start, w, order, ans).1
    ensures forall m :: Near(Run(start, w, order, ans).0, m)
    decreases |order|
  {
    if order == [] {
    } else {
      MidwayStep(start, w, order, ans(order[0]));
      NoDupTail(order);
      hide Visit, Midway, NoDup, Sound;
      RunBringsNear(start, Visit(start, w, order[0], ans(order[0])).0, order[1..], ans);
    }
  }

  /** After one undisturbed pass every name is near. */
  lemma FirstPass(w: World, order: seq<string>, ans: string -> Answers)
    requires Sound(w) && FullOrder(w, order) && forall n :: Calm(ans(n))
    ensures forall m :: Near(Pass(w, order, ans), m)
  {
    assert Midway(w, w, order);
    RunBringsNear(w, w, order, ans);
  }

  /** A pass without conflicts treats each name on its own. */
  lemma {:induction false} RunPointwise(start: World, w: World, order: seq<string>, ans: string -> Answers, m: string)
    requires NoDup(order) && forall n :: Calm(ans(n))
    requires forall n :: n in order ==> Same(start, w, n)
    requires forall n :: !ArmOf(start, start, n).Conflict?
    ensures Run(start, w, order, ans).1
    ensures Same(Run(start, w, order, ans).0, if m in order then Visit(start, start, m, ans(m)).0 else w, m)
    decreases |order|
  {
    if order != [] {
      var rel := order[0];
      var w1 := Visit(start, w, rel, ans(rel)).0;
      NoDupTail(order);
      assert rel in order;
      VisitOwn(start, w, rel, ans(rel));
      OtherNames(start, w, rel, ans(rel));
      hide Visit, NoDup, ArmOf, Same;
      forall n | n in order[1..]
        ensures Same(start, w1, n)
      {
        SameTrans(start, w, w1, n);
      }
      RunPointwise(start, w1, order[1..], ans, m);
      var end := Run(start, w1, order[1..], ans).0;
      SameTrans(end, w1, w, m);
      SameTrans(end, w1, Visit(start, start, rel, ans(rel)).0, m);
    }
  }

  lemma OtherNames(start: World, w: World, rel: string, a: Answers)
    requires Calm(a) && Same(start, w, rel) && !ArmOf(start, start, rel).Conflict?
    ensures forall n :: n != rel ==> Same(w, Visit(start, w, rel, a).0, n)
    ensures forall n :: n != rel ==> Same(Visit(start, w, rel, a).0, w, n)
  {
    assert ArmOf(start, w, rel) == ArmOf(start, start, rel);
    hide Visit, ArmOf, Landed;
    forall n | n != rel
      ensures Same(w, Visit(start, w, rel, a).0, n) && Same(Visit(start, w, rel, a).0, w, n)
    {
      VisitElsewhere(start, w, rel, a, n);
    }
  }

  lemma SameTrans(a: World, b: World, c: World, n: string)
    ensures Same(a, b, n) && Same(b, c, n) ==> Same(a, c, n)
  {
  }

  /** What a visit makes of its own name depends on that name alone. */
  lemma VisitOwn(start: World, w: World, rel: string, a: Answers)
    requires Calm(a) && Same(start, w, rel) && !ArmOf(start, start, rel).Conflict?
    ensures Visit(start, w, rel, a).1
    ensures Same(Visit(start, w, rel, a).0, Visit(start, start, rel, a).0, rel)
  {
    hide ConflictArm, SendArm, FetchArm, SetAsideArm, EraseArm;
    assert ArmOf(start, w, rel) == ArmOf(start, start, rel);
    match ArmOf(start, w, rel)
    case Replace => SendOwn(start, w, rel, true, a);
    case Send => SendOwn(start, w, rel, false, a);
    case Fetch => FetchOwn(start, w, rel, a);
    case SetAside => SetAsideOwn(w, rel, a); SetAsideOwn(start, rel, a);
    case Erase => EraseOwn(start, w, rel, a);
    case _ =>
  }

  lemma SendOwn(start: World, w: World, rel: string, overwrite: bool, a: Answers)
    requires Calm(a) && Same(start, w, rel) && rel in start.local && (overwrite || rel !in start.remote)
    ensures SendArm(start, w, rel, overwrite, a).1
    ensures Same(SendArm(start, w, rel, overwrite, a).0, SendArm(start, start, rel, overwrite, a).0, rel)
  {
  }

  lemma FetchOwn(start: World, w: World, rel: string, a: Answers)
    requires Calm(a) && Same(start, w, rel) && rel in start.remote
    ensures FetchArm(start, w, rel, a).1
    ensures Same(FetchArm(start, w, rel, a).0, FetchArm(start, start, rel, a).0, rel)
  {
  }

  lemma SetAsideOwn(w: World, rel: string, a: Answers)
    requires Calm(a) && rel in w.local && rel !in w.remote
    ensures Absent(SetAsideArm(w, rel, a), rel)
  {
    hide TrashName;
  }

  lemma EraseOwn(start: World, w: World, rel: string, a: Answers)
    requires Calm(a) && Same(start, w, rel)
    ensures EraseArm(w, rel, a).1
    ensures Same(EraseArm(w, rel, a).0, EraseArm(start, rel, a).0, rel)
  {
  }

  /** Files uploaded or set aside in the first pass are settled by the second, apart from
      Luna's own time of an upload. */
  lemma SecondPass(w: World, order: seq<string>, ans: string -> Answers, m: string)
    requires forall n :: Near(w, n)
    requires FullOrder(w, order) && forall n :: Calm(ans(n))
    ensures InStep(Pass(w, order, ans), m) || Uploaded(Pass(w, order, ans), m)
  {
    forall n
      ensures !ArmOf(w, w, n).Conflict?
    {
      assert Near(w, n);
    }
    RunPointwise(w, w, order, ans, m);
    assert Near(w, m);
    NearVisit(w, m, ans(m));
    hide Visit, ArmOf;
  }

  lemma NearVisit(w: World, m: string, a: Answers)
    requires Near(w, m) && Calm(a)
    ensures InStep(Visit(w, w, m, a).0, m) || Uploaded(Visit(w, w, m, a).0, m)
  {
    hide ConflictArm;
  }

  lemma ThirdPass(w: World, order: seq<string>, ans: string -> Answers, m: string)
    requires forall n :: InStep(w, n) || Uploaded(w, n)
    requires FullOrder(w, order) && forall n :: Calm(ans(n))
    ensures InStep(Pass(w, order, ans), m)
  {
    forall n
      ensures !ArmOf(w, w, n).Conflict?
    {
      assert InStep(w, n) || Uploaded(w, n);
    }
    RunPointwise(w, w, order, ans, m);
    assert InStep(w, m) || Uploaded(w, m);
    UploadedVisit(w, m, ans(m));
    hide Visit, ArmOf;
  }

  lemma UploadedVisit(w: World, m: string, a: Answers)
    requires (InStep(w, m) || Uploaded(w, m)) && Calm(a)
    ensures InStep(Visit(w, w, m, a).0, m)
  {
    hide ConflictArm;
  }

  /** Both sides hold the same names and bytes, and the ledger describes both exactly. */
  ghost predicate Settled(w: World) {
    && w.local.Keys == w.remote.Keys == w.ledger.Keys
    && forall n :: n in w.local ==>
         && w.local[n].bytes == w.remote[n].bytes
         && w.ledger[n] == Entry(|w.local[n].bytes|, w.local[n].mtime, w.remote[n].mtime)
  }

  lemma SettledIff(w: World)
    ensures Settled(w) <==> forall n :: InStep(w, n)
  {
    if forall n :: InStep(w, n) {
      forall n
        ensures (n in w.local <==> n in w.remote) && (n in w.remote <==> n in w.ledger)
      {
        assert InStep(w, n);
      }
      forall n | n in w.local
        ensures w.local[n].bytes == w.remote[n].bytes
        ensures w.ledger[n] == Entry(|w.local[n].bytes|, w.local[n].mtime, w.remote[n].mtime)
      {
        assert InStep(w, n);
      }
    }
  }

  /** Three undisturbed passes settle any pair whose ledger is sound, whatever order each of
      them visits the names in and whatever times the server and the disk hand out. */
  lemma ThreePassesSettle(w: World, o1: seq<string>, a1: string -> Answers, o2: seq<string>, a2: string -> Answers,
                          o3: seq<string>, a3: string -> Answers)
    requires Sound(w)
    requires forall n :: Calm(a1(n)) && Calm(a2(n)) && Calm(a3(n))
    requires FullOrder(w, o1)
    requires FullOrder(Pass(w, o1, a1), o2)
    requires FullOrder(Pass(Pass(w, o1, a1), o2, a2), o3)
    ensures Settled(Pass(Pass(Pass(w, o1, a1), o2, a2), o3, a3))
  {
    var w1 := Pass(w, o1, a1);
    var w2 := Pass(w1, o2, a2);
    var w3 := Pass(w2, o3, a3);
    FirstPass(w, o1, a1);
    hide Pass, FullOrder, InStep, Uploaded, Near;
    forall n
      ensures InStep(w2, n) || Uploaded(w2, n)
    {
      SecondPass(w1, o2, a2, n);
    }
    forall n
      ensures InStep(w3, n)
    {
      ThirdPass(w2, o3, a3, n);
    }
    SettledIff(w3);
  }

  /** In a settled pair every arm is idle: a further pass transfers and changes nothing,
      however its calls would have been answered. */
  lemma {:induction false} SettledPassMovesNothing(w: World, order: seq<string>, ans: string -> Answers)
    requires Settled(w) && forall n :: n in order ==> ans(n).elsewhere.None?
    ensures forall n :: ArmOf(w, w, n) == Idle
    ensures Pass(w, order, ans) == w
    decreases |order|
  {
    if order != [] {
      assert ans(order[0]).elsewhere.None?;
      assert Visit(w, w, order[0], ans(order[0])) == (w, true);
      SettledPassMovesNothing(w, order[1..], ans);
    }
  }
}
