/** Failures, stops and crashes. The ledger reaches the disk only at the end of a pass, so a
    restart repeats work from an old ledger. With nobody else at work: what the ledger says
    stays trustworthy, and what a pass would keep on this computer stays here. On Luna one window
    is left open, between setting a conflicted file aside and fetching Luna's version. */
module SyncCrash {
  import opened Names
  import opened Options
  import opened SyncModel
  import opened SyncSafety
  import opened SyncConvergence

  predicate ConflictAt(start: World, rel: string) {
    ArmOf(start, start, rel).Conflict?
  }

  /** The name a file in conflict would be set aside under is not on Luna. */
  ghost predicate Clear(start: World) {
    forall rel :: ConflictAt(start, rel) ==> AsideName(start, rel) !in start.remote
  }

  ghost predicate Alone(ans: string -> Answers) {
    forall n :: ans(n).elsewhere.None?
  }

  /** A conflict name of a file that has been visited. */
  ghost predicate CopyOf(order: seq<string>, m: string) {
    exists r, k :: r !in order && 1 <= k && m == Sibling(ConflictName(r), k)
  }

  /** Halfway through a pass, as far as it went well: names ahead are as listed or hold a
      conflict copy Luna has no other file for; only names that were so at the start are on
      Luna and not here; what is new here came from Luna or is a conflict copy. */
  ghost predicate Along(start: World, w: World, order: seq<string>) {
    && w.folders == start.folders
    && (forall m :: m in order ==> Same(start, w, m) || (Landed(start, w, m) && m !in start.remote))
    && (forall m :: m in w.remote && m !in w.local ==> m in start.remote && m !in start.local)
    && (forall m :: m in w.local && m !in start.local ==> m in start.remote || CopyOf(order, m))
  }

  /** The conflict copy goes to a name that is not on Luna: the one that was free at the start, or
      one whose own file has been moved away since. */
  lemma AsideNotOnLuna(start: World, w: World, order: seq<string>, rel: string)
    requires Clear(start) && Along(start, w, order) && rel in order
    requires ArmOf(start, w, rel).Conflict?
    ensures ConflictAt(start, rel) && Same(start, w, rel)
    ensures AsideName(w, rel) !in w.remote && AsideName(w, rel) !in w.local
    ensures AsideName(w, rel) !in start.remote || AsideName(w, rel) in start.local
  {
    AsideFree(w, rel);
    var c := AsideName(w, rel);
    assert Same(start, w, rel) || Landed(start, w, rel);
    if c in start.remote && c !in start.local {
      FirstChoice(start, w, order, rel);
    }
    hide AsideName;
  }

  lemma FirstChoice(start: World, w: World, order: seq<string>, rel: string)
    requires Along(start, w, order) && rel in order && AsideName(start, rel) !in start.remote
    requires AsideName(w, rel) !in start.local
    ensures AsideName(w, rel) == AsideName(start, rel)
  {
    var base := ConflictName(rel);
    var k, k0 := FirstFree(Taken(w), base, 1), FirstFree(Taken(start), base, 1);
    FirstFreeIs(Taken(w), base, 1);
    FirstFreeIs(Taken(start), base, 1);
    var c, c0 := Sibling(base, k), Sibling(base, k0);
    hide Sibling, ConflictName, FirstFree, Same, Landed;
    assert c !in Taken(start) && c0 !in Taken(start);
    if k0 < k {
      assert c0 in w.local && CopyOf(order, c0);
      var r, j :| r !in order && 1 <= j && c0 == Sibling(ConflictName(r), j);
      ConflictNamesApart(rel, r, k0, j);
    }
    assert k == k0;
  }

  /** After any visit, a name is as before, is missing on a side, or has the same bytes on both. */
  predicate Matched(w: World, w': World, m: string) {
    || (Lookup(w.local, m) == Lookup(w'.local, m) && Lookup(w.remote, m) == Lookup(w'.remote, m))
    || m !in w'.local
    || m !in w'.remote
    || SameBytes(w', m)
  }

  lemma VisitMatches(start: World, w: World, rel: string, a: Answers, m: string)
    requires a.elsewhere.None?
    requires ArmOf(start, w, rel).Conflict? ==> AsideName(w, rel) !in w.remote
    requires Same(start, w, rel) || Landed(start, w, rel)
    ensures Matched(w, Visit(start, w, rel, a).0, m)
  {
    if m == rel {
      OwnMatches(start, w, rel, a);
    } else {
      if ArmOf(start, w, rel).Conflict? {
        LandsOnAside(start, w, rel, a, m);
      }
      hide Visit, ArmOf, AsideName;
      VisitElsewhere(start, w, rel, a, m);
    }
  }

  lemma LandsOnAside(start: World, w: World, rel: string, a: Answers, m: string)
    requires m != rel && a.elsewhere.None?
    ensures Landed(w, Visit(start, w, rel, a).0, m) ==> m == AsideName(w, rel)
  {
    VisitFrame(start, w, rel, a);
    hide Visit, AsideName;
  }

  lemma OwnMatches(start: World, w: World, rel: string, a: Answers)
    requires a.elsewhere.None?
    requires Same(start, w, rel) || Landed(start, w, rel)
    ensures Matched(w, Visit(start, w, rel, a).0, rel)
  {
    hide AsideName, TrashName, ConflictArm;
    if ArmOf(start, w, rel).Conflict? {
      ConflictOwn(start, w, rel, a);
    } else {
      PlainOwn(start, w, rel, a);
    }
  }

  lemma PlainOwn(start: World, w: World, rel: string, a: Answers)
    requires a.elsewhere.None? && !ArmOf(start, w, rel).Conflict?
    requires Same(start, w, rel) || Landed(start, w, rel)
    ensures Matched(w, Visit(start, w, rel, a).0, rel)
  {
    hide ConflictArm, SendArm, FetchArm, SetAsideArm, EraseArm;
    match ArmOf(start, w, rel)
    case Replace => SendMatches(start, w, rel, true, a);
    case Send => SendMatches(start, w, rel, false, a);
    case Fetch => FetchMatches(start, w, rel, a);
    case SetAside => SetAsideMatches(w, rel, a);
    case Erase => EraseMatches(w, rel, a);
    case _ =>
  }

  lemma SendMatches(start: World, w: World, rel: string, overwrite: bool, a: Answers)
    requires rel in start.local
    ensures Matched(w, SendArm(start, w, rel, overwrite, a).0, rel)
  {
  }

  lemma FetchMatches(start: World, w: World, rel: string, a: Answers)
    requires rel in start.remote
    ensures Matched(w, FetchArm(start, w, rel, a).0, rel)
  {
  }

  lemma SetAsideMatches(w: World, rel: string, a: Answers)
    ensures Matched(w, SetAsideArm(w, rel, a), rel)
  {
    hide TrashName;
  }

  lemma EraseMatches(w: World, rel: string, a: Answers)
    ensures Matched(w, EraseArm(w, rel, a).0, rel)
  {
  }

  lemma ConflictOwn(start: World, w: World, rel: string, a: Answers)
    requires a.elsewhere.None? && rel in start.remote && rel in w.local
    ensures Matched(w, ConflictArm(start, w, rel, a).0, rel)
    ensures Lookup(ConflictArm(start, w, rel, a).0.remote, rel) == Lookup(w.remote, rel)
  {
    AsideFree(w, rel);
    hide AsideName;
  }

  lemma OwnOnLunaOnly(start: World, w: World, rel: string, a: Answers)
    requires a.elsewhere.None? && Visit(start, w, rel, a).1
    requires Same(start, w, rel) || Landed(start, w, rel)
    ensures var w' := Visit(start, w, rel, a).0;
            rel in w'.remote && rel !in w'.local ==> rel in w.remote && rel !in w.local
  {
    AsideFree(w, rel);
    hide AsideName, TrashName;
    if ArmOf(start, w, rel).Conflict? {
      ConflictDone(start, w, rel, a);
      hide ConflictArm;
    } else {
      hide ConflictArm;
    }
  }

  lemma ConflictDone(start: World, w: World, rel: string, a: Answers)
    requires rel in start.remote && ConflictArm(start, w, rel, a).1
    ensures rel in ConflictArm(start, w, rel, a).0.local
  {
    hide AsideName;
  }

  lemma AlongStep(start: World, w: World, order: seq<string>, a: Answers)
    requires Clear(start) && Along(start, w, order) && NoDup(order) && order != []
    requires a.elsewhere.None? && Visit(start, w, order[0], a).1
    ensures Along(start, Visit(start, w, order[0], a).0, order[1..])
  {
    VisitFrame(start, w, order[0], a);
    OthersAlong(start, w, order, a);
    AheadStep(start, w, order, a);
    GapStep(start, w, order, a);
    NewHere(start, w, order, a);
    hide Visit, AsideName, NoDup, Clear, CopyOf, Same, Landed;
  }

  /** Another name is left as it is, or receives a conflict copy and is not on Luna. */
  ghost predicate OthersKept(w: World, w': World, rel: string) {
    forall m :: m != rel ==> Same(w, w', m) || (Landed(w, w', m) && m !in w.remote)
  }

  lemma OthersAlong(start: World, w: World, order: seq<string>, a: Answers)
    requires Clear(start) && Along(start, w, order) && order != [] && a.elsewhere.None?
    ensures OthersKept(w, Visit(start, w, order[0], a).0, order[0])
  {
    var rel := order[0];
    assert rel in order;
    if ArmOf(start, w, rel).Conflict? {
      AsideNotOnLuna(start, w, order, rel);
    }
    hide Visit, AsideName, Clear, Along, ArmOf, Same, Landed;
    forall m | m != rel
      ensures Same(w, Visit(start, w, rel, a).0, m) || (Landed(w, Visit(start, w, rel, a).0, m) && m !in w.remote)
    {
      VisitElsewhere(start, w, rel, a, m);
      LandsOnAside(start, w, rel, a, m);
    }
  }

  lemma AheadStep(start: World, w: World, order: seq<string>, a: Answers)
    requires Along(start, w, order) && NoDup(order) && order != []
    requires OthersKept(w, Visit(start, w, order[0], a).0, order[0])
    ensures var w' := Visit(start, w, order[0], a).0;
            forall m :: m in order[1..] ==> Same(start, w', m) || (Landed(start, w', m) && m !in start.remote)
  {
    var w' := Visit(start, w, order[0], a).0;
    NoDupTail(order);
    hide Visit, NoDup, Same, Landed, CopyOf;
    forall m | m in order[1..]
      ensures Same(start, w', m) || (Landed(start, w', m) && m !in start.remote)
    {
      assert m in order && m != order[0];
      AheadKept(start, w, w', m);
    }
  }

  lemma GapStep(start: World, w: World, order: seq<string>, a: Answers)
    requires Along(start, w, order) && order != [] && a.elsewhere.None? && Visit(start, w, order[0], a).1
    requires OthersKept(w, Visit(start, w, order[0], a).0, order[0])
    ensures var w' := Visit(start, w, order[0], a).0;
            forall m :: m in w'.remote && m !in w'.local ==> m in start.remote && m !in start.local
  {
    var rel := order[0];
    var w' := Visit(start, w, rel, a).0;
    assert rel in order;
    OwnOnLunaOnly(start, w, rel, a);
    hide Visit, CopyOf;
    forall m | m in w'.remote && m !in w'.local
      ensures m in w.remote && m !in w.local
    {
      if m != rel {
        assert Same(w, w', m) || (Landed(w, w', m) && m !in w.remote);
      }
    }
  }

  lemma NewHere(start: World, w: World, order: seq<string>, a: Answers)
    requires Along(start, w, order) && NoDup(order) && order != [] && a.elsewhere.None?
    ensures var w' := Visit(start, w, order[0], a).0;
            forall m :: m in w'.local && m !in start.local ==> m in start.remote || CopyOf(order[1..], m)
  {
    var rel := order[0];
    var w' := Visit(start, w, rel, a).0;
    VisitFrame(start, w, rel, a);
    OwnArrives(start, w, rel, a);
    NoDupTail(order);
    FreeSiblingIs(Taken(w), ConflictName(rel));
    var k :| 1 <= k && AsideName(w, rel) == Sibling(ConflictName(rel), k);
    hide Visit, AsideName, NoDup, Sibling, ConflictName, Same, Landed;
    forall m | m in w'.local && m !in start.local
      ensures m in start.remote || CopyOf(order[1..], m)
    {
      if m in w.local {
        assert m in start.remote || CopyOf(order, m);
      } else if m != rel {
        assert m == Sibling(ConflictName(rel), k);
      }
    }
  }

  /** A name that had no file here gets one only from Luna. */
  lemma OwnArrives(start: World, w: World, rel: string, a: Answers)
    requires a.elsewhere.None?
    ensures rel in Visit(start, w, rel, a).0.local && rel !in w.local ==> rel in start.remote
  {
    hide ConflictArm, SendArm, SetAsideArm, EraseArm;
    match ArmOf(start, w, rel)
    case Replace => SendLocal(start, w, rel, true, a);
    case Send => SendLocal(start, w, rel, false, a);
    case SetAside => SetAsideGone(w, rel, a);
    case Erase => EraseLocal(w, rel, a);
    case _ =>
  }

  lemma SetAsideGone(w: World, rel: string, a: Answers)
    ensures rel in SetAsideArm(w, rel, a).local ==> rel in w.local
  {
    hide TrashName;
  }

  lemma EraseLocal(w: World, rel: string, a: Answers)
    ensures EraseArm(w, rel, a).0.local == w.local
  {
  }

  lemma AheadKept(start: World, w: World, w': World, m: string)
    requires Same(start, w, m) || (Landed(start, w, m) && m !in start.remote)
    requires Same(w, w', m) || (Landed(w, w', m) && m !in w.remote)
    ensures Same(start, w', m) || (Landed(start, w', m) && m !in start.remote)
  {
  }

  /** The ledger `ledger`, saved or in memory, is sound for what the two sides hold. */
  ghost predicate SoundFor(w: World, ledger: map<string, Entry>) {
    Sound(w.(ledger := ledger))
  }

  /** A ledger that is not written stays sound, and so does the one in memory. */
  lemma VisitSound(start: World, w: World, order: seq<string>, a: Answers, saved: map<string, Entry>)
    requires Clear(start) && Along(start, w, order) && order != []
    requires a.elsewhere.None?
    requires Sound(w) && SoundFor(w, saved)
    ensures Sound(Visit(start, w, order[0], a).0)
    ensures SoundFor(Visit(start, w, order[0], a).0, saved)
  {
    var rel := order[0];
    assert rel in order;
    var w' := Visit(start, w, rel, a).0;
    assert Same(start, w, rel) || Landed(start, w, rel);
    if ArmOf(start, w, rel).Conflict? {
      AsideNotOnLuna(start, w, order, rel);
    }
    LedgerKept(start, w, rel, a);
    hide AsideName, Visit, Clear, ArmOf, Along;
    forall m | m in w'.local && m in w'.remote
      ensures SoundAt(w', m) && SoundAt(w'.(ledger := saved), m)
    {
      VisitMatches(start, w, rel, a, m);
      MatchedSound(w, w', m, saved);
    }
  }

  /** The ledger entry of a name changes only with the name, unless both sides agree on it. */
  lemma LedgerKept(start: World, w: World, rel: string, a: Answers)
    requires a.elsewhere.None?
    requires Same(start, w, rel) || Landed(start, w, rel)
    requires Sound(w)
    ensures var w' := Visit(start, w, rel, a).0;
            forall m :: Lookup(w.ledger, m) == Lookup(w'.ledger, m) || SameBytes(w', m) || m !in w'.local
                || m !in w'.remote
  {
    hide AsideName;
    VisitFrame(start, w, rel, a);
    OwnLedgerKept(start, w, rel, a);
    hide Visit, Sound;
  }

  lemma OwnLedgerKept(start: World, w: World, rel: string, a: Answers)
    requires a.elsewhere.None?
    requires Same(start, w, rel) || Landed(start, w, rel)
    requires rel in w.local && rel in w.remote ==> SoundAt(w, rel)
    ensures var w' := Visit(start, w, rel, a).0;
            Lookup(w.ledger, rel) == Lookup(w'.ledger, rel) || SameBytes(w', rel) || rel !in w'.local
                || rel !in w'.remote
  {
    if ArmOf(start, w, rel).Conflict? {
      ConflictOwnLedger(start, w, rel, a);
    }
    hide AsideName, TrashName, ConflictArm;
  }

  lemma ConflictOwnLedger(start: World, w: World, rel: string, a: Answers)
    requires a.elsewhere.None? && rel in start.remote && rel in w.local
    ensures var w' := ConflictArm(start, w, rel, a).0;
            Lookup(w.ledger, rel) == Lookup(w'.ledger, rel) || SameBytes(w', rel)
  {
    AsideFree(w, rel);
    hide AsideName;
  }

  lemma MatchedSound(w: World, w': World, m: string, saved: map<string, Entry>)
    requires Sound(w) && SoundFor(w, saved) && Matched(w, w', m)
    requires m in w'.local && m in w'.remote
    requires Lookup(w.ledger, m) == Lookup(w'.ledger, m) || SameBytes(w', m)
    ensures SoundAt(w', m) && SoundAt(w'.(ledger := saved), m)
  {
    var v := w.(ledger := saved);
    if !SameBytes(w', m) {
      assert SoundAt(w, m) && SoundAt(v, m);
    }
  }

  lemma {:induction false} RunSound(start: World, w: World, order: seq<string>, ans: string -> Answers,
                                    saved: map<string, Entry>)
    requires Clear(start) && Along(start, w, order) && NoDup(order) && Alone(ans)
    requires Sound(w) && SoundFor(w, saved)
    ensures Sound(Run(start, w, order, ans).0)
    ensures SoundFor(Run(start, w, order, ans).0, saved)
    decreases |order|
  {
    if order != [] {
      var rel := order[0];
      var (w1, ok) := Visit(start, w, rel, ans(rel));
      assert ans(rel).elsewhere.None?;
      VisitSound(start, w, order, ans(rel), saved);
      if ok {
        AlongStep(start, w, order, ans(rel));
        NoDupTail(order);
        hide Visit, Clear, Along, NoDup, Sound, SoundFor;
        RunSound(start, w1, order[1..], ans, saved);
      }
    }
  }

  /** The bytes `b` of local file `m` are in no danger under this ledger: Luna has nothing else
      under the name, or a pass would not fetch it over the local file. */
  predicate SafeUnder(w: World, ledger: map<string, Entry>, m: string, b: seq<Byte>) {
    && m in w.local && w.local[m].bytes == b
    && (m in w.remote && w.remote[m].bytes != b ==>
          !Decide(Some(w.local[m]), Some(w.remote[m]), Lookup(ledger, m)).Fetch?)
  }

  predicate SafeAt(w: World, saved: map<string, Entry>, m: string, b: seq<Byte>) {
    SafeUnder(w, w.ledger, m, b) && SafeUnder(w, saved, m, b)
  }

  ghost predicate TrashHas(w: World, b: seq<Byte>) {
    exists t :: t in w.trash && w.trash[t].bytes == b
  }

  /** The bytes are on this computer, in the trash or in a file neither ledger would let go. */
  ghost predicate Held(w: World, saved: map<string, Entry>, b: seq<Byte>) {
    TrashHas(w, b) || exists m :: SafeAt(w, saved, m, b)
  }

  /** The visit of a file held by name: it stays held there, is set aside, or goes to the trash. */
  lemma OwnHeld(start: World, w: World, m: string, a: Answers, saved: map<string, Entry>, b: seq<Byte>)
    requires a.elsewhere.None? && SafeAt(w, saved, m, b)
    requires Same(start, w, m) || (Landed(start, w, m) && m !in start.remote)
    requires ArmOf(start, w, m).Conflict? ==> AsideName(w, m) !in w.remote
    ensures var w' := Visit(start, w, m, a).0;
            SafeAt(w', saved, m, b) || TrashHas(w', b) || SafeAt(w', saved, AsideName(w, m), b)
  {
    hide AsideName, ConflictArm, SetAsideArm, SendArm, FetchArm;
    match ArmOf(start, w, m)
    case Conflict => ConflictHeld(start, w, m, a, saved, b);
    case SetAside => SetAsideHeld(w, m, a, saved, b);
    case Replace => SendHeld(start, w, m, true, a, saved, b);
    case Send => SendHeld(start, w, m, false, a, saved, b);
    case Fetch => FetchHeld(start, w, m, a, saved, b);
    case Idle | Adopt | Erase | Forget =>
  }

  lemma SendHeld(start: World, w: World, m: string, overwrite: bool, a: Answers, saved: map<string, Entry>,
                 b: seq<Byte>)
    requires SafeAt(w, saved, m, b) && m in start.local
    ensures SafeAt(SendArm(start, w, m, overwrite, a).0, saved, m, b)
  {
  }

  lemma FetchHeld(start: World, w: World, m: string, a: Answers, saved: map<string, Entry>, b: seq<Byte>)
    requires SafeAt(w, saved, m, b) && ArmOf(start, w, m).Fetch?
    requires Same(start, w, m) || (Landed(start, w, m) && m !in start.remote)
    ensures SafeAt(FetchArm(start, w, m, a).0, saved, m, b)
  {
  }

  lemma SetAsideHeld(w: World, m: string, a: Answers, saved: map<string, Entry>, b: seq<Byte>)
    requires SafeAt(w, saved, m, b)
    ensures SafeAt(SetAsideArm(w, m, a), saved, m, b) || TrashHas(SetAsideArm(w, m, a), b)
  {
    var t := TrashName(w, m, a.stamp);
    hide TrashName;
    if a.rename {
      assert t in SetAsideArm(w, m, a).trash;
    }
  }

  lemma ConflictHeld(start: World, w: World, m: string, a: Answers, saved: map<string, Entry>, b: seq<Byte>)
    requires m in start.remote && SafeAt(w, saved, m, b) && AsideName(w, m) !in w.remote
    ensures var w' := ConflictArm(start, w, m, a).0;
            SafeAt(w', saved, m, b) || SafeAt(w', saved, AsideName(w, m), b)
  {
    AsideFree(w, m);
    hide AsideName;
  }

  /** Visits of other names do not disturb a held file. */
  lemma OtherHeld(start: World, w: World, rel: string, a: Answers, saved: map<string, Entry>, m: string, b: seq<Byte>)
    requires m != rel && a.elsewhere.None? && SafeAt(w, saved, m, b)
    ensures SafeAt(Visit(start, w, rel, a).0, saved, m, b)
  {
    VisitElsewhere(start, w, rel, a, m);
    hide Visit, ArmOf;
  }

  lemma VisitHeld(start: World, w: World, order: seq<string>, a: Answers, saved: map<string, Entry>, b: seq<Byte>)
    requires Clear(start) && Along(start, w, order) && order != [] && a.elsewhere.None?
    requires Held(w, saved, b)
    ensures Held(Visit(start, w, order[0], a).0, saved, b)
  {
    var rel := order[0];
    assert rel in order;
    assert Same(start, w, rel) || (Landed(start, w, rel) && rel !in start.remote);
    if ArmOf(start, w, rel).Conflict? {
      AsideNotOnLuna(start, w, order, rel);
    }
    VisitFrame(start, w, rel, a);
    var w' := Visit(start, w, rel, a).0;
    hide Visit, Clear, Along, AsideName, ArmOf;
    if TrashHas(w, b) {
      assert TrashHas(w', b);
    } else {
      var m :| SafeAt(w, saved, m, b);
      if m == rel {
        OwnHeld(start, w, m, a, saved, b);
      } else {
        OtherHeld(start, w, rel, a, saved, m, b);
      }
    }
  }

  lemma {:induction false} RunHeld(start: World, w: World, order: seq<string>, ans: string -> Answers,
                                   saved: map<string, Entry>, b: seq<Byte>)
    requires Clear(start) && Along(start, w, order) && NoDup(order) && Alone(ans)
    requires Held(w, saved, b)
    ensures Held(Run(start, w, order, ans).0, saved, b)
    decreases |order|
  {
    if order != [] {
      var rel := order[0];
      var (w1, ok) := Visit(start, w, rel, ans(rel));
      assert ans(rel).elsewhere.None?;
      VisitHeld(start, w, order, ans(rel), saved, b);
      if ok {
        AlongStep(start, w, order, ans(rel));
        NoDupTail(order);
        hide Visit, Clear, Along, NoDup, Held;
        RunHeld(start, w1, order[1..], ans, saved, b);
      }
    }
  }

  /** A running pair: its state, with the ledger in memory, and the ledger on disk. */
  datatype Device = Device(w: World, saved: map<string, Entry>)

  /** `Attempt` is any part of a pass; the ledger is written if it got through every name and
      the write worked. `Restart` reloads the ledger from disk; a torn file loads as empty. */
  datatype Event = Attempt(order: seq<string>, ans: string -> Answers, written: bool) | Restart(torn: bool)

  ghost function After(d: Device, e: Event): Device {
    match e
    case Attempt(order, ans, written) =>
      var (w, ok) := Run(d.w, d.w, order, ans);
      Device(w, if ok && written && FullOrder(d.w, order) then w.ledger else d.saved)
    case Restart(torn) =>
      var ledger := if torn then map[] else d.saved;
      Device(d.w.(ledger := ledger), ledger)
  }

  ghost function AfterAll(d: Device, events: seq<Event>): Device
    decreases |events|
  {
    if events == [] then d else AfterAll(After(d, events[0]), events[1..])
  }

  /** Nobody else touches either side, and conflict names are never taken on Luna. */
  ghost predicate Undisturbed(d: Device, e: Event) {
    e.Attempt? ==> Clear(d.w) && NoDup(e.order) && Alone(e.ans)
  }

  ghost predicate AllUndisturbed(d: Device, events: seq<Event>)
    decreases |events|
  {
    events == [] || (Undisturbed(d, events[0]) && AllUndisturbed(After(d, events[0]), events[1..]))
  }

  /** Every ledger the pair could come to work with is sound: in memory, on disk, or empty. */
  ghost predicate Trustworthy(d: Device) {
    Sound(d.w) && SoundFor(d.w, d.saved) && SoundFor(d.w, map[])
  }

  lemma TrustworthyStep(d: Device, e: Event)
    requires Trustworthy(d) && Undisturbed(d, e)
    ensures Trustworthy(After(d, e))
  {
    match e
    case Attempt(order, ans, _) =>
      RunSound(d.w, d.w, order, ans, d.saved);
      RunSound(d.w, d.w, order, ans, map[]);
      var w := Run(d.w, d.w, order, ans).0;
      assert w.(ledger := w.ledger) == w;
      hide Run, Clear, NoDup;
    case Restart(_) =>
      assert d.w.(ledger := d.saved).(ledger := d.saved) == d.w.(ledger := d.saved);
  }

  lemma {:induction false} TrustworthyAlways(d: Device, events: seq<Event>)
    requires Trustworthy(d) && AllUndisturbed(d, events)
    ensures Trustworthy(AfterAll(d, events))
    decreases |events|
  {
    if events != [] {
      TrustworthyStep(d, events[0]);
      hide Trustworthy, Undisturbed, After;
      TrustworthyAlways(After(d, events[0]), events[1..]);
    }
  }

  /** However often passes failed, were stopped or were cut off by a crash, three full passes
      settle the pair. */
  lemma SettlesAfterCrashes(d: Device, events: seq<Event>, o1: seq<string>, a1: string -> Answers,
                            o2: seq<string>, a2: string -> Answers, o3: seq<string>, a3: string -> Answers)
    requires Trustworthy(d) && AllUndisturbed(d, events)
    requires forall n :: Calm(a1(n)) && Calm(a2(n)) && Calm(a3(n))
    requires var w := AfterAll(d, events).w;
             && FullOrder(w, o1)
             && FullOrder(Pass(w, o1, a1), o2)
             && FullOrder(Pass(Pass(w, o1, a1), o2, a2), o3)
    ensures var w := AfterAll(d, events).w; Settled(Pass(Pass(Pass(w, o1, a1), o2, a2), o3, a3))
  {
    TrustworthyAlways(d, events);
    hide AfterAll, AllUndisturbed, FullOrder, Pass, Settled, Sound;
    ThreePassesSettle(AfterAll(d, events).w, o1, a1, o2, a2, o3, a3);
  }

  /** In the trash, or in a file that does not give way without a ledger. */
  ghost predicate HeldUnknown(w: World, b: seq<Byte>) {
    TrashHas(w, b) || exists m :: SafeUnder(w, map[], m, b)
  }

  /** Whenever the ledger file is found torn, the bytes are held without it. */
  ghost predicate TornInPeace(d: Device, events: seq<Event>, b: seq<Byte>)
    decreases |events|
  {
    events == []
    || ((events[0] == Restart(true) ==> HeldUnknown(d.w, b)) && TornInPeace(After(d, events[0]), events[1..], b))
  }

  lemma {:induction false} HeldAlways(d: Device, events: seq<Event>, b: seq<Byte>)
    requires AllUndisturbed(d, events) && Held(d.w, d.saved, b) && TornInPeace(d, events, b)
    ensures Held(AfterAll(d, events).w, AfterAll(d, events).saved, b)
    decreases |events|
  {
    if events != [] {
      HeldStep(d, events[0], b);
      hide After, Held, Undisturbed, TrashHas;
      HeldAlways(After(d, events[0]), events[1..], b);
    }
  }

  lemma HeldStep(d: Device, e: Event, b: seq<Byte>)
    requires Undisturbed(d, e) && Held(d.w, d.saved, b)
    requires e == Restart(true) ==> HeldUnknown(d.w, b)
    ensures Held(After(d, e).w, After(d, e).saved, b)
  {
    match e
    case Attempt(order, ans, _) =>
      RunHeld(d.w, d.w, order, ans, d.saved, b);
      var w := Run(d.w, d.w, order, ans).0;
      hide Run, Clear, NoDup;
      if !TrashHas(w, b) {
        var m :| SafeAt(w, d.saved, m, b);
        assert SafeAt(w, w.ledger, m, b);
      }
    case Restart(torn) =>
      var ledger := if torn then map[] else d.saved;
      var w := d.w.(ledger := ledger);
      if TrashHas(d.w, b) {
        assert TrashHas(w, b);
      } else if torn {
        var m :| SafeUnder(d.w, map[], m, b);
        assert SafeAt(w, ledger, m, b);
      } else {
        var m :| SafeAt(d.w, d.saved, m, b);
        assert SafeAt(w, ledger, m, b);
      }
  }

  ghost predicate OnThisComputer(w: World, b: seq<Byte>) {
    TrashHas(w, b) || exists m :: m in w.local && w.local[m].bytes == b
  }

  /** A file a pass would not fetch over outlives every history of passes, failures and restarts:
      its bytes are on this computer afterwards. */
  lemma FilesOutliveCrashes(d: Device, events: seq<Event>, n: string)
    requires n in d.w.local && d.saved == d.w.ledger && !ArmOf(d.w, d.w, n).Fetch?
    requires AllUndisturbed(d, events) && TornInPeace(d, events, d.w.local[n].bytes)
    ensures OnThisComputer(AfterAll(d, events).w, d.w.local[n].bytes)
  {
    assert SafeAt(d.w, d.saved, n, d.w.local[n].bytes);
    HeldAlways(d, events, d.w.local[n].bytes);
    hide AfterAll, AllUndisturbed, TornInPeace;
  }

  /** An edit is such a file. */
  lemma EditsOutliveCrashes(d: Device, events: seq<Event>, n: string)
    requires d.saved == d.w.ledger && Edited(d.w, n) && AllUndisturbed(d, events)
    requires TornInPeace(d, events, d.w.local[n].bytes)
    ensures OnThisComputer(AfterAll(d, events).w, d.w.local[n].bytes)
  {
    assert !ArmOf(d.w, d.w, n).Fetch?;
    hide ArmOf, AfterAll, AllUndisturbed, TornInPeace;
    FilesOutliveCrashes(d, events, n);
  }

  ghost predicate Survives(d: Device, events: seq<Event>, b: seq<Byte>) {
    AllUndisturbed(d, events) && TornInPeace(d, events, b) ==> OnThisComputer(AfterAll(d, events).w, b)
  }

  /** Bytes that are only in one local file survive every such history exactly if a pass would not
      fetch over that file. */
  lemma FilesSurviveIff(d: Device, n: string)
    requires n in d.w.local && d.saved == d.w.ledger && OnlyCopy(d.w, n) && Clear(d.w)
    ensures (forall events :: Survives(d, events, d.w.local[n].bytes)) <==> !ArmOf(d.w, d.w, n).Fetch?
  {
    var b := d.w.local[n].bytes;
    if ArmOf(d.w, d.w, n).Fetch? {
      var events := [Attempt([n], _ => Smooth(0), false)];
      FetchedOver(d, n);
      assert !Survives(d, events, b);
    } else {
      forall events
        ensures Survives(d, events, b)
      {
        hide AfterAll, AllUndisturbed, TornInPeace, OnThisComputer, ArmOf, OnlyCopy, Clear;
        if AllUndisturbed(d, events) && TornInPeace(d, events, b) {
          FilesOutliveCrashes(d, events, n);
        }
      }
    }
  }

  lemma FetchedOver(d: Device, n: string)
    requires n in d.w.local && OnlyCopy(d.w, n) && Clear(d.w) && ArmOf(d.w, d.w, n).Fetch?
    ensures var (b, events) := (d.w.local[n].bytes, [Attempt([n], _ => Smooth(0), false)]);
            && AllUndisturbed(d, events) && TornInPeace(d, events, b)
            && !OnThisComputer(AfterAll(d, events).w, b)
  {
    var ans := (_: string) => Smooth(0);
    var e := Attempt([n], ans, false);
    var (w1, ok) := Visit(d.w, d.w, n, Smooth(0));
    assert w1.local == d.w.local[n := File(d.w.remote[n].bytes, 0)] && w1.trash == d.w.trash && ok;
    assert [n][1..] == [] && Run(d.w, w1, [], ans) == (w1, true);
    assert Run(d.w, d.w, [n], ans) == (w1, true);
    assert After(d, e).w == w1;
    assert [e][1..] == [];
    hide Visit, ArmOf, Run, Clear, After;
    NothingElse(After(d, e), d, e, d.w.local[n].bytes);
  }

  lemma NothingElse(after: Device, d: Device, e: Event, b: seq<Byte>)
    requires after == After(d, e) && e.Attempt? && Undisturbed(d, e)
    ensures AllUndisturbed(d, [e]) && TornInPeace(d, [e], b) && AfterAll(d, [e]) == after
  {
    hide After, Undisturbed;
    assert [e][1..] == [];
    assert AllUndisturbed(after, []) && TornInPeace(after, [], b) && AfterAll(after, []) == after;
  }

  /** Without a ledger a file here gives way only to a newer one on Luna that is not its twin. */
  predicate GivesWay(w: World, n: string)
    requires n in w.local
  {
    n in w.remote && !Twins(w.local[n], w.remote[n]) && w.local[n].mtime < w.remote[n].mtime
  }

  /** That is just what holds bytes in a file without a ledger. */
  lemma UnknownSafeIff(w: World, n: string)
    requires n in w.local
    ensures var b := w.local[n].bytes;
            SafeUnder(w, map[], n, b) <==> !GivesWay(w, n) || w.remote[n].bytes == b
  {
  }

  /** The bytes a pass without a ledger leaves in a local file. */
  function UnknownBytes(w: World, n: string): seq<Byte>
    requires n in w.local || n in w.remote
  {
    if n in w.local && !GivesWay(w, n) then w.local[n].bytes else w.remote[n].bytes
  }

  lemma UnknownVisit(w: World, n: string, a: Answers)
    requires w.ledger == map[] && Calm(a)
    ensures !ArmOf(w, w, n).Conflict? && !ArmOf(w, w, n).SetAside?
    ensures var w' := Visit(w, w, n, a).0;
            && (n in w'.local <==> n in w.local || n in w.remote)
            && (n in w'.local ==> w'.local[n].bytes == UnknownBytes(w, n))
  {
    hide ConflictArm, SetAsideArm;
  }

  lemma {:induction false} UnknownTrash(start: World, w: World, order: seq<string>, ans: string -> Answers)
    requires start.ledger == map[] && NoDup(order) && forall n :: Calm(ans(n))
    requires forall n :: n in order ==> Same(start, w, n)
    ensures Run(start, w, order, ans).0.trash == w.trash
    decreases |order|
  {
    if order != [] {
      var rel := order[0];
      var (w1, ok) := Visit(start, w, rel, ans(rel));
      NoDupTail(order);
      assert rel in order;
      UnknownVisit(start, rel, ans(rel));
      OtherNames(start, w, rel, ans(rel));
      TrashSame(start, w, rel, ans(rel));
      hide Visit, NoDup, Same;
      forall n | n in order[1..]
        ensures Same(start, w1, n)
      {
        SameTrans(start, w, w1, n);
      }
      if ok {
        UnknownTrash(start, w1, order[1..], ans);
      }
    }
  }

  lemma TrashSame(start: World, w: World, rel: string, a: Answers)
    requires Same(start, w, rel) && !ArmOf(start, start, rel).Conflict? && !ArmOf(start, start, rel).SetAside?
    ensures Visit(start, w, rel, a).0.trash == w.trash
  {
    SameArm(start, w, rel);
    ActTrash(start, Meanwhile(w, a), rel, a);
    hide Act, Decide, Same;
  }

  /** Only the two arms that move a local file away can add to the trash. */
  lemma ActTrash(start: World, w: World, rel: string, a: Answers)
    requires !ArmOf(start, w, rel).Conflict? && !ArmOf(start, w, rel).SetAside?
    ensures Act(start, w, rel, a).0.trash == w.trash
  {
    hide ConflictArm, SetAsideArm;
  }

  lemma SameArm(start: World, w: World, rel: string)
    requires Same(start, w, rel)
    ensures ArmOf(start, w, rel) == ArmOf(start, start, rel)
  {
  }

  /** A ledger file torn while it was written reads as empty. After such a restart and an
      undisturbed pass, bytes that were only in one local file are on this computer exactly if
      that file did not give way. */
  lemma TornLedgerKeepsIff(d: Device, n: string, order: seq<string>, ans: string -> Answers)
    requires n in d.w.local && OnlyCopy(d.w, n)
    requires FullOrder(After(d, Restart(true)).w, order) && forall m :: Calm(ans(m))
    ensures OnThisComputer(Pass(After(d, Restart(true)).w, order, ans), d.w.local[n].bytes) <==> !GivesWay(d.w, n)
  {
    var w := After(d, Restart(true)).w;
    var p, b := Pass(w, order, ans), d.w.local[n].bytes;
    UnknownTrash(w, w, order, ans);
    forall m
      ensures m in p.local <==> m in w.local || m in w.remote
      ensures m in p.local ==> p.local[m].bytes == UnknownBytes(w, m)
    {
      UnknownRow(w, order, ans, m);
    }
    hide Pass, FullOrder, Twins;
    assert n in p.local;
    if !GivesWay(w, n) {
      assert p.local[n].bytes == b;
    }
  }

  lemma UnknownRow(w: World, order: seq<string>, ans: string -> Answers, m: string)
    requires w.ledger == map[] && FullOrder(w, order) && forall n :: Calm(ans(n))
    ensures var p := Pass(w, order, ans);
            && (m in p.local <==> m in w.local || m in w.remote)
            && (m in p.local ==> p.local[m].bytes == UnknownBytes(w, m))
  {
    forall n
      ensures !ArmOf(w, w, n).Conflict?
    {
      UnknownVisit(w, n, ans(n));
    }
    UnknownVisit(w, m, ans(m));
    hide Visit, ArmOf, GivesWay;
    RunPointwise(w, w, order, ans, m);
  }

  lemma CalmGoesThrough(start: World, w: World, rel: string, a: Answers)
    requires Calm(a) && (Same(start, w, rel) || Landed(start, w, rel))
    ensures Visit(start, w, rel, a).1
  {
    if ArmOf(start, w, rel).Conflict? {
      AsideFree(w, rel);
    }
    hide AsideName, TrashName;
  }

  /** A name that is here, or is on Luna alone, keeps its row once it is behind: nothing lands on it. */
  lemma {:induction false} RowStays(start: World, w: World, order: seq<string>, ans: string -> Answers, n: string)
    requires Clear(start) && Along(start, w, order) && NoDup(order) && Alone(ans)
    requires n !in order && (n in w.local || (n in start.remote && n !in start.local))
    ensures Same(w, Run(start, w, order, ans).0, n)
    decreases |order|
  {
    if order != [] {
      var rel := order[0];
      var (w1, ok) := Visit(start, w, rel, ans(rel));
      assert ans(rel).elsewhere.None? && rel in order;
      NoLanding(start, w, order, rel, ans(rel), n);
      if ok {
        AlongStep(start, w, order, ans(rel));
        NoDupTail(order);
        hide Visit, Clear, Along, NoDup;
        RowStays(start, w1, order[1..], ans, n);
        SameTrans(w, w1, Run(start, w1, order[1..], ans).0, n);
      }
    }
  }

  lemma NoLanding(start: World, w: World, order: seq<string>, rel: string, a: Answers, n: string)
    requires Clear(start) && Along(start, w, order) && rel in order && rel != n && a.elsewhere.None?
    requires n in w.local || (n in start.remote && n !in start.local)
    ensures Same(w, Visit(start, w, rel, a).0, n)
  {
    VisitElsewhere(start, w, rel, a, n);
    LandsOnAside(start, w, rel, a, n);
    if ArmOf(start, w, rel).Conflict? {
      AsideNotOnLuna(start, w, order, rel);
    }
    hide AsideName, Visit, ArmOf;
  }

  /** In an undisturbed pass a name is visited as it was listed, and keeps what its visit
      made of it. */
  lemma {:induction false} OwnVisitDecides(start: World, w: World, order: seq<string>, ans: string -> Answers,
                                           n: string) returns (v: World)
    requires Clear(start) && Along(start, w, order) && NoDup(order) && forall m :: Calm(ans(m))
    requires n in order && n in start.remote && Same(start, w, n)
    ensures Same(start, v, n)
    ensures Same(Visit(start, v, n, ans(n)).0, Run(start, w, order, ans).0, n)
    decreases |order|
  {
    var rel := order[0];
    var (w1, ok) := Visit(start, w, rel, ans(rel));
    assert rel in order && Calm(ans(rel)) && Alone(ans);
    CalmGoesThrough(start, w, rel, ans(rel));
    AlongStep(start, w, order, ans(rel));
    NoDupTail(order);
    if rel == n {
      v := w;
      if n in start.local {
        OwnStillOpen(start, w, n, ans(n));
      }
      hide Visit, Clear, Along, NoDup;
      RowStays(start, w1, order[1..], ans, n);
    } else {
      NoLanding(start, w, order, rel, ans(rel), n);
      hide Visit, Clear, Along, NoDup;
      SameTrans(start, w, w1, n);
      v := OwnVisitDecides(start, w1, order[1..], ans, n);
    }
  }

  /** A calm visit of a file listed on both sides leaves a file here. */
  lemma OwnStillOpen(start: World, w: World, n: string, a: Answers)
    requires Same(start, w, n) && Calm(a) && n in start.remote && n in start.local
    ensures n in Visit(start, w, n, a).0.local
  {
    hide AsideName;
  }

  /** No part of a pass touches Luna's version of a file in conflict. */
  lemma {:induction false} LunaVersionStays(start: World, w: World, order: seq<string>, ans: string -> Answers,
                                            n: string)
    requires Clear(start) && Along(start, w, order) && NoDup(order) && Alone(ans)
    requires ConflictAt(start, n) && Lookup(w.remote, n) == Lookup(start.remote, n)
    ensures Lookup(Run(start, w, order, ans).0.remote, n) == Lookup(start.remote, n)
    decreases |order|
  {
    if order != [] {
      var rel := order[0];
      var (w1, ok) := Visit(start, w, rel, ans(rel));
      assert ans(rel).elsewhere.None? && rel in order;
      if rel == n {
        assert Same(start, w, n);
        ConflictOwn(start, w, n, ans(n));
        hide ConflictArm;
      } else {
        VisitElsewhere(start, w, rel, ans(rel), n);
      }
      hide Visit, Clear, Along, NoDup, ArmOf;
      if ok {
        AlongStep(start, w, order, ans(rel));
        NoDupTail(order);
        LunaVersionStays(start, w1, order[1..], ans, n);
      }
    }
  }

  lemma AlongAtStart(w: World, order: seq<string>)
    ensures Along(w, w, order)
  {
  }

  /** Restart after any part of a pass: the ledger is the one the pass began with. */
  function Restarted(w: World, order: seq<string>, ans: string -> Answers): World {
    Pass(w, order, ans).(ledger := w.ledger)
  }

  /** Luna's version of a conflicted file after a crash and one undisturbed pass: it is kept,
      under its own name on both sides, exactly when the crash did not leave the name without
      a local file. Otherwise the missing file reads as a local delete, and the pass deletes
      Luna's version. */
  lemma LunaVersionSurvivesIff(w: World, order: seq<string>, ans: string -> Answers, n: string,
                               o2: seq<string>, a2: string -> Answers)
    requires ConflictAt(w, n) && Clear(w) && NoDup(order) && Alone(ans)
    requires var v := Restarted(w, order, ans);
             Clear(v) && FullOrder(v, o2) && forall m :: Calm(a2(m))
    ensures var v := Restarted(w, order, ans);
            var p := Pass(v, o2, a2);
            && (n in v.local ==> SameBytes(p, n) && p.remote[n] == w.remote[n])
            && (n !in v.local ==> n !in p.remote && n !in p.local)
  {
    var v := Restarted(w, order, ans);
    AlongAtStart(w, order);
    AlongAtStart(v, o2);
    LunaVersionStays(w, w, order, ans, n);
    assert n in v.remote && v.remote[n] == w.remote[n] && n in v.ledger && v.ledger[n] == w.ledger[n];
    assert RemoteChanged(v.remote[n], v.ledger[n]);
    assert n in o2;
    hide Run, Restarted, Clear;
    var u := OwnVisitDecides(v, v, o2, a2, n);
    AfterRestartVisit(v, u, n, a2(n));
    hide Visit;
  }

  /** The visit of a name whose Luna side changed: fetched if here, deleted if missing. */
  lemma AfterRestartVisit(v: World, u: World, n: string, a: Answers)
    requires Calm(a) && Same(v, u, n) && n in v.remote && n in v.ledger && RemoteChanged(v.remote[n], v.ledger[n])
    ensures var p := Visit(v, u, n, a).0;
            && (n in v.local ==> SameBytes(p, n) && p.remote[n] == v.remote[n])
            && (n !in v.local ==> n !in p.remote && n !in p.local)
  {
    hide ConflictArm;
    if ArmOf(v, u, n).Conflict? {
      ConflictResolves(v, u, n, a);
      ConflictOwn(v, u, n, a);
    }
  }

  /** The window is there for every file in conflict: the machine stops once the local file is
      set aside, and the download has not yet replaced it. */
  function StopsInWindow(): Answers {
    Smooth(0).(fetch := false, restore := false)
  }

  /** The bytes of `n` on Luna are nowhere else. */
  predicate OnlyOnLuna(w: World, n: string)
    requires n in w.remote
  {
    var b := w.remote[n].bytes;
    && (forall m :: m in w.local ==> w.local[m].bytes != b)
    && (forall m :: m in w.remote && m != n ==> w.remote[m].bytes != b)
    && (forall t :: t in w.trash ==> w.trash[t].bytes != b)
  }

  lemma CrashLosesLunaVersion(w: World, n: string)
    requires ConflictAt(w, n) && OnlyOnLuna(w, n)
    ensures var v := Restarted(w, [n], _ => StopsInWindow());
            && n !in v.local
            && Gone(Pass(v, [n], _ => Smooth(0)), w.remote[n].bytes)
  {
    var c, ans := AsideName(w, n), (_: string) => StopsInWindow();
    AsideFree(w, n);
    hide AsideName;
    assert Visit(w, w, n, StopsInWindow()) == (MovedAside(w, n), false);
    assert Pass(w, [n], ans) == MovedAside(w, n);
    var v := MovedAside(w, n).(ledger := w.ledger);
    assert Restarted(w, [n], ans) == v;
    var p := v.(remote := v.remote - {n}, ledger := v.ledger - {n});
    assert Visit(v, v, n, Smooth(0)) == (p, true);
    assert [n][1..] == [];
    assert Run(v, p, [], _ => Smooth(0)) == (p, true);
    assert Pass(v, [n], _ => Smooth(0)) == p;
  }
}
