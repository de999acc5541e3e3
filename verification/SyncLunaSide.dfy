/** The other side of `SyncCrash`: what failures, stops and crashes leave of the files on Luna. The
    window between setting a file aside and fetching Luna's version is the only place where a
    history loses what each of its passes would have kept. */
module SyncLunaSide {
  import opened Options
  import opened SyncModel
  import opened SyncSafety
  import opened SyncConvergence
  import opened SyncCrash

  /** Luna has the bytes `b` under `n`, and a pass under this ledger would keep them there: a file
      missing here would not read as deleted, and one that differs would not be sent over them. */
  predicate KeptThere(w: World, ledger: map<string, Entry>, n: string, b: seq<Byte>) {
    && n in w.remote && w.remote[n].bytes == b
    && (n !in w.local ==> n !in ledger)
    && (n in w.local && w.local[n].bytes != b ==>
          !Decide(Some(w.local[n]), Some(w.remote[n]), Lookup(ledger, n)).Replace?)
  }

  predicate KeptByBoth(w: World, saved: map<string, Entry>, n: string, b: seq<Byte>) {
    KeptThere(w, w.ledger, n, b) && KeptThere(w, saved, n, b)
  }

  /** The window: Luna has the file, here it is missing, and a ledger knows it. */
  predicate InWindow(w: World, saved: map<string, Entry>, n: string) {
    n in w.remote && n !in w.local && (n in w.ledger || n in saved)
  }

  /** The visit of the name itself keeps Luna's file, or leaves the name in the window. */
  lemma OwnThere(start: World, w: World, n: string, a: Answers, saved: map<string, Entry>, b: seq<Byte>)
    requires a.elsewhere.None? && KeptByBoth(w, saved, n, b)
    requires Same(start, w, n) || (Landed(start, w, n) && n !in start.remote)
    ensures var (w', ok) := Visit(start, w, n, a);
            KeptByBoth(w', saved, n, b) || (!ok && InWindow(w', saved, n) && ConflictAt(start, n))
  {
    hide ConflictArm, SetAsideArm, SendArm, FetchArm, EraseArm;
    match ArmOf(start, w, n)
    case Conflict => ConflictThere(start, w, n, a, saved, b);
    case Replace => SendThere(start, w, n, true, a, saved, b);
    case Send => SendThere(start, w, n, false, a, saved, b);
    case Fetch => FetchThere(start, w, n, a, saved, b);
    case _ =>
  }

  lemma ConflictThere(start: World, w: World, n: string, a: Answers, saved: map<string, Entry>, b: seq<Byte>)
    requires n in start.remote && KeptByBoth(w, saved, n, b) && Same(start, w, n) && ArmOf(start, w, n).Conflict?
    ensures ConflictAt(start, n)
    ensures var (w', ok) := ConflictArm(start, w, n, a);
            KeptByBoth(w', saved, n, b) || (!ok && InWindow(w', saved, n))
  {
    AsideFree(w, n);
    hide AsideName;
  }

  lemma SendThere(start: World, w: World, n: string, overwrite: bool, a: Answers, saved: map<string, Entry>,
                  b: seq<Byte>)
    requires n in start.local && KeptByBoth(w, saved, n, b) && Same(start, w, n)
    requires ArmOf(start, w, n).Replace? || ArmOf(start, w, n).Send?
    ensures KeptByBoth(SendArm(start, w, n, overwrite, a).0, saved, n, b)
  {
  }

  lemma FetchThere(start: World, w: World, n: string, a: Answers, saved: map<string, Entry>, b: seq<Byte>)
    requires n in start.remote && KeptByBoth(w, saved, n, b)
    ensures KeptByBoth(FetchArm(start, w, n, a).0, saved, n, b)
  {
  }

  lemma VisitThere(start: World, w: World, order: seq<string>, a: Answers, saved: map<string, Entry>, n: string,
                   b: seq<Byte>)
    requires Clear(start) && Along(start, w, order) && order != [] && a.elsewhere.None?
    requires KeptByBoth(w, saved, n, b)
    ensures var (w', ok) := Visit(start, w, order[0], a);
            KeptByBoth(w', saved, n, b) || (!ok && InWindow(w', saved, n) && ConflictAt(start, n))
  {
    var rel := order[0];
    assert rel in order;
    if n == rel {
      assert Same(start, w, rel) || (Landed(start, w, rel) && rel !in start.remote);
      hide Visit, Along, Clear;
      OwnThere(start, w, n, a, saved, b);
    } else {
      ElsewhereThere(start, w, order, a, n);
      SameThere(w, Visit(start, w, rel, a).0, saved, n, b);
      hide Visit, Same, Along, Clear;
    }
  }

  /** A name on Luna that is not visited stays as it is: no conflict copy lands there. */
  lemma ElsewhereThere(start: World, w: World, order: seq<string>, a: Answers, n: string)
    requires Clear(start) && Along(start, w, order) && order != [] && a.elsewhere.None?
    requires n != order[0] && n in w.remote
    ensures Same(w, Visit(start, w, order[0], a).0, n)
  {
    var rel := order[0];
    assert rel in order;
    VisitElsewhere(start, w, rel, a, n);
    LandsOnAside(start, w, rel, a, n);
    if ArmOf(start, w, rel).Conflict? {
      AsideNotOnLuna(start, w, order, rel);
    }
    hide Visit, ArmOf, AsideName, Along, Clear;
  }

  lemma SameThere(w: World, w': World, saved: map<string, Entry>, n: string, b: seq<Byte>)
    requires Same(w, w', n) && KeptByBoth(w, saved, n, b)
    ensures KeptByBoth(w', saved, n, b)
  {
  }

  lemma {:induction false} RunThere(start: World, w: World, order: seq<string>, ans: string -> Answers,
                                    saved: map<string, Entry>, n: string, b: seq<Byte>)
    requires Clear(start) && Along(start, w, order) && NoDup(order) && Alone(ans)
    requires KeptByBoth(w, saved, n, b)
    ensures var (w', ok) := Run(start, w, order, ans);
            KeptByBoth(w', saved, n, b) || (!ok && InWindow(w', saved, n) && ConflictAt(start, n))
    decreases |order|
  {
    if order != [] {
      var rel := order[0];
      var (w1, ok) := Visit(start, w, rel, ans(rel));
      assert ans(rel).elsewhere.None?;
      VisitThere(start, w, order, ans(rel), saved, n, b);
      if ok {
        AlongStep(start, w, order, ans(rel));
        NoDupTail(order);
        hide Visit, Clear, Along, NoDup, KeptByBoth, InWindow, ConflictAt;
        RunThere(start, w1, order[1..], ans, saved, n, b);
      }
    }
  }

  /** No attempt ends with the name in the window, and whenever the ledger file is found torn, a pass
      without a ledger would keep the file on Luna. */
  ghost predicate NoWindow(d: Device, events: seq<Event>, n: string, b: seq<Byte>)
    decreases |events|
  {
    events == []
    || (var next := After(d, events[0]);
        && (events[0].Attempt? ==> !InWindow(next.w, next.saved, n))
        && (events[0] == Restart(true) ==> KeptThere(d.w, map[], n, b))
        && NoWindow(next, events[1..], n, b))
  }

  lemma ThereStep(d: Device, e: Event, n: string, b: seq<Byte>)
    requires Undisturbed(d, e) && KeptByBoth(d.w, d.saved, n, b)
    requires e.Attempt? ==> !InWindow(After(d, e).w, After(d, e).saved, n)
    requires e == Restart(true) ==> KeptThere(d.w, map[], n, b)
    ensures KeptByBoth(After(d, e).w, After(d, e).saved, n, b)
  {
    match e
    case Attempt(order, ans, _) =>
      AlongAtStart(d.w, order);
      RunThere(d.w, d.w, order, ans, d.saved, n, b);
      hide Run, Clear, NoDup, Along, FullOrder;
    case Restart(_) =>
  }

  /** Only a file in conflict when the pass began can end in the window. */
  lemma WindowOnlyInConflict(d: Device, e: Event, n: string, b: seq<Byte>)
    requires e.Attempt? && Undisturbed(d, e) && KeptByBoth(d.w, d.saved, n, b)
    ensures InWindow(After(d, e).w, After(d, e).saved, n) ==> ConflictAt(d.w, n)
  {
    AlongAtStart(d.w, e.order);
    RunThere(d.w, d.w, e.order, e.ans, d.saved, n, b);
    hide Run, Clear, NoDup, Along, FullOrder;
  }

  /** The window is the only loss: over every other history of passes, failures, crashes and restarts
      Luna keeps every file a pass would have kept. */
  lemma {:induction false} LunaOutlivesCrashes(d: Device, events: seq<Event>, n: string, b: seq<Byte>)
    requires AllUndisturbed(d, events) && KeptByBoth(d.w, d.saved, n, b) && NoWindow(d, events, n, b)
    ensures var e := AfterAll(d, events);
            KeptByBoth(e.w, e.saved, n, b) && n in e.w.remote && e.w.remote[n].bytes == b
    decreases |events|
  {
    if events != [] {
      ThereStep(d, events[0], n, b);
      hide After, KeptByBoth, Undisturbed, InWindow;
      LunaOutlivesCrashes(After(d, events[0]), events[1..], n, b);
    }
  }

  /** What an undisturbed pass makes of a file on Luna: it stays exactly if the ledger keeps it. */
  lemma LunaKeptIff(w: World, order: seq<string>, ans: string -> Answers, n: string)
    requires Clear(w) && FullOrder(w, order) && n in w.remote && forall m :: Calm(ans(m))
    ensures var p := Pass(w, order, ans);
            n in p.remote && p.remote[n].bytes == w.remote[n].bytes <==> KeptThere(w, w.ledger, n, w.remote[n].bytes)
  {
    AlongAtStart(w, order);
    assert n in order;
    hide Run, Clear;
    var v := OwnVisitDecides(w, w, order, ans, n);
    CalmVisitThere(w, v, n, ans(n));
    hide Visit;
  }

  lemma CalmVisitThere(w: World, v: World, n: string, a: Answers)
    requires Calm(a) && Same(w, v, n) && n in w.remote
    ensures var p := Visit(w, v, n, a).0;
            n in p.remote && p.remote[n].bytes == w.remote[n].bytes <==> KeptThere(w, w.ledger, n, w.remote[n].bytes)
  {
    hide ConflictArm;
    if ArmOf(w, v, n).Conflict? {
      ConflictOwn(w, v, n, a);
    }
  }

  /** A name left in the window is lost: the next undisturbed pass deletes it on Luna as well. */
  lemma WindowLoses(d: Device, order: seq<string>, ans: string -> Answers, n: string)
    requires InWindow(d.w, d.saved, n) && n in d.saved
    requires var v := After(d, Restart(false)).w; Clear(v) && FullOrder(v, order) && forall m :: Calm(ans(m))
    ensures var p := Pass(After(d, Restart(false)).w, order, ans); n !in p.local && n !in p.remote
  {
    var v := After(d, Restart(false)).w;
    AlongAtStart(v, order);
    assert n in order;
    hide Run, Clear;
    var u := OwnVisitDecides(v, v, order, ans, n);
    ErasedVisit(v, u, n, ans(n));
    hide Visit;
  }

  lemma ErasedVisit(w: World, v: World, n: string, a: Answers)
    requires Calm(a) && Same(w, v, n) && n in w.remote && n !in w.local && n in w.ledger
    ensures var p := Visit(w, v, n, a).0; n !in p.local && n !in p.remote
  {
  }
}
