/** The outcome of an undisturbed pass does not depend on the order in which the names are
    visited: it is what each name's own visit makes of the state at the start. */
module SyncOrder {
  import opened Names
  import opened Options
  import opened SyncModel
  import opened SyncSafety
  import opened SyncConvergence

  /** Everything the pass keeps about one name. */
  datatype Row = Row(local: Option<File>, remote: Option<File>, entry: Option<Entry>)

  function RowOf(w: World, m: string): Row {
    Row(Lookup(w.local, m), Lookup(w.remote, m), Lookup(w.ledger, m))
  }

  predicate InConflict(start: World, rel: string) {
    ArmOf(start, start, rel).Conflict?
  }

  predicate Lands(start: World, rel: string, m: string) {
    InConflict(start, rel) && AsideName(start, rel) == m
  }

  predicate Trashed(start: World, rel: string) {
    ArmOf(start, start, rel).SetAside?
  }

  function TrashPath(ans: string -> Answers, rel: string): string {
    Decimal(ans(rel).stamp) + "/" + rel
  }

  /** Settled by looking at the start only: no conflict name of a conflicted file is on Luna
      without being here or about to leave for the trash, and the trash paths are unused. */
  ghost predicate Tidy(start: World, ans: string -> Answers) {
    && (forall rel, k :: InConflict(start, rel) && 1 <= k ==> Steady(start, Sibling(ConflictName(rel), k)))
    && (forall rel :: Trashed(start, rel) ==> TrashPath(ans, rel) !in start.trash)
  }

  predicate Steady(start: World, c: string) {
    (c in start.remote ==> c in start.local) && !Trashed(start, c)
  }

  /** The conflict copy of `rel`, uploaded, and not yet in the ledger. */
  function LandedRow(start: World, rel: string, a: Answers): Row
    requires InConflict(start, rel)
  {
    var f := start.local[rel];
    Row(Some(f), Some(File(f.bytes, a.send.Time())), None)
  }

  function VisitedRow(start: World, rel: string, a: Answers): Row {
    RowOf(Visit(start, start, rel, a).0, rel)
  }

  /** What the pass makes of a name: the copy that lands there, or what its own visit makes
      of the start. */
  ghost function Final(start: World, ans: string -> Answers, m: string): Row {
    if rel :| Lands(start, rel, m) then LandedRow(start, rel, ans(rel))
    else VisitedRow(start, m, ans(m))
  }

  lemma LandsOnce(start: World, r: string, s: string, m: string, k: nat)
    requires Lands(start, r, m)
    requires Lands(start, s, m) || (1 <= k && m == Sibling(ConflictName(s), k))
    ensures r == s
  {
    LandsAt(start, r, m);
    var i :| 1 <= i && m == Sibling(ConflictName(r), i);
    if Lands(start, s, m) {
      LandsAt(start, s, m);
      var j :| 1 <= j && m == Sibling(ConflictName(s), j);
      hide *;
      ConflictNamesApart(r, s, i, j);
    } else {
      hide *;
      ConflictNamesApart(r, s, i, k);
    }
  }

  lemma LandsAt(start: World, rel: string, m: string)
    requires Lands(start, rel, m)
    ensures m !in start.local && m !in start.folders
    ensures exists k :: 1 <= k && m == Sibling(ConflictName(rel), k)
  {
    AsideFree(start, rel);
    FreeSiblingIs(Taken(start), ConflictName(rel));
    hide ConflictName, Sibling, FreeSibling, InConflict;
  }

  lemma LandsWhere(start: World, ans: string -> Answers, rel: string, m: string)
    requires Tidy(start, ans) && Lands(start, rel, m)
    ensures m !in start.local && m !in start.remote && m !in start.folders && m != rel
    ensures rel in start.local && rel in start.remote && rel in start.ledger
    ensures exists k :: 1 <= k && m == Sibling(ConflictName(rel), k)
  {
    LandsAt(start, rel, m);
    hide ConflictName, Sibling, AsideName;
  }

  /** Halfway through: visited names are final, others as at the start; a landing place fills
      when its conflict is visited, and forgets a stale ledger entry when visited itself. */
  ghost predicate Half(start: World, w: World, order: seq<string>, ans: string -> Answers, m: string) {
    if exists rel :: Lands(start, rel, m) then
      forall rel :: Lands(start, rel, m) ==> RowOf(w, m) == LandingRow(start, order, ans, rel, m)
    else
      RowOf(w, m) == if m in order then RowOf(start, m) else VisitedRow(start, m, ans(m))
  }

  function LandingRow(start: World, order: seq<string>, ans: string -> Answers, rel: string, m: string): Row
    requires InConflict(start, rel)
  {
    var row := if rel in order then Row(None, None, None) else LandedRow(start, rel, ans(rel));
    row.(entry := if m in order then Lookup(start.ledger, m) else None)
  }

  ghost predicate Halfway(start: World, w: World, order: seq<string>, ans: string -> Answers) {
    w.folders == start.folders && forall m :: Half(start, w, order, ans, m)
  }

  /** A conflict that has yet to be visited will land where it would have landed at first. */
  lemma LandingSteady(start: World, w: World, order: seq<string>, ans: string -> Answers, rel: string)
    requires Tidy(start, ans) && Halfway(start, w, order, ans) && forall n :: Calm(ans(n))
    requires InConflict(start, rel) && rel in order
    ensures AsideName(w, rel) == AsideName(start, rel)
  {
    forall k | 1 <= k
      ensures Sibling(ConflictName(rel), k) in Taken(w) <==> Sibling(ConflictName(rel), k) in Taken(start)
    {
      CandidateSteady(start, w, order, ans, rel, k);
    }
    FreeSiblingAgrees(Taken(w), Taken(start), ConflictName(rel));
  }

  lemma CandidateSteady(start: World, w: World, order: seq<string>, ans: string -> Answers, rel: string, k: nat)
    requires Tidy(start, ans) && Halfway(start, w, order, ans) && forall n :: Calm(ans(n))
    requires InConflict(start, rel) && rel in order && 1 <= k
    ensures Sibling(ConflictName(rel), k) in w.local <==> Sibling(ConflictName(rel), k) in start.local
  {
    var c := Sibling(ConflictName(rel), k);
    hide AsideName, ConflictName, Sibling, Visit;
    assert Steady(start, c) && Half(start, w, order, ans, c);
    if r :| Lands(start, r, c) {
      LandsOnce(start, r, rel, c, k);
      LandsWhere(start, ans, rel, c);
      assert RowOf(w, c) == LandingRow(start, order, ans, rel, c);
    } else {
      SteadyVisit(start, c, ans(c));
    }
  }

  lemma SteadyVisit(start: World, c: string, a: Answers)
    requires Steady(start, c) && Calm(a)
    ensures c in Visit(start, start, c, a).0.local <==> c in start.local
  {
    hide AsideName;
  }

  /** The visit of `rel` halfway: its own row becomes final, the conflict copy lands, and every
      other row stays. */
  lemma VisitRows(start: World, w: World, rel: string, a: Answers, c: string)
    requires Calm(a) && RowOf(w, rel) == RowOf(start, rel)
    requires c == AsideName(w, rel)
    requires InConflict(start, rel) ==> c !in w.remote
    ensures Visit(start, w, rel, a).1
    ensures RowOf(Visit(start, w, rel, a).0, rel) == VisitedRow(start, rel, a)
    ensures InConflict(start, rel) ==>
              RowOf(Visit(start, w, rel, a).0, c) == LandedRow(start, rel, a).(entry := Lookup(w.ledger, c))
    ensures forall m :: m != rel && !(InConflict(start, rel) && m == c) ==>
              RowOf(Visit(start, w, rel, a).0, m) == RowOf(w, m)
  {
    if InConflict(start, rel) {
      ConflictVisit(start, w, rel, a);
      ConflictVisit(start, start, rel, a);
    } else {
      QuietVisit(start, w, rel, a);
    }
    hide *;
  }

  lemma QuietVisit(start: World, w: World, rel: string, a: Answers)
    requires Calm(a) && RowOf(w, rel) == RowOf(start, rel) && !InConflict(start, rel)
    ensures Visit(start, w, rel, a).1
    ensures RowOf(Visit(start, w, rel, a).0, rel) == VisitedRow(start, rel, a)
    ensures forall m :: m != rel ==> RowOf(Visit(start, w, rel, a).0, m) == RowOf(w, m)
  {
    VisitOwn(start, w, rel, a);
    OtherNames(start, w, rel, a);
    hide Visit, ArmOf, AsideName;
    forall m | m != rel
      ensures RowOf(Visit(start, w, rel, a).0, m) == RowOf(w, m)
    {
      assert Same(w, Visit(start, w, rel, a).0, m);
    }
  }

  lemma ConflictVisit(start: World, w: World, rel: string, a: Answers)
    requires Calm(a) && RowOf(w, rel) == RowOf(start, rel) && InConflict(start, rel)
    ensures rel in start.local && rel in start.remote
    ensures Visit(start, w, rel, a).1
    ensures RowOf(Visit(start, w, rel, a).0, rel) == ResolvedRow(start, rel, a)
    ensures AsideName(w, rel) !in w.remote ==>
              RowOf(Visit(start, w, rel, a).0, AsideName(w, rel))
              == LandedRow(start, rel, a).(entry := Lookup(w.ledger, AsideName(w, rel)))
    ensures forall m :: m != rel && m != AsideName(w, rel) ==> RowOf(Visit(start, w, rel, a).0, m) == RowOf(w, m)
  {
    assert Visit(start, w, rel, a) == ConflictArm(start, w, rel, a);
    ConflictRows(start, w, rel, a);
    hide ConflictArm, AsideName, Visit;
  }

  /** Luna's version under its own name, exactly as the ledger says. */
  function ResolvedRow(start: World, rel: string, a: Answers): Row
    requires rel in start.remote
  {
    var r := start.remote[rel];
    Row(Some(File(r.bytes, a.fetchTime)), Some(r), Some(Entry(|r.bytes|, a.fetchTime, r.mtime)))
  }

  lemma ConflictRows(start: World, w: World, rel: string, a: Answers)
    requires Calm(a) && rel in w.local && rel in w.remote && rel in start.remote && w.remote[rel] == start.remote[rel]
    ensures ConflictArm(start, w, rel, a).1
    ensures var w', c := ConflictArm(start, w, rel, a).0, AsideName(w, rel);
            && RowOf(w', rel) == ResolvedRow(start, rel, a)
            && (c !in w.remote ==>
                  RowOf(w', c) == Row(Some(w.local[rel]), Some(File(w.local[rel].bytes, a.send.Time())),
                      Lookup(w.ledger, c)))
            && (forall m :: m != rel && m != c ==> RowOf(w', m) == RowOf(w, m))
  {
    AsideFree(w, rel);
    hide AsideName;
  }

  /** A name nothing was listed under only loses its ledger entry. */
  lemma UnlistedVisit(start: World, w: World, rel: string, a: Answers)
    requires Calm(a) && rel !in start.local && rel !in start.remote
    ensures Visit(start, w, rel, a).1
    ensures RowOf(Visit(start, w, rel, a).0, rel) == RowOf(w, rel).(entry := None)
    ensures forall m :: m != rel ==> RowOf(Visit(start, w, rel, a).0, m) == RowOf(w, m)
    ensures !InConflict(start, rel)
  {
    hide ConflictArm, SendArm, SetAsideArm, EraseArm;
  }

  /** A row the visit does not touch stays halfway. */
  lemma RowKept(start: World, w: World, w': World, order: seq<string>, ans: string -> Answers, m: string)
    requires Half(start, w, order, ans, m) && NoDup(order) && order != []
    requires RowOf(w', m) == RowOf(w, m) && m != order[0] && !Lands(start, order[0], m)
    ensures Half(start, w', order[1..], ans, m)
  {
    NoDupTail(order);
    var rel, rest := order[0], order[1..];
    assert forall n :: n != rel ==> (n in order <==> n in rest);
    hide Lands, LandingRow, VisitedRow, RowOf, NoDup, InConflict;
    if exists r :: Lands(start, r, m) {
      forall r | Lands(start, r, m)
        ensures RowOf(w', m) == LandingRow(start, rest, ans, r, m)
      {
        assert r != rel;
        LandingRowKept(start, order, rest, ans, r, m);
      }
    }
  }

  lemma LandingRowKept(start: World, o1: seq<string>, o2: seq<string>, ans: string -> Answers, r: string, m: string)
    requires Lands(start, r, m) && (r in o1 <==> r in o2) && (m in o1 <==> m in o2)
    ensures LandingRow(start, o1, ans, r, m) == LandingRow(start, o2, ans, r, m)
  {
  }

  lemma LandingPlaceStep(start: World, w: World, order: seq<string>, ans: string -> Answers, m: string)
    requires Tidy(start, ans) && Half(start, w, order, ans, m) && NoDup(order) && order != []
    requires Calm(ans(order[0])) && exists r :: Lands(start, r, order[0])
    ensures Visit(start, w, order[0], ans(order[0])).1
    ensures Half(start, Visit(start, w, order[0], ans(order[0])).0, order[1..], ans, m)
  {
    var rel := order[0];
    var r :| Lands(start, r, rel);
    LandsWhere(start, ans, r, rel);
    UnlistedVisit(start, w, rel, ans(rel));
    var w' := Visit(start, w, rel, ans(rel)).0;
    hide Visit, AsideName, VisitedRow, Tidy, LandedRow, Half, Lands, InConflict;
    if m == rel {
      LandingPlaceRow(start, w, w', order, ans);
    } else {
      NotFromHere(start, rel, m);
      RowKept(start, w, w', order, ans, m);
    }
  }

  lemma NotFromHere(start: World, rel: string, m: string)
    requires !InConflict(start, rel)
    ensures !Lands(start, rel, m)
  {
  }

  lemma LandingPlaceRow(start: World, w: World, w': World, order: seq<string>, ans: string -> Answers)
    requires NoDup(order) && order != [] && Half(start, w, order, ans, order[0])
    requires exists r :: Lands(start, r, order[0])
    requires !InConflict(start, order[0])
    requires RowOf(w', order[0]) == RowOf(w, order[0]).(entry := None)
    ensures Half(start, w', order[1..], ans, order[0])
  {
    NoDupTail(order);
    hide Visit, AsideName, RowOf, InConflict, NoDup, VisitedRow, LandedRow;
    var rel := order[0];
    forall r | Lands(start, r, rel)
      ensures RowOf(w', rel) == LandingRow(start, order[1..], ans, r, rel)
    {
      assert RowOf(w, rel) == LandingRow(start, order, ans, r, rel);
    }
  }

  lemma OwnPlaceStep(start: World, w: World, order: seq<string>, ans: string -> Answers, m: string)
    requires Tidy(start, ans) && Halfway(start, w, order, ans) && NoDup(order) && order != []
    requires forall n :: Calm(ans(n))
    requires !exists r :: Lands(start, r, order[0])
    ensures Visit(start, w, order[0], ans(order[0])).1
    ensures Half(start, Visit(start, w, order[0], ans(order[0])).0, order[1..], ans, m)
  {
    var rel := order[0];
    var a, c := ans(rel), AsideName(w, rel);
    assert Half(start, w, order, ans, rel) && Half(start, w, order, ans, m) && rel in order;
    if InConflict(start, rel) {
      LandingSteady(start, w, order, ans, rel);
      LandingEmpty(start, w, order, ans, rel, c);
    }
    hide AsideName, Tidy, Visit;
    VisitRows(start, w, rel, a, c);
    var w' := Visit(start, w, rel, a).0;
    if m == rel {
      OwnRow(start, w', order, ans);
    } else if Lands(start, rel, m) {
      LandedPlaceRow(start, w, w', order, ans, m);
    } else {
      RowKept(start, w, w', order, ans, m);
    }
  }

  lemma LandingEmpty(start: World, w: World, order: seq<string>, ans: string -> Answers, rel: string, c: string)
    requires Halfway(start, w, order, ans) && Lands(start, rel, c) && rel in order
    ensures c !in w.remote
  {
    assert Half(start, w, order, ans, c);
    assert RowOf(w, c) == LandingRow(start, order, ans, rel, c);
    hide AsideName, InConflict;
  }

  lemma OwnRow(start: World, w': World, order: seq<string>, ans: string -> Answers)
    requires NoDup(order) && order != []
    requires !exists r :: Lands(start, r, order[0])
    requires RowOf(w', order[0]) == VisitedRow(start, order[0], ans(order[0]))
    ensures Half(start, w', order[1..], ans, order[0])
  {
    NoDupTail(order);
    hide Visit, AsideName, RowOf, NoDup, VisitedRow;
  }

  lemma LandedPlaceRow(start: World, w: World, w': World, order: seq<string>, ans: string -> Answers, m: string)
    requires Half(start, w, order, ans, m) && NoDup(order) && order != []
    requires Lands(start, order[0], m) && m != order[0]
    requires RowOf(w', m) == LandedRow(start, order[0], ans(order[0])).(entry := Lookup(w.ledger, m))
    ensures Half(start, w', order[1..], ans, m)
  {
    NoDupTail(order);
    var rel := order[0];
    forall r | Lands(start, r, m)
      ensures RowOf(w', m) == LandingRow(start, order[1..], ans, r, m)
    {
      LandsOnce(start, r, rel, m, 0);
      assert RowOf(w, m) == LandingRow(start, order, ans, r, m);
      hide Visit, AsideName, InConflict, NoDup, VisitedRow;
    }
  }

  lemma FirstSlash(a: string, p: string)
    requires forall i :: 0 <= i < |a| ==> a[i] != '/'
    ensures (a + "/" + p)[|a|] == '/' && (a + "/" + p)[|a| + 1..] == p
    ensures forall i :: 0 <= i < |a| ==> (a + "/" + p)[i] != '/'
  {
  }

  /** Two files never share a place in the trash, whatever seconds they go there at. */
  lemma TrashPathsApart(s: nat, p: string, t: nat, q: string)
    ensures Decimal(s) + "/" + p == Decimal(t) + "/" + q ==> p == q
  {
    DecimalDigits(s);
    DecimalDigits(t);
    FirstSlash(Decimal(s), p);
    FirstSlash(Decimal(t), q);
    hide *;
  }

  predicate TrashedTo(start: World, ans: string -> Answers, rel: string, t: string) {
    Trashed(start, rel) && TrashPath(ans, rel) == t
  }

  /** Halfway through: the trash holds what it held, and the files whose turn has come. */
  ghost predicate TrashHalf(start: World, w: World, order: seq<string>, ans: string -> Answers) {
    forall t :: Lookup(w.trash, t) == TrashSlot(start, order, ans, t)
  }

  ghost function TrashSlot(start: World, order: seq<string>, ans: string -> Answers, t: string): Option<File> {
    if rel :| TrashedTo(start, ans, rel, t) && rel !in order then Some(start.local[rel])
    else Lookup(start.trash, t)
  }

  lemma TrashSlotIs(start: World, order: seq<string>, ans: string -> Answers, rel: string, t: string)
    requires TrashedTo(start, ans, rel, t)
    ensures rel !in order ==> TrashSlot(start, order, ans, t) == Some(start.local[rel])
    ensures rel in order ==> TrashSlot(start, order, ans, t) == Lookup(start.trash, t)
  {
    forall s | TrashedTo(start, ans, s, t)
      ensures s == rel
    {
      TrashPathsApart(ans(s).stamp, s, ans(rel).stamp, rel);
    }
  }

  lemma TrashMove(start: World, w: World, order: seq<string>, ans: string -> Answers)
    requires Tidy(start, ans) && TrashHalf(start, w, order, ans) && order != [] && NoDup(order)
    requires Calm(ans(order[0])) && Trashed(start, order[0])
    requires RowOf(w, order[0]) == RowOf(start, order[0])
    ensures TrashHalf(start, Visit(start, w, order[0], ans(order[0])).0, order[1..], ans)
  {
    var rel := order[0];
    var t := TrashPath(ans, rel);
    NoDupTail(order);
    TrashSlotIs(start, order, ans, rel, t);
    assert Lookup(w.trash, t) == TrashSlot(start, order, ans, t);
    SetAsideTrash(start, w, rel, ans(rel));
    var w' := Visit(start, w, rel, ans(rel)).0;
    hide Visit, Tidy, Trashed, NoDup;
    forall u
      ensures Lookup(w'.trash, u) == TrashSlot(start, order[1..], ans, u)
    {
      if u == t {
        TrashSlotIs(start, order[1..], ans, rel, t);
      } else {
        TrashSlotKept(start, order, ans, u);
      }
    }
  }

  lemma TrashSlotKept(start: World, order: seq<string>, ans: string -> Answers, u: string)
    requires order != [] && !TrashedTo(start, ans, order[0], u)
    ensures TrashSlot(start, order[1..], ans, u) == TrashSlot(start, order, ans, u)
  {
    assert forall n :: n != order[0] ==> (n in order <==> n in order[1..]);
    if rel :| TrashedTo(start, ans, rel, u) {
      TrashSlotIs(start, order, ans, rel, u);
      TrashSlotIs(start, order[1..], ans, rel, u);
    }
  }

  lemma SetAsideTrash(start: World, w: World, rel: string, a: Answers)
    requires Calm(a) && Trashed(start, rel) && RowOf(w, rel) == RowOf(start, rel)
    requires Decimal(a.stamp) + "/" + rel !in w.trash
    ensures Visit(start, w, rel, a).0.trash == w.trash[Decimal(a.stamp) + "/" + rel := start.local[rel]]
  {
    assert TrashName(w, rel, a.stamp) == Decimal(a.stamp) + "/" + rel;
    hide TrashName, ConflictArm, SendArm;
  }

  lemma TrashLeft(start: World, w: World, rel: string, a: Answers)
    requires Calm(a) && !Trashed(start, rel)
    requires rel !in start.local || RowOf(w, rel) == RowOf(start, rel)
    ensures Visit(start, w, rel, a).0.trash == w.trash
  {
    hide AsideName;
  }

  lemma TrashStep(start: World, w: World, order: seq<string>, ans: string -> Answers)
    requires Tidy(start, ans) && TrashHalf(start, w, order, ans) && NoDup(order) && order != []
    requires Calm(ans(order[0])) && Half(start, w, order, ans, order[0])
    ensures TrashHalf(start, Visit(start, w, order[0], ans(order[0])).0, order[1..], ans)
  {
    var rel := order[0];
    if r :| Lands(start, r, rel) {
      LandsWhere(start, ans, r, rel);
    }
    hide Visit, AsideName, Tidy, NoDup;
    if Trashed(start, rel) {
      TrashMove(start, w, order, ans);
    } else {
      TrashLeft(start, w, rel, ans(rel));
      TrashUnmoved(start, w, Visit(start, w, rel, ans(rel)).0, order, ans);
    }
  }

  lemma TrashUnmoved(start: World, w: World, w': World, order: seq<string>, ans: string -> Answers)
    requires TrashHalf(start, w, order, ans) && order != [] && !Trashed(start, order[0]) && w'.trash == w.trash
    ensures TrashHalf(start, w', order[1..], ans)
  {
    forall t
      ensures Lookup(w'.trash, t) == TrashSlot(start, order[1..], ans, t)
    {
      assert !TrashedTo(start, ans, order[0], t);
      hide Trashed;
      TrashSlotKept(start, order, ans, t);
    }
  }

  lemma {:induction false} RunIsFinal(start: World, w: World, order: seq<string>, ans: string -> Answers)
    requires Tidy(start, ans) && NoDup(order) && forall n :: Calm(ans(n))
    requires Halfway(start, w, order, ans) && TrashHalf(start, w, order, ans)
    ensures Run(start, w, order, ans).1
    ensures Halfway(start, Run(start, w, order, ans).0, [], ans)
    ensures TrashHalf(start, Run(start, w, order, ans).0, [], ans)
    decreases |order|
  {
    if order != [] {
      var rel := order[0];
      var w' := Visit(start, w, rel, ans(rel)).0;
      NoDupTail(order);
      VisitFrame(start, w, rel, ans(rel));
      hide Visit, AsideName, Half, Tidy, NoDup, TrashHalf;
      assert Half(start, w, order, ans, rel);
      TrashStep(start, w, order, ans);
      forall m
        ensures Visit(start, w, rel, ans(rel)).1 && Half(start, w', order[1..], ans, m)
      {
        assert Half(start, w, order, ans, m);
        if exists r :: Lands(start, r, rel) {
          LandingPlaceStep(start, w, order, ans, m);
        } else {
          OwnPlaceStep(start, w, order, ans, m);
        }
      }
      assert Half(start, w', order[1..], ans, rel);
      RunIsFinal(start, w', order[1..], ans);
    }
  }

  lemma BeginHalfway(w: World, order: seq<string>, ans: string -> Answers)
    requires Tidy(w, ans) && FullOrder(w, order) && forall n :: Calm(ans(n))
    ensures Halfway(w, w, order, ans) && TrashHalf(w, w, order, ans)
  {
    forall m
      ensures Half(w, w, order, ans, m)
    {
      forall r | Lands(w, r, m)
        ensures RowOf(w, m) == LandingRow(w, order, ans, r, m)
      {
        LandsWhere(w, ans, r, m);
        hide AsideName, InConflict;
      }
      if m !in order {
        assert VisitedRow(w, m, ans(m)) == RowOf(w, m);
      }
    }
    forall t
      ensures Lookup(w.trash, t) == TrashSlot(w, order, ans, t)
    {
      if rel :| TrashedTo(w, ans, rel, t) {
        TrashSlotIs(w, order, ans, rel, t);
      }
    }
  }

  /** A full undisturbed pass, told without order: every name's row is final, the trash gains
      exactly the files due to go there, folders stay. */
  lemma PassAllAtOnce(w: World, order: seq<string>, ans: string -> Answers)
    requires Tidy(w, ans) && FullOrder(w, order) && forall n :: Calm(ans(n))
    ensures Run(w, w, order, ans).1 && Pass(w, order, ans).folders == w.folders
    ensures forall m :: RowOf(Pass(w, order, ans), m) == Final(w, ans, m)
    ensures forall t :: Lookup(Pass(w, order, ans).trash, t) == TrashSlot(w, [], ans, t)
  {
    BeginHalfway(w, order, ans);
    RunIsFinal(w, w, order, ans);
    var w' := Pass(w, order, ans);
    hide Pass, Run, AsideName, Tidy, FullOrder, VisitedRow, LandedRow;
    forall m
      ensures RowOf(w', m) == Final(w, ans, m)
    {
      assert Half(w, w', [], ans, m);
      if r :| Lands(w, r, m) {
        assert RowOf(w', m) == LandingRow(w, [], ans, r, m);
      }
    }
  }

  lemma RowsDecide(v: World, w: World)
    requires forall m :: RowOf(v, m) == RowOf(w, m)
    requires forall t :: Lookup(v.trash, t) == Lookup(w.trash, t)
    requires v.folders == w.folders
    ensures v == w
  {
    forall m
      ensures Lookup(v.local, m) == Lookup(w.local, m)
      ensures Lookup(v.remote, m) == Lookup(w.remote, m)
      ensures Lookup(v.ledger, m) == Lookup(w.ledger, m)
    {
      assert RowOf(v, m) == RowOf(w, m);
    }
    SameMap(v.local, w.local);
    SameMap(v.remote, w.remote);
    SameMap(v.ledger, w.ledger);
    SameMap(v.trash, w.trash);
  }

  lemma SameMap<T>(a: map<string, T>, b: map<string, T>)
    requires forall m :: Lookup(a, m) == Lookup(b, m)
    ensures a == b
  {
    forall m
      ensures m in a <==> m in b
      ensures m in a ==> a[m] == b[m]
    {
      assert Lookup(a, m) == Lookup(b, m);
    }
  }

  /** Two undisturbed passes over the same names in different orders end in the same state. */
  lemma OrderDoesNotMatter(w: World, o1: seq<string>, o2: seq<string>, ans: string -> Answers)
    requires Tidy(w, ans) && FullOrder(w, o1) && FullOrder(w, o2) && forall n :: Calm(ans(n))
    ensures Pass(w, o1, ans) == Pass(w, o2, ans)
  {
    PassAllAtOnce(w, o1, ans);
    PassAllAtOnce(w, o2, ans);
    hide *;
    RowsDecide(Pass(w, o1, ans), Pass(w, o2, ans));
  }
}
