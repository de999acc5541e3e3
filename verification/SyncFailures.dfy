/** What a visit leaves when its calls fail, told by which sides have the name and by sizes and times. A visit that
    is refused half way leaves nothing the next pass would misread, apart from the window of `SyncCrash`. */
module SyncFailures {
  import opened Options
  import opened SyncConvergence
  import opened SyncModel
  import opened SyncOutcome
  import opened SyncSafety

  predicate ChangedHere(w: World, n: string)
    requires n in w.local && n in w.ledger
  {
    |w.local[n].bytes| != w.ledger[n].size || w.local[n].mtime != w.ledger[n].localMtime
  }

  predicate ChangedThere(w: World, n: string)
    requires n in w.remote && n in w.ledger
  {
    |w.remote[n].bytes| != w.ledger[n].size || w.remote[n].mtime != w.ledger[n].remoteMtime
  }

  /** One size, and times at most two seconds apart. */
  predicate Alike(l: File, r: File) {
    |l.bytes| == |r.bytes| && l.mtime <= r.mtime + 2 && r.mtime <= l.mtime + 2
  }

  /** The file here is to go to Luna. */
  predicate ToSend(w: World, n: string) {
    && n in w.local
    && if n !in w.remote then n !in w.ledger
       else if n in w.ledger then ChangedHere(w, n) && !ChangedThere(w, n)
       else !Alike(w.local[n], w.remote[n]) && w.remote[n].mtime <= w.local[n].mtime
  }

  /** The file on Luna is to come here. */
  predicate ToFetch(w: World, n: string) {
    && n in w.remote
    && if n !in w.local then n !in w.ledger
       else if n in w.ledger then ChangedThere(w, n) && !ChangedHere(w, n)
       else !Alike(w.local[n], w.remote[n]) && w.local[n].mtime < w.remote[n].mtime
  }

  /** Both sides have a version of their own. */
  predicate BothChanged(w: World, n: string) {
    n in w.local && n in w.remote && n in w.ledger && ChangedHere(w, n) && ChangedThere(w, n)
  }

  /** A name that is as it was listed, visited with nobody else at work. */
  predicate AsListed(w: World, v: World, n: string, a: Answers) {
    Same(w, v, n) && a.elsewhere.None?
  }

  /** An upload that fails leaves everything as it was. One whose answer is lost has changed Luna's file, and the
      ledger does not know it yet. */
  lemma SendMayFail(w: World, v: World, n: string, a: Answers)
    requires AsListed(w, v, n, a) && ToSend(w, n)
    ensures var (p, ok) := Visit(w, v, n, a);
            var l := w.local[n];
            && (ok <==> a.send.Done?)
            && match a.send
               case Done(t) => Has(p, n, Some(l), Some(File(l.bytes, t)), Some(Entry(|l.bytes|, l.mtime, l.mtime)))
               case Lost(t) => Has(p, n, Some(l), Some(File(l.bytes, t)), Lookup(w.ledger, n))
               case Failed => Has(p, n, Some(l), Lookup(w.remote, n), Lookup(w.ledger, n))
  {
    hide ConflictArm, SetAsideArm, EraseArm, FetchArm;
  }

  /** A download that fails leaves everything as it was. If the file cannot be looked at afterwards it is here, and
      the ledger does not know it yet. */
  lemma FetchMayFail(w: World, v: World, n: string, a: Answers)
    requires AsListed(w, v, n, a) && ToFetch(w, n)
    ensures var (p, ok) := Visit(w, v, n, a);
            var r := w.remote[n];
            && (ok <==> a.path && a.fetch && a.meta)
            && if !(a.path && a.fetch) then Has(p, n, Lookup(w.local, n), Some(r), Lookup(w.ledger, n))
               else if !a.meta then Has(p, n, Some(File(r.bytes, a.fetchTime)), Some(r), Lookup(w.ledger, n))
               else Has(p, n, Some(File(r.bytes, a.fetchTime)), Some(r), Some(Entry(|r.bytes|, a.fetchTime, r.mtime)))
  {
    hide ConflictArm, SetAsideArm, EraseArm, SendArm;
  }

  lemma VisitConflicts(w: World, v: World, n: string, a: Answers)
    requires AsListed(w, v, n, a) && BothChanged(w, n)
    ensures Visit(w, v, n, a) == ConflictArm(w, v, n, a)
    ensures n in v.local && v.local[n] == w.local[n] && n in v.remote && v.remote[n] == w.remote[n]
  {
    hide ConflictArm, SetAsideArm, EraseArm, SendArm, FetchArm;
  }

  lemma BothKept(w: World, v: World, n: string, a: Answers)
    requires n in v.local && n in w.remote && n in v.remote && v.remote[n] == w.remote[n]
    requires a.rename && a.path && a.fetch && AsideName(v, n) !in v.local
    ensures var ((p, ok), aside, r) := (ConflictArm(w, v, n, a), AsideName(v, n), w.remote[n]);
            && ok
            && Has(p, n, Some(File(r.bytes, a.fetchTime)), Some(r),
                   Some(Entry(|r.bytes|, if a.meta then a.fetchTime else r.mtime, r.mtime)))
            && aside in p.local && p.local[aside] == v.local[n]
            && (if aside in v.remote || a.send.Failed?
                then Lookup(p.remote, aside) == Lookup(v.remote, aside)
                else Lookup(p.remote, aside) == Some(File(v.local[n].bytes, a.send.mtime)))
  {
    hide AsideName;
  }

  /** In a conflict Luna's file stays what it is. The file here stays if it cannot be set aside, and comes back if
      the download fails and it can be moved back; otherwise it is at its conflict name. The ledger only
      changes once Luna's version is here. */
  lemma ConflictMayFail(w: World, v: World, n: string, a: Answers)
    requires AsListed(w, v, n, a) && BothChanged(w, n)
    ensures var (p, ok) := Visit(w, v, n, a);
            var (l, r, aside) := (w.local[n], w.remote[n], AsideName(v, n));
            && aside !in v.local && (ok <==> a.rename && a.path && a.fetch)
            && if !a.rename || (a.path && !a.fetch && a.restore) then p == v
               else if !(a.path && a.fetch)
               then Has(p, n, None, Some(r), Some(w.ledger[n])) && p.local == (v.local - {n})[aside := l]
               else
                 && Has(p, n, Some(File(r.bytes, a.fetchTime)), Some(r),
                        Some(Entry(|r.bytes|, if a.meta then a.fetchTime else r.mtime, r.mtime)))
                 && aside in p.local && p.local[aside] == l
                 && (if aside in v.remote || a.send.Failed?
                     then Lookup(p.remote, aside) == Lookup(v.remote, aside)
                     else Lookup(p.remote, aside) == Some(File(l.bytes, a.send.mtime)))
  {
    AsideFree(v, n);
    VisitConflicts(w, v, n, a);
    hide AsideName, Visit, BothChanged;
    if a.rename && a.path && a.fetch {
      BothKept(w, v, n, a);
      hide ConflictArm;
    }
  }

  /** A file deleted on Luna that cannot be moved to the trash stays, with its ledger entry, and the pass goes on. */
  lemma SetAsideMayFail(w: World, v: World, n: string, a: Answers)
    requires AsListed(w, v, n, a) && n in w.local && n !in w.remote && n in w.ledger
    ensures Visit(w, v, n, a).1
    ensures if a.rename then Has(Visit(w, v, n, a).0, n, None, None, None) else Visit(w, v, n, a).0 == v
  {
    hide ConflictArm, SendArm, FetchArm, EraseArm, TrashName;
  }

  /** A delete on Luna that fails leaves everything as it was; one whose answer is lost leaves the ledger entry. */
  lemma EraseMayFail(w: World, v: World, n: string, a: Answers)
    requires AsListed(w, v, n, a) && n !in w.local && n in w.remote && n in w.ledger
    ensures var (p, ok) := Visit(w, v, n, a);
            && (ok <==> a.erase.Done?)
            && match a.erase
               case Done(_) => Has(p, n, None, None, None)
               case Lost(_) => Has(p, n, None, None, Some(w.ledger[n]))
               case Failed => p == v
  {
    hide ConflictArm, SendArm, FetchArm, SetAsideArm;
  }

  /** Nothing has to be called for any other name: it is in step, known to be the same, or gone on both sides. */
  lemma NothingToFail(w: World, v: World, n: string, a: Answers)
    requires AsListed(w, v, n, a) && !ToSend(w, n) && !ToFetch(w, n) && !BothChanged(w, n)
    requires n in w.local <==> n in w.remote
    ensures var (p, ok) := Visit(w, v, n, a);
            && ok && p == v.(ledger := p.ledger)
            && Lookup(p.ledger, n) ==
                 if n !in w.local then None
                 else if n in w.ledger then Some(w.ledger[n])
                 else Some(Entry(|w.local[n].bytes|, w.local[n].mtime, w.remote[n].mtime))
  {
    hide ConflictArm, SendArm, FetchArm, SetAsideArm, EraseArm;
  }

  /** What other devices made of the Luna folder since the listing is what a visit finds there, and goes by the
      listing all the same. */
  lemma OthersHadTheirTurn(w: World, v: World, n: string, a: Answers, r: map<string, File>)
    requires a.elsewhere == Some(r)
    ensures Visit(w, v, n, a) == Visit(w, v.(remote := r), n, a.(elsewhere := None))
  {
    hide Decide, AsideName, TrashName;
  }
}
