/** Delayed deletes told from the outside: which steps give a blob a row, a reminder or bytes and which take
    them, who may be at work together, and what is left once a worker is done. */
module DeleteOutcomes {
  import opened DelayedDeletes
  import opened StorageRows

  /** Of the Luna that is purged, or of the whole account. */
  predicate Meant(x: Session, b: Spot)
    requires x.Purging?
  {
    b.account == x.spot.account && (x.whole || b.luna == x.spot.luna)
  }

  /** A purge that commits, with this blob in its scope. */
  predicate CommitsOver(s: State, t: Step, b: Spot) {
    t.CommitPurge? && t.id in s.sessions && s.sessions[t.id].Purging? && Meant(s.sessions[t.id], b)
  }

  predicate Deletes(t: Step, b: Spot) {
    t.Delete? && t.spot == b
  }

  /** This step of a session that is about this blob. */
  predicate About(s: State, t: Step, b: Spot) {
    !t.Delete? && t.id in s.sessions && s.sessions[t.id].spot == b
  }

  /** A blob gets its row when a request commits it, and loses it to a delete or a purge. */
  lemma RowsAfter(s: State, t: Step, b: Spot)
    requires Enabled(s, t)
    ensures b in Next(s, t).rows <==>
              || (t.CommitRow? && About(s, t, b))
              || (b in s.rows && !Deletes(t, b) && !CommitsOver(s, t, b))
  {
  }

  /** A reminder comes with a delete, with its date, and an earlier one keeps its own. It goes when a request
      drops it, when a worker finds the blob live or is done with it, and with a purge. */
  lemma RemindersAfter(s: State, t: Step, b: Spot)
    requires Enabled(s, t)
    ensures b in Next(s, t).reminders <==>
              || Deletes(t, b)
              || (b in s.reminders && !CommitsOver(s, t, b)
                  && !((t.CancelReminder? || t.DropLive? || t.Forget?) && About(s, t, b)))
    ensures b in s.reminders && b in Next(s, t).reminders ==> Next(s, t).reminders[b] == s.reminders[b]
    ensures b !in s.reminders && Deletes(t, b) ==> Next(s, t).reminders[b] == t.after
  {
  }

  /** Bytes come with a request, also one that is told of an error, and go when the store takes them for a
      worker or a purge. */
  lemma BytesAfter(s: State, t: Step, b: Spot)
    requires Enabled(s, t)
    ensures b in Next(s, t).blobs <==>
              || ((t.StoreBytes? || t.StoreBroken?) && About(s, t, b))
              || (b in s.blobs
                  && !(t.Erase? && t.reply.Gone? && About(s, t, b))
                  && !(t.PurgeBlob? && t.reply.Gone? && t.spot == b)
                  && !(t.PurgeBroken? && t.gone && t.spot == b))
  {
  }

  /** A live row counts as lost from the moment a purge takes its bytes until they are stored again or the row
      goes. */
  lemma LostAfter(s: State, t: Step, b: Spot)
    requires Safe(s) && Enabled(s, t)
    ensures b in Next(s, t).lost <==>
              || (b in s.rows && ((t.PurgeBlob? && t.reply.Gone?) || (t.PurgeBroken? && t.gone)) && t.spot == b)
              || (b in s.lost && !Deletes(t, b) && !CommitsOver(s, t, b)
                  && !((t.StoreBytes? || t.StoreBroken?) && About(s, t, b)))
  {
  }

  /** A session is moved by its own steps only, forward through its stages, until one of them ends it. */
  lemma SessionsAfter(s: State, t: Step, j: nat)
    requires Enabled(s, t)
    ensures t.Delete? || t.id != j ==>
              (j in s.sessions <==> j in Next(s, t).sessions)
              && (j in s.sessions ==> Next(s, t).sessions[j] == s.sessions[j])
    ensures !t.Delete? && t.id == j && j !in s.sessions && j in Next(s, t).sessions ==>
              var x := Next(s, t).sessions[j];
              x == Putting(t.spot) || x == Looking(t.spot) || (x.Purging? && x.spot == t.spot && x.passed == {})
    ensures !t.Delete? && t.id == j && j in s.sessions && j in Next(s, t).sessions ==>
              var (x, y) := (s.sessions[j], Next(s, t).sessions[j]);
              || (x == Putting(y.spot) && y.Settling?)
              || (x == Settling(y.spot) && y.Cancelling?)
              || (x == Looking(y.spot) && y.Doomed? && y.spot !in s.rows)
              || (x == Doomed(y.spot) && y.Erased?)
              || (x.Purging? && t.PurgeBlob? && y == Purging(x.spot, x.whole, x.listed, x.passed + {t.spot}))
    ensures !t.Delete? && t.id == j && j in s.sessions ==>
              (j !in Next(s, t).sessions <==>
                 || t.StoreBroken? || t.CancelReminder? || t.DropLive? || t.Forget? || t.Die?
                 || t.PurgeBroken? || t.CommitPurge?)
  {
  }

  /** Requests on an account share its lock, workers and purges have it to themselves, and a request that only has
      to drop a reminder is in nobody's way. */
  lemma LockRules(s: State, i: nat, b: Spot, whole: bool, after: int)
    ensures Enabled(s, BeginPut(i, b)) <==>
              && i !in s.sessions && (b.path.Pack? ==> b !in s.rows)
              && forall j :: j in s.sessions && s.sessions[j].spot.account == b.account ==>
                   s.sessions[j].Putting? || s.sessions[j].Settling? || s.sessions[j].Cancelling?
    ensures Enabled(s, Delete(b, after)) <==>
              && b in s.rows
              && forall j :: j in s.sessions && s.sessions[j].spot.account == b.account ==>
                   s.sessions[j].Putting? || s.sessions[j].Settling? || s.sessions[j].Cancelling?
    ensures Enabled(s, PickUp(i, b)) <==>
              && i !in s.sessions
              && forall j :: j in s.sessions && s.sessions[j].spot.account == b.account ==> s.sessions[j].Cancelling?
    ensures Enabled(s, BeginPurge(i, b, whole)) <==>
              && i !in s.sessions
              && forall j :: j in s.sessions && s.sessions[j].spot.account == b.account ==> s.sessions[j].Cancelling?
  {
  }

  /** A purge deletes only what it found in its scope, and commits once it has got past all of that. */
  lemma PurgeRules(s: State, i: nat, b: Spot, reply: EraseReply, flag: bool)
    ensures Enabled(s, PurgeBlob(i, b, reply)) <==>
              i in s.sessions && s.sessions[i].Purging? && b in s.sessions[i].listed && Meant(s.sessions[i], b)
    ensures Enabled(s, PurgeBroken(i, b, flag)) <==> Enabled(s, PurgeBlob(i, b, reply))
    ensures Enabled(s, CommitPurge(i)) <==>
              && i in s.sessions && s.sessions[i].Purging?
              && forall x :: x in s.sessions[i].listed ==> x in s.sessions[i].passed
    ensures i !in s.sessions && Enabled(s, BeginPurge(i, b, flag)) ==>
              var x := Next(s, BeginPurge(i, b, flag)).sessions[i];
              && x == Purging(b, flag, x.listed, {})
              && forall y :: y in x.listed <==>
                   (y in s.rows || y in s.reminders) && y.account == b.account && (flag || y.luna == b.luna)
  {
  }

  /** Nothing is stored under a blob a worker is done erasing. */
  predicate GoneFor(s: State, i: nat, b: Spot) {
    i in s.sessions && s.sessions[i] == Erased(b) && b !in s.blobs && b !in s.rows
  }

  lemma StaysGone(s: State, t: Step, i: nat, b: Spot)
    requires Safe(s) && Enabled(s, t) && GoneFor(s, i, b)
    ensures i in Next(s, t).sessions ==> GoneFor(Next(s, t), i, b)
    ensures t == Forget(i) ==> var e := Next(s, t); b !in e.blobs && b !in e.rows && b !in e.reminders
  {
    AloneAtWork(s, i);
  }

  /** Not this session's last step, and no crash of it. */
  predicate Spares(run: seq<Step>, i: nat) {
    forall t :: t in run ==> t != Forget(i) && t != Die(i)
  }

  /** When a worker forgets a blob the store said was gone, it is gone for good: whatever the clients, the other
      workers and the purges did in between, it has no bytes, no row and no reminder. */
  lemma {:induction false} ErasedForGood(s: State, run: seq<Step>, i: nat, b: Spot)
    requires Safe(s) && GoneFor(s, i, b) && Spares(run, i) && Possible(s, run)
    requires Enabled(End(s, run), Forget(i))
    ensures var e := Next(End(s, run), Forget(i)); b !in e.blobs && b !in e.rows && b !in e.reminders
    decreases |run|
  {
    if run == [] {
      StaysGone(s, Forget(i), i, b);
    } else {
      assert run[0] in run;
      SafeStep(s, run[0]);
      StaysGone(s, run[0], i, b);
      StillThere(s, run[0], i);
      SparesRest(run, i);
      hide Next, Safe, GoneFor, Spares;
      ErasedForGood(Next(s, run[0]), run[1..], i, b);
    }
  }

  lemma SparesRest(run: seq<Step>, i: nat)
    requires run != [] && Spares(run, i)
    ensures Spares(run[1..], i)
  {
    assert forall t :: t in run[1..] ==> t in run;
  }

  lemma StillThere(s: State, t: Step, i: nat)
    requires Enabled(s, t) && i in s.sessions && s.sessions[i].Erased? && t != Forget(i) && t != Die(i)
    ensures i in Next(s, t).sessions
  {
  }
}
