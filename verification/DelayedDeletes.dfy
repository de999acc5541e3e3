/** Delayed deletes: clients store and delete blobs while a worker removes the bytes of blobs
    whose grace period is over, and purges remove accounts and Lunas. Every step of every session
    is one step here, in any interleaving the account lock allows, and any session can die at any
    point. */
module DelayedDeletes {
  import opened StorageRows

  /** One transaction or request in flight. A session up to `Settling` holds the account's
      write lock, which clients share; a worker or a purge holds it alone. */
  datatype Session =
    | Putting(spot: Spot)    // lock held, bytes not yet stored
    | Settling(spot: Spot)   // bytes stored, row not yet committed
    | Cancelling(spot: Spot) // row committed, lock gone, reminder still to be dropped
    | Looking(spot: Spot)    // worker: lock held, not yet checked for a live row
    | Doomed(spot: Spot)     // worker: no live row
    | Erased(spot: Spot)     // worker: the store has answered, reminder still to be dropped
    | Purging(spot: Spot, whole: bool, listed: set<Spot>, passed: set<Spot>)
        // purge of the spot's Luna, or of its whole account: what it found, and what it got past

  /** `reminders` are the pending delete rows with their `delete_after`; `lost` are the live rows whose
      bytes a purge took, since a purge deletes blobs before its commit takes the rows. */
  datatype State = State(
    rows: set<Spot>,
    reminders: map<Spot, int>,
    blobs: set<Spot>,
    lost: set<Spot>,
    sessions: map<nat, Session>)

  /** What the store made of the worker's delete. `Skipped`: a local blob without a backend. */
  datatype EraseReply = Gone | Skipped

  datatype Step =
    | BeginPut(id: nat, spot: Spot)
    | StoreBytes(id: nat)
    | StoreBroken(id: nat)            // stored, but reported as an error: the request ends
    | CommitRow(id: nat)
    | CancelReminder(id: nat)
    | Delete(spot: Spot, after: int)  // row out, reminder in, in one transaction
    | PickUp(id: nat, spot: Spot)     // from a list read earlier, possibly out of date
    | DropLive(id: nat)               // stored again since: only the reminder goes
    | Doom(id: nat)
    | Erase(id: nat, reply: EraseReply)
    | Forget(id: nat)
    | BeginPurge(id: nat, spot: Spot, whole: bool)
    | PurgeBlob(id: nat, spot: Spot, reply: EraseReply)
    | PurgeBroken(id: nat, spot: Spot, gone: bool) // the store reports an error: the purge rolls back
    | CommitPurge(id: nat)            // rows and reminders in scope out
    | Die(id: nat)                    // crash, error or lost connection

  predicate Worker(x: Session) {
    x.Looking? || x.Doomed? || x.Erased? || x.Purging?
  }

  predicate InScope(x: Session, b: Spot) {
    b.account == x.spot.account && ((x.Purging? && x.whole) || b.luna == x.spot.luna)
  }

  /** What a purge finds: the rows and reminders in its scope. */
  function Found(s: State, x: Session): set<Spot> {
    set b | b in s.rows + s.reminders.Keys && InScope(x, b)
  }

  predicate Locks(x: Session) {
    !x.Cancelling?
  }

  /** May a client take the account's write lock? */
  predicate Shareable(s: State, account: string) {
    forall i :: i in s.sessions && s.sessions[i].spot.account == account ==> !Worker(s.sessions[i])
  }

  /** May a worker or a purge take it for itself? */
  predicate Free(s: State, account: string) {
    forall i :: i in s.sessions && s.sessions[i].spot.account == account ==> !Locks(s.sessions[i])
  }

  predicate Enabled(s: State, t: Step) {
    match t
    case BeginPut(i, spot) =>
      // a pack that already has its row is not stored again
      i !in s.sessions && Shareable(s, spot.account) && (spot.path.Pack? ==> spot !in s.rows)
    case StoreBytes(i) => i in s.sessions && s.sessions[i].Putting?
    case StoreBroken(i) => i in s.sessions && s.sessions[i].Putting?
    case CommitRow(i) => i in s.sessions && s.sessions[i].Settling?
    case CancelReminder(i) => i in s.sessions && s.sessions[i].Cancelling?
    case Delete(spot, _) => spot in s.rows && Shareable(s, spot.account)
    case PickUp(i, spot) => i !in s.sessions && Free(s, spot.account)
    case DropLive(i) => i in s.sessions && s.sessions[i].Looking? && s.sessions[i].spot in s.rows
    case Doom(i) => i in s.sessions && s.sessions[i].Looking? && s.sessions[i].spot !in s.rows
    case Erase(i, _) => i in s.sessions && s.sessions[i].Doomed?
    case Forget(i) => i in s.sessions && s.sessions[i].Erased?
    case BeginPurge(i, spot, _) => i !in s.sessions && Free(s, spot.account)
    case PurgeBlob(i, b, _) =>
      i in s.sessions && s.sessions[i].Purging? && b in s.sessions[i].listed && InScope(s.sessions[i], b)
    case PurgeBroken(i, b, _) =>
      i in s.sessions && s.sessions[i].Purging? && b in s.sessions[i].listed && InScope(s.sessions[i], b)
    case CommitPurge(i) => i in s.sessions && s.sessions[i].Purging? && s.sessions[i].listed <= s.sessions[i].passed
    case Die(i) => i in s.sessions
  }

  /** A purge's delete took the bytes. */
  function Taken(s: State, b: Spot): State {
    s.(blobs := s.blobs - {b}, lost := if b in s.rows then s.lost + {b} else s.lost)
  }

  function Next(s: State, t: Step): State
    requires Enabled(s, t)
  {
    match t
    case BeginPut(i, spot) => s.(sessions := s.sessions[i := Putting(spot)])
    case StoreBytes(i) =>
      var b := s.sessions[i].spot;
      s.(blobs := s.blobs + {b}, lost := s.lost - {b}, sessions := s.sessions[i := Settling(b)])
    case StoreBroken(i) =>
      var b := s.sessions[i].spot;
      s.(blobs := s.blobs + {b}, lost := s.lost - {b}, sessions := s.sessions - {i})
    case CommitRow(i) =>
      var b := s.sessions[i].spot;
      s.(rows := s.rows + {b}, sessions := s.sessions[i := Cancelling(b)])
    case CancelReminder(i) => s.(reminders := s.reminders - {s.sessions[i].spot}, sessions := s.sessions - {i})
    case Delete(b, after) =>
      s.(rows := s.rows - {b}, lost := s.lost - {b},
         reminders := if b in s.reminders then s.reminders else s.reminders[b := after])
    case PickUp(i, spot) => s.(sessions := s.sessions[i := Looking(spot)])
    case DropLive(i) => s.(reminders := s.reminders - {s.sessions[i].spot}, sessions := s.sessions - {i})
    case Doom(i) => s.(sessions := s.sessions[i := Doomed(s.sessions[i].spot)])
    case Erase(i, reply) =>
      var b := s.sessions[i].spot;
      s.(blobs := if reply.Gone? then s.blobs - {b} else s.blobs, sessions := s.sessions[i := Erased(b)])
    case Forget(i) => s.(reminders := s.reminders - {s.sessions[i].spot}, sessions := s.sessions - {i})
    case BeginPurge(i, spot, whole) =>
      var x := Purging(spot, whole, {}, {});
      s.(sessions := s.sessions[i := x.(listed := Found(s, x))])
    case PurgeBlob(i, b, reply) =>
      var x := s.sessions[i].(passed := s.sessions[i].passed + {b});
      (if reply.Gone? then Taken(s, b) else s).(sessions := s.sessions[i := x])
    case PurgeBroken(i, b, gone) => (if gone then Taken(s, b) else s).(sessions := s.sessions - {i})
    case CommitPurge(i) =>
      var scope := Found(s, s.sessions[i]);
      s.(rows := s.rows - scope, reminders := s.reminders - scope, lost := s.lost - scope, sessions := s.sessions - {i})
    case Die(i) => s.(sessions := s.sessions - {i})
  }

  /** A run the locks allow. */
  ghost predicate Possible(s: State, run: seq<Step>)
    decreases |run|
  {
    run == [] || (Enabled(s, run[0]) && Possible(Next(s, run[0]), run[1..]))
  }

  ghost function End(s: State, run: seq<Step>): State
    requires Possible(s, run)
    decreases |run|
  {
    if run == [] then s else End(Next(s, run[0]), run[1..])
  }

  predicate SameAccount(s: State, i: nat, j: nat)
    requires i in s.sessions && j in s.sessions
  {
    s.sessions[i].spot.account == s.sessions[j].spot.account
  }

  /** A worker is alone on its account. */
  predicate Exclusive(s: State) {
    forall i, j ::
      i in s.sessions && j in s.sessions && i != j && Worker(s.sessions[i]) && SameAccount(s, i, j) ==>
        !Locks(s.sessions[j])
  }

  /** What a worker doomed has no row; bytes about to get a row are stored, and so are bytes with one,
      unless a purge took them. */
  predicate Stored(s: State) {
    && (forall i :: i in s.sessions && (s.sessions[i].Doomed? || s.sessions[i].Erased?) ==>
                      s.sessions[i].spot !in s.rows)
    && (forall i :: i in s.sessions && s.sessions[i].Settling? ==> s.sessions[i].spot in s.blobs)
    && s.rows - s.lost <= s.blobs
    && s.lost <= s.rows - s.blobs
  }

  /** A purge knows of every row and reminder in its scope: none comes to be while it is at work. */
  predicate Complete(s: State) {
    forall i :: i in s.sessions && s.sessions[i].Purging? ==> Found(s, s.sessions[i]) <= s.sessions[i].listed
  }

  predicate Safe(s: State) {
    Exclusive(s) && Stored(s) && Complete(s)
  }

  /** A session goes on for the same blob, and gives up its lock rather than widening it. */
  predicate GoesOn(x: Session, y: Session) {
    y.spot == x.spot && (Worker(y) <==> Worker(x)) && (Locks(y) ==> Locks(x))
  }

  lemma LocksKept(s: State, s': State)
    requires Exclusive(s)
    requires forall i :: i in s'.sessions ==> i in s.sessions && GoesOn(s.sessions[i], s'.sessions[i])
    ensures Exclusive(s')
  {
    hide Worker, Locks;
    forall i, j | i in s'.sessions && j in s'.sessions && i != j && Worker(s'.sessions[i]) && SameAccount(s', i, j)
      ensures !Locks(s'.sessions[j])
    {
      assert SameAccount(s, i, j);
    }
  }

  lemma ClientJoins(s: State, i: nat, x: Session)
    requires Exclusive(s) && i !in s.sessions && !Worker(x) && Shareable(s, x.spot.account)
    ensures Exclusive(s.(sessions := s.sessions[i := x]))
  {
    hide Worker, Locks;
  }

  lemma WorkerJoins(s: State, i: nat, x: Session)
    requires Exclusive(s) && i !in s.sessions && Free(s, x.spot.account)
    ensures Exclusive(s.(sessions := s.sessions[i := x]))
  {
    assert forall j :: j in s.sessions && Worker(s.sessions[j]) ==> Locks(s.sessions[j]);
    hide Worker, Locks;
  }

  lemma ExclusiveStep(s: State, t: Step)
    requires Exclusive(s) && Enabled(s, t)
    ensures Exclusive(Next(s, t))
  {
    match t
    case BeginPut(i, _) => ClientJoins(s, i, Next(s, t).sessions[i]);
    case PickUp(i, _) => WorkerJoins(s, i, Next(s, t).sessions[i]);
    case BeginPurge(i, _, _) => WorkerJoins(s, i, Next(s, t).sessions[i]);
    case _ => hide Exclusive; LocksKept(s, Next(s, t));
  }

  /** Nobody else holds a lock on the account of a worker or purge. */
  lemma AloneAtWork(s: State, i: nat)
    requires Exclusive(s) && i in s.sessions
    ensures Worker(s.sessions[i]) ==>
              forall j :: j in s.sessions && j != i && Locks(s.sessions[j]) ==> !SameAccount(s, i, j)
    ensures Locks(s.sessions[i]) ==>
              forall j :: j in s.sessions && j != i && Worker(s.sessions[j]) ==> !SameAccount(s, j, i)
  {
    hide Worker, Locks;
  }

  lemma StoredStep(s: State, t: Step)
    requires Exclusive(s) && Stored(s) && Enabled(s, t)
    ensures Stored(Next(s, t))
  {
    match t
    case CommitRow(i) => AloneAtWork(s, i);
    case Erase(i, _) => AloneAtWork(s, i);
    case PurgeBlob(i, _, _) => AloneAtWork(s, i);
    case PurgeBroken(i, _, _) => AloneAtWork(s, i);
    case _ =>
  }

  lemma CompleteStep(s: State, t: Step)
    requires Exclusive(s) && Complete(s) && Enabled(s, t)
    ensures Complete(Next(s, t))
  {
    var s' := Next(s, t);
    forall i | i in s'.sessions && s'.sessions[i].Purging?
      ensures Found(s', s'.sessions[i]) <= s'.sessions[i].listed
    {
      if i in s.sessions && s.sessions[i].Purging? {
        assert Found(s, s.sessions[i]) <= s.sessions[i].listed;
        NothingNewInScope(s, t, i);
      }
    }
  }

  /** While a purge is at work, no row and no reminder in its scope comes to be. */
  lemma NothingNewInScope(s: State, t: Step, i: nat)
    requires Exclusive(s) && Enabled(s, t) && i in s.sessions && s.sessions[i].Purging? && i in Next(s, t).sessions
    requires Next(s, t).sessions[i].Purging?
    ensures Found(Next(s, t), s.sessions[i]) <= Found(s, s.sessions[i])
    ensures Next(s, t).sessions[i].listed == s.sessions[i].listed
    ensures Next(s, t).sessions[i].spot == s.sessions[i].spot && Next(s, t).sessions[i].whole == s.sessions[i].whole
  {
    match t
    case CommitRow(j) => assert SameAccount(s, i, j) ==> !Locks(s.sessions[j]);
    case _ =>
  }

  lemma SafeStep(s: State, t: Step)
    requires Safe(s) && Enabled(s, t)
    ensures Safe(Next(s, t))
  {
    ExclusiveStep(s, t);
    StoredStep(s, t);
    CompleteStep(s, t);
    hide Next, Exclusive, Stored, Complete;
  }

  predicate TakesForPurge(t: Step) {
    t.PurgeBlob? || t.PurgeBroken?
  }

  /** Over every interleaving and every death, the bytes of a live row are there, unless a purge took
      them; and only a purge takes any. */
  lemma {:induction false} LiveBytesStay(s: State, run: seq<Step>)
    requires Safe(s) && Possible(s, run)
    ensures var e := End(s, run); Safe(e) && e.rows - e.lost <= e.blobs
    ensures (forall t :: t in run ==> !TakesForPurge(t)) ==> End(s, run).lost <= s.lost
    decreases |run|
  {
    if run != [] {
      SafeStep(s, run[0]);
      OnlyPurgeTakes(s, run[0]);
      assert run[0] in run && forall t :: t in run[1..] ==> t in run;
      hide Next, Safe, TakesForPurge;
      LiveBytesStay(Next(s, run[0]), run[1..]);
    }
  }

  lemma OnlyPurgeTakes(s: State, t: Step)
    requires Enabled(s, t)
    ensures TakesForPurge(t) || Next(s, t).lost <= s.lost
  {
  }

  /** A purge that commits forgets nothing: of every row and reminder it takes it has had the bytes
      deleted, or passed over. */
  lemma PurgeForgetsNothing(s: State, i: nat, b: Spot)
    requires Safe(s) && Enabled(s, CommitPurge(i))
    ensures var e := Next(s, CommitPurge(i));
            (b in s.rows && b !in e.rows) || (b in s.reminders && b !in e.reminders) ==> b in s.sessions[i].passed
    ensures var e := Next(s, CommitPurge(i));
            InScope(s.sessions[i], b) ==> b !in e.rows && b !in e.reminders
  {
    assert Found(s, s.sessions[i]) <= s.sessions[i].listed;
  }

  ghost predicate BeingPut(s: State, b: Spot) {
    exists i :: i in s.sessions && s.sessions[i] == Settling(b)
  }

  /** Stored, yet nothing will ever lead to it again: no row, no reminder, no request. */
  ghost predicate Stranded(s: State, b: Spot) {
    b in s.blobs && b !in s.rows && b !in s.reminders && !BeingPut(s, b)
  }

  ghost predicate NoneStranded(s: State) {
    forall b :: !Stranded(s, b)
  }

  /** No other request in flight has stored the same bytes. */
  ghost predicate Alone(s: State, i: nat)
    requires i in s.sessions
  {
    forall j :: j in s.sessions && j != i ==> s.sessions[j] != Settling(s.sessions[i].spot)
  }

  /** The steps that strand a blob: a store that fails after storing, a request that dies
      between storing and committing, a reminder cancelled after the row it was cancelled for
      has been deleted again, a reminder forgotten for bytes left in place, and a purge that
      commits with bytes left in place. */
  ghost predicate Strands(s: State, t: Step)
    requires Enabled(s, t)
  {
    match t
    case StoreBroken(i) => var b := s.sessions[i].spot; b !in s.rows && b !in s.reminders && Alone(s, i)
    case Die(i) =>
      var b := s.sessions[i].spot;
      s.sessions[i].Settling? && b !in s.rows && b !in s.reminders && Alone(s, i)
    case CancelReminder(i) =>
      var b := s.sessions[i].spot; b in s.blobs && b !in s.rows && b in s.reminders && !BeingPut(s, b)
    case Forget(i) => s.sessions[i].spot in s.blobs && s.sessions[i].spot in s.reminders
    case CommitPurge(i) => exists b :: b in s.blobs && b in Found(s, s.sessions[i])
    case _ => false
  }

  /** Exactly these steps break the promise that every stored blob has a row, a reminder or a
      request behind it. */
  lemma StrandsIff(s: State, t: Step)
    requires Safe(s) && NoneStranded(s) && Enabled(s, t)
    ensures NoneStranded(Next(s, t)) <==> !Strands(s, t)
  {
    if Strands(s, t) {
      StrandsSomething(s, t);
    } else {
      forall b
        ensures !Stranded(Next(s, t), b)
      {
        assert !Stranded(s, b);
        StaysReachable(s, t, b);
      }
    }
  }

  lemma StrandsSomething(s: State, t: Step)
    requires Safe(s) && Enabled(s, t) && Strands(s, t)
    ensures !NoneStranded(Next(s, t))
  {
    var s' := Next(s, t);
    if t.CommitPurge? {
      var b :| b in s.blobs && b in Found(s, s.sessions[t.id]);
      assert forall j :: j in s.sessions && j != t.id && Locks(s.sessions[j]) ==> !SameAccount(s, t.id, j);
      assert Stranded(s', b);
    } else {
      assert Stranded(s', s.sessions[t.id].spot);
    }
  }

  lemma StaysReachable(s: State, t: Step, b: Spot)
    requires Safe(s) && Enabled(s, t) && !Strands(s, t) && !Stranded(s, b)
    ensures !Stranded(Next(s, t), b)
  {
    var s' := Next(s, t);
    if BeingPut(s, b) {
      if t.Die? && s.sessions[t.id] == Settling(b) {
        if !Alone(s, t.id) {
          var j :| j in s.sessions && j != t.id && s.sessions[j] == Settling(b);
          assert s'.sessions[j] == Settling(b);
        }
      } else if t.CommitRow? && s.sessions[t.id] == Settling(b) {
      } else {
        var i :| i in s.sessions && s.sessions[i] == Settling(b);
        assert s'.sessions[i] == Settling(b);
      }
    } else {
      match t
      case StoreBytes(i) => assert s'.sessions[i] == Settling(s.sessions[i].spot);
      case StoreBroken(i) =>
        if !Alone(s, i) {
          var j :| j in s.sessions && j != i && s.sessions[j] == Settling(s.sessions[i].spot);
          assert s'.sessions[j] == Settling(s.sessions[i].spot);
        }
      case _ =>
    }
  }

  ghost predicate NeverStrands(s: State, run: seq<Step>)
    requires Possible(s, run)
    decreases |run|
  {
    run == [] || (!Strands(s, run[0]) && NeverStrands(Next(s, run[0]), run[1..]))
  }

  /** As long as none of those steps is taken, every stored blob always has a live row, a
      pending reminder, or a request about to give it a row. */
  lemma {:induction false} NothingIsForgotten(s: State, run: seq<Step>)
    requires Safe(s) && NoneStranded(s) && Possible(s, run) && NeverStrands(s, run)
    ensures NoneStranded(End(s, run))
    decreases |run|
  {
    if run != [] {
      SafeStep(s, run[0]);
      StrandsIff(s, run[0]);
      hide Next, Safe, Strands, NoneStranded;
      NothingIsForgotten(Next(s, run[0]), run[1..]);
    }
  }

  const EMPTY := State({}, map[], {}, {}, map[])

  /** Store a blob, delete it before the first request drops the reminder: the reminder of the
      delete is the one that goes, and nothing will ever remove the bytes. */
  lemma LateCancelStrands(b: Spot)
    ensures var run := [BeginPut(0, b), StoreBytes(0), CommitRow(0), Delete(b, 7), CancelReminder(0)];
            Possible(EMPTY, run) && Stranded(End(EMPTY, run), b)
  {
    var s1 := Next(EMPTY, BeginPut(0, b));
    var s2 := Next(s1, StoreBytes(0));
    var s3 := Next(s2, CommitRow(0));
    assert s3 == State({b}, map[], {b}, {}, map[0 := Cancelling(b)]);
    var s4 := Next(s3, Delete(b, 7));
    var s5 := Next(s4, CancelReminder(0));
    assert s5 == State({}, map[], {b}, {}, map[]);
    var r := [BeginPut(0, b), StoreBytes(0), CommitRow(0), Delete(b, 7), CancelReminder(0)];
    Steps5(EMPTY, s1, s2, s3, s4, s5, r);
  }

  lemma Steps5(s0: State, s1: State, s2: State, s3: State, s4: State, s5: State, r: seq<Step>)
    requires |r| == 5
    requires Enabled(s0, r[0]) && Next(s0, r[0]) == s1
    requires Enabled(s1, r[1]) && Next(s1, r[1]) == s2
    requires Enabled(s2, r[2]) && Next(s2, r[2]) == s3
    requires Enabled(s3, r[3]) && Next(s3, r[3]) == s4
    requires Enabled(s4, r[4]) && Next(s4, r[4]) == s5
    ensures Possible(s0, r) && End(s0, r) == s5
  {
    hide Enabled, Next;
    assert r[4..][1..] == [];
    assert Possible(s4, r[4..]) && End(s4, r[4..]) == s5;
    assert r[3..][1..] == r[4..];
    assert Possible(s3, r[3..]) && End(s3, r[3..]) == s5;
    assert r[2..][1..] == r[3..];
    assert Possible(s2, r[2..]) && End(s2, r[2..]) == s5;
    assert r[1..][1..] == r[2..];
    assert Possible(s1, r[1..]) && End(s1, r[1..]) == s5;
  }
}
