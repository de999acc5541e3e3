/** The sync pass as the program runs it: maps edited in place, one file operation after the
    other. Each method is tied to the function that says what it comes to. */
module SyncPair {
  import opened Names
  import opened SyncCrash
  import opened SyncModel

  /** `free_trash_path`, and `free_conflict_path` on the conflict name: the name itself, then
      numbers from 2 on, until one is not taken. */
  method FreePath(taken: set<string>, path: string) returns (name: string)
    ensures name == FreeSibling(taken, path)
  {
    FirstName(path);
    AllLeft(taken, path);
    hide Sibling, FirstFree, LeftFrom;
    if path !in taken {
      FoundFree(taken, taken, path, 1);
      return path;
    }
    var n, next := 2, Sibling(path, 2);
    ghost var left := taken - {path};
    TriedOne(taken, taken, path, 1);
    while next in taken
      invariant 2 <= n && next == Sibling(path, n)
      invariant FirstFree(taken, path, 1) == FirstFree(left, path, n) && LeftFrom(taken, left, path, n)
      decreases |left|
    {
      TriedOne(taken, left, path, n);
      left := left - {next};
      n := n + 1;
      next := Sibling(path, n);
    }
    FoundFree(taken, left, path, n);
    return next;
  }

  /** From number `n` on, the names left are the names taken. */
  ghost predicate LeftFrom(taken: set<string>, left: set<string>, path: string, n: nat) {
    forall k :: n <= k ==> (Sibling(path, k) in left <==> Sibling(path, k) in taken)
  }

  lemma FirstName(path: string)
    ensures Sibling(path, 1) == path
  {
  }

  lemma AllLeft(taken: set<string>, path: string)
    ensures LeftFrom(taken, taken, path, 1)
  {
  }

  lemma TriedOne(taken: set<string>, left: set<string>, path: string, n: nat)
    requires 1 <= n && LeftFrom(taken, left, path, n) && Sibling(path, n) in taken
    ensures Sibling(path, n) in left
    ensures var next := left - {Sibling(path, n)};
            LeftFrom(taken, next, path, n + 1) && FirstFree(left, path, n) == FirstFree(next, path, n + 1)
  {
    hide Sibling;
    forall k | n < k
      ensures Sibling(path, k) in left - {Sibling(path, n)} <==> Sibling(path, k) in taken
    {
      SiblingInjective(path, n, k);
    }
  }

  lemma FoundFree(taken: set<string>, left: set<string>, path: string, n: nat)
    requires LeftFrom(taken, left, path, n) && Sibling(path, n) !in taken
    ensures FirstFree(left, path, n) == n
  {
    hide Sibling;
  }

  /** The names a pass gets to before it is stopped. */
  function Visited(order: seq<string>, stopAfter: nat): seq<string> {
    order[..if stopAfter < |order| then stopAfter else |order|]
  }

  /** What the environment decides about one pass. */
  datatype Turn = Turn(order: seq<string>, ans: string -> Answers, stopAfter: nat, writeWorks: bool)

  function Attempts(turns: seq<Turn>): seq<Event> {
    if turns == [] then []
    else
      var t := turns[0];
      [Attempt(Visited(t.order, t.stopAfter), t.ans, t.writeWorks)] + Attempts(turns[1..])
  }

  /** Each pass lists both sides as it finds them. */
  ghost predicate Listed(d: Device, turns: seq<Turn>)
    decreases |turns|
  {
    turns == []
    || (FullOrder(d.w, turns[0].order) && Listed(After(d, Attempts(turns)[0]), turns[1..]))
  }

  /** A part of the names is all of them only if nothing is missing. */
  lemma PartIsFull(w: World, order: seq<string>, stopAfter: nat)
    requires FullOrder(w, order)
    ensures FullOrder(w, Visited(order, stopAfter)) <==> |order| <= stopAfter
    ensures |order| <= stopAfter ==> Visited(order, stopAfter) == order
    ensures |Visited(order, stopAfter)| == if stopAfter < |order| then stopAfter else |order|
    ensures Visited(order, stopAfter) <= order
  {
    if stopAfter < |order| {
      var n := order[stopAfter];
      assert n in order;
    }
  }

  lemma RunNothing(start: World, w: World, ans: string -> Answers)
    ensures Run(start, w, [], ans) == (w, true)
  {
  }

  lemma RunOn(start: World, w: World, order: seq<string>, ans: string -> Answers)
    requires order != []
    ensures var (w1, ok) := Visit(start, w, order[0], ans(order[0]));
            Run(start, w, order, ans) == if ok then Run(start, w1, order[1..], ans) else (w1, false)
  {
    hide Visit;
  }

  lemma PassIs(d: Device, order: seq<string>, ans: string -> Answers, written: bool)
    ensures var (w, ok) := Run(d.w, d.w, order, ans);
            After(d, Attempt(order, ans, written))
            == Device(w, if ok && written && FullOrder(d.w, order) then w.ledger else d.saved)
  {
  }

  lemma AfterFirst(d: Device, e: Event, rest: seq<Event>)
    ensures AfterAll(d, [e] + rest) == AfterAll(After(d, e), rest)
  {
    assert ([e] + rest)[1..] == rest;
  }

  lemma NothingAfter(d: Device)
    ensures AfterAll(d, []) == d
  {
  }

  /** A folder on this computer kept in step with a folder on Luna. */
  class Pair {
    var local: map<string, File>
    var remote: map<string, File>
    var ledger: map<string, Entry>
    var trash: map<string, File>
    var folders: set<string>
    /** The ledger file. */
    var saved: map<string, Entry>

    ghost function State(): World
      reads this
    {
      World(local, remote, ledger, trash, folders)
    }

    /** The pair with its ledger on disk, whose histories `SyncCrash` is about. */
    ghost function Now(): Device
      reads this
    {
      Device(State(), saved)
    }

    constructor (local: map<string, File>, remote: map<string, File>, ledger: map<string, Entry>)
      ensures State() == World(local, remote, ledger, map[], {}) && saved == ledger
    {
      this.local, this.remote, this.ledger := local, remote, ledger;
      trash, folders, saved := map[], {}, ledger;
    }

    /** `Ledger::load` after a restart: what memory held is gone; a torn file loads as empty. */
    method Reload(torn: bool)
      modifies this`ledger, this`saved
      ensures Now() == After(old(Now()), Restart(torn))
    {
      saved := if torn then map[] else saved; // what a torn file says from now on
      ledger := saved;
    }

    method UploadFile(name: string, overwrite: bool, reply: Reply) returns (ok: bool)
      modifies this`remote
      ensures (State(), ok) == Upload(old(State()), name, overwrite, reply)
    {
      if name !in local || (!overwrite && name in remote) {
        return false;
      }
      if reply.Failed? {
        return false;
      }
      remote := remote[name := File(local[name].bytes, reply.mtime)];
      return reply.Done?;
    }

    /** Fetch `rel` over the local file; `known` is Luna's time as listed. */
    method FetchFile(rel: string, known: int, a: Answers, ghost start: World) returns (ok: bool)
      requires rel in start.remote && start.remote[rel].mtime == known
      modifies this`local, this`ledger
      ensures (State(), ok) == FetchArm(start, old(State()), rel, a)
    {
      if !a.path || !a.fetch || rel !in remote {
        return false;
      }
      local := local[rel := File(remote[rel].bytes, a.fetchTime)];
      if !a.meta {
        return false;
      }
      ledger := ledger[rel := Entry(|local[rel].bytes|, a.fetchTime, known)];
      return true;
    }

    method SendFile(rel: string, listed: File, overwrite: bool, a: Answers, ghost start: World) returns (ok: bool)
      requires rel in start.local && start.local[rel] == listed
      modifies this`remote, this`ledger
      ensures (State(), ok) == SendArm(start, old(State()), rel, overwrite, a)
    {
      ok := UploadFile(rel, overwrite, a.send);
      if ok {
        ledger := ledger[rel := Entry(|listed.bytes|, listed.mtime, listed.mtime)];
      }
    }

    method MoveAside(rel: string) returns (aside: string)
      requires rel in local
      modifies this`local
      ensures aside == AsideName(old(State()), rel) && State() == MovedAside(old(State()), rel)
    {
      var base := ConflictName(rel);
      aside := FreePath(local.Keys + folders, base);
      assert aside == AsideName(State(), rel);
      hide AsideName, ConflictName;
      local := (local - {rel})[aside := local[rel]];
    }

    method MoveBack(aside: string, rel: string, ghost before: World)
      requires rel in before.local && aside == AsideName(before, rel) && State() == MovedAside(before, rel)
      modifies this`local
      ensures State() == before
    {
      AsideElsewhere(before, rel);
      hide AsideName;
      local := (local - {aside})[rel := local[aside]];
      assert local == before.local;
    }

    /** Both sides changed: set the local file aside, fetch Luna's version to its name, then
        upload the copy. If the download fails the file goes back where it was. */
    method KeepBoth(rel: string, listed: File, a: Answers, ghost start: World) returns (ok: bool)
      requires rel in start.remote && start.remote[rel] == listed
      modifies this`local, this`remote, this`ledger
      ensures (State(), ok) == ConflictArm(start, old(State()), rel, a)
    {
      if !a.rename || rel !in local {
        return false;
      }
      ghost var before := State();
      hide AsideName, MovedAside;
      var aside := MoveAside(rel);
      if !a.path {
        return false;
      }
      if !a.fetch || rel !in remote {
        if a.restore {
          MoveBack(aside, rel, before);
        }
        return false;
      }
      local := local[rel := File(remote[rel].bytes, a.fetchTime)];
      ledger := ledger[rel := Entry(|listed.bytes|, if a.meta then a.fetchTime else listed.mtime, listed.mtime)];
      var _ := UploadFile(aside, false, a.send);
      return true;
    }

    /** Deleted on Luna: into the trash, never overwriting anything there. */
    method Quarantine(rel: string, a: Answers)
      modifies this`local, this`ledger, this`trash
      ensures State() == SetAsideArm(old(State()), rel, a)
    {
      if a.rename && rel in local {
        var place := FreePath(trash.Keys, Decimal(a.stamp) + "/" + rel);
        trash := trash[place := local[rel]];
        local := local - {rel};
        ledger := ledger - {rel};
      }
    }

    method DeleteOnLuna(rel: string, reply: Reply) returns (ok: bool)
      modifies this`remote, this`ledger
      ensures forall a: Answers :: a.erase == reply ==> (State(), ok) == EraseArm(old(State()), rel, a)
    {
      if reply.Failed? {
        return false;
      }
      remote := remote - {rel};
      if reply.Lost? {
        return false;
      }
      ledger := ledger - {rel};
      return true;
    }

    /** `sync_once`: list both sides, then visit every name in some order. The pass ends at the
        first error, or when `stopAfter` names are done and a stop was asked for; the ledger is
        written only if neither happened. */
    method SyncOnce(order: seq<string>, ans: string -> Answers, stopAfter: nat, writeWorks: bool) returns (ok: bool)
      requires FullOrder(State(), order)
      modifies this
      ensures Now() == After(old(Now()), Attempt(Visited(order, stopAfter), ans, writeWorks))
      ensures ok == Run(old(State()), old(State()), Visited(order, stopAfter), ans).1
    {
      ghost var start, was := State(), Now();
      var localMap, remoteMap := local, remote;
      ghost var visited := Visited(order, stopAfter);
      PartIsFull(start, order, stopAfter);
      var i := 0;
      hide FullOrder, Run, After, Visit, Visited;
      while i < |order|
        invariant i <= |visited| <= |order|
        invariant saved == old(saved)
        invariant Run(start, start, visited, ans) == Run(start, State(), visited[i..], ans)
      {
        if i == stopAfter {
          RunNothing(start, State(), ans);
          PassIs(was, visited, ans, writeWorks);
          return true;
        }
        var rel, a := order[i], ans(order[i]);
        assert visited[i..][0] == rel && visited[i..][1..] == visited[i + 1..];
        RunOn(start, State(), visited[i..], ans);
        ok := VisitName(rel, localMap, remoteMap, a, start);
        if !ok {
          PassIs(was, visited, ans, writeWorks);
          return false;
        }
        i := i + 1;
      }
      RunNothing(start, State(), ans);
      PassIs(was, visited, ans, writeWorks);
      if writeWorks {
        saved := ledger;
      }
      return true;
    }

    /** The loop of a running pair: the ledger is loaded, then pass follows pass, whether the one
        before failed or not, until the program ends. */
    method RunPair(torn: bool, turns: seq<Turn>)
      requires Listed(After(Now(), Restart(torn)), turns)
      modifies this
      ensures Now() == AfterAll(old(Now()), [Restart(torn)] + Attempts(turns))
    {
      ghost var start, events := Now(), [Restart(torn)] + Attempts(turns);
      Reload(torn);
      AfterFirst(start, Restart(torn), Attempts(turns));
      hide After, AfterAll, Run, FullOrder;
      for i := 0 to |turns|
        invariant Listed(Now(), turns[i..])
        invariant AfterAll(Now(), Attempts(turns[i..])) == AfterAll(start, events)
      {
        var t := turns[i];
        assert turns[i..][0] == t && turns[i..][1..] == turns[i + 1..];
        AfterFirst(Now(), Attempts(turns[i..])[0], Attempts(turns[i + 1..]));
        var _ := SyncOnce(t.order, t.ans, t.stopAfter, t.writeWorks);
      }
      NothingAfter(Now());
    }

    /** The eight-way case split for one name. */
    method VisitName(rel: string, localMap: map<string, File>, remoteMap: map<string, File>, a: Answers,
                     ghost start: World) returns (ok: bool)
      requires start.local == localMap && start.remote == remoteMap
      modifies this`local, this`remote, this`ledger, this`trash
      ensures (State(), ok) == Visit(start, old(State()), rel, a)
    {
      if a.elsewhere.Some? {
        remote := a.elsewhere.value; // other devices had their turn
      }
      ghost var w := State();
      assert w == Meanwhile(old(State()), a);
      if rel in localMap && rel in remoteMap {
        hide Act;
        if rel in ledger {
          ok := VisitKnown(rel, localMap[rel], remoteMap[rel], ledger[rel], a, start);
        } else {
          ok := VisitUnknown(rel, localMap[rel], remoteMap[rel], a, start);
        }
      } else {
        hide ConflictArm, SetAsideArm, SendArm, FetchArm;
        if rel in localMap && rel in ledger {
          Quarantine(rel, a);
          ok := true;
        } else if rel in localMap {
          ok := SendFile(rel, localMap[rel], false, a, start);
        } else if rel in remoteMap && rel in ledger {
          ok := DeleteOnLuna(rel, a.erase);
        } else if rel in remoteMap {
          ok := FetchFile(rel, remoteMap[rel].mtime, a, start);
        } else if rel in ledger {
          ledger := ledger - {rel};
          ok := true;
        } else {
          ok := true;
        }
      }
    }

    /** On both sides and in the ledger: which side has changed since? */
    method VisitKnown(rel: string, l: File, r: File, e: Entry, a: Answers, ghost start: World) returns (ok: bool)
      requires rel in start.local && start.local[rel] == l && rel in start.remote && start.remote[rel] == r
      requires rel in ledger && ledger[rel] == e
      modifies this`local, this`remote, this`ledger
      ensures (State(), ok) == Act(start, old(State()), rel, a)
    {
      hide ConflictArm, SetAsideArm, SendArm, FetchArm;
      var localChanged := |l.bytes| != e.size || l.mtime != e.localMtime;
      var remoteChanged := |r.bytes| != e.size || r.mtime != e.remoteMtime;
      if localChanged && remoteChanged {
        ok := KeepBoth(rel, r, a, start);
      } else if localChanged {
        ok := SendFile(rel, l, true, a, start);
      } else if remoteChanged {
        ok := FetchFile(rel, r.mtime, a, start);
      } else {
        ok := true;
      }
    }

    /** On both sides and not in the ledger: the same file, or the newer one wins. */
    method VisitUnknown(rel: string, l: File, r: File, a: Answers, ghost start: World) returns (ok: bool)
      requires rel in start.local && start.local[rel] == l && rel in start.remote && start.remote[rel] == r
      requires rel !in ledger
      modifies this`local, this`remote, this`ledger
      ensures (State(), ok) == Act(start, old(State()), rel, a)
    {
      hide ConflictArm, SetAsideArm, SendArm, FetchArm;
      var apart := if l.mtime < r.mtime then r.mtime - l.mtime else l.mtime - r.mtime;
      if |l.bytes| == |r.bytes| && apart <= 2 {
        ledger := ledger[rel := Entry(|l.bytes|, l.mtime, r.mtime)];
        ok := true;
      } else if l.mtime >= r.mtime {
        ok := SendFile(rel, l, true, a, start);
      } else {
        ok := FetchFile(rel, r.mtime, a, start);
      }
    }
  }

  lemma AsideElsewhere(w: World, rel: string)
    ensures AsideName(w, rel) !in w.local
  {
    FreeSiblingIs(Taken(w), ConflictName(rel));
    hide FreeSibling, ConflictName;
  }
}
