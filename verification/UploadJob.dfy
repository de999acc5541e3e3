/** A folder upload as the program runs it: the queue, the set of failed files and the ledger edited
    in place. Each method is tied to the function that says what it comes to. */
module UploadJob {
  import opened BackupCollisions
  import opened BackupHistory
  import opened BackupQueue
  import opened Options
  import opened Text

  /** A running upload job. */
  class Uploader {
    const sources: seq<string>
    var queued: seq<string>
    var failed: set<string>
    var ledger: map<string, Stamp>
    ghost var log: seq<(string, Reason)>
    ghost var copied: set<(string, Stamp)>
    ghost var there: map<string, (string, Stamp)>

    ghost function Now(): State
      reads this
    {
      State(queued, failed, ledger, log, copied, there)
    }

    /** `earlier` and `onLuna` are the uploads the saved ledger stands for, and what came of them. */
    constructor (sources: seq<string>, ledger: map<string, Stamp>, ghost files: set<string>,
                 ghost earlier: set<(string, Stamp)>, ghost onLuna: map<string, (string, Stamp)>)
      requires Started(sources, files, State([], {}, ledger, [], earlier, onLuna))
      ensures this.sources == sources && Now() == State([], {}, ledger, [], earlier, onLuna)
      ensures Started(sources, files, Now()) && Tidy(Now())
    {
      this.sources, this.ledger := sources, ledger;
      queued, failed, log, copied, there := [], {}, [], earlier, onLuna;
    }

    method Report(path: string)
      modifies this`queued
      ensures Now() == Enqueued(old(Now()), path)
    {
      if path !in queued {
        queued := queued + [path];
      }
    }

    method FindRel(path: string) returns (rel: Option<string>)
      ensures rel == Rel(sources, path)
    {
      for i := 0 to |sources|
        invariant Rel(sources, path) == Rel(sources[i..], path)
      {
        var dir := sources[i] + "/";
        assert sources[i..][1..] == sources[i + 1..];
        if dir <= path {
          return Some(path[|dir|..]);
        }
      }
      return None;
    }

    /** `upload_one` on a path that exists; true if the attempt failed. */
    method UploadOne(path: string, rel: string, look: Look) returns (attemptFailed: bool)
      requires Rel(sources, path) == Some(rel) && !look.Missing?
      modifies this`ledger, this`copied, this`there
      ensures attemptFailed <==> Verdict(sources, old(ledger), path, look).None?
      ensures Now() == Recorded(sources, old(Now()), path, look)
    {
      if look.Unreadable? {
        return true;
      }
      if look.NotFile? {
        return false;
      }
      var stamp := Stamp(look.size, look.mtime);
      if rel in ledger && ledger[rel] == stamp {
        return false;
      }
      if !look.settled || !look.sent {
        return true;
      }
      ledger := ledger[rel := stamp];
      copied := copied + {(path, stamp)};
      there := there[rel := (path, stamp)];
      return false;
    }

    /** `upload_tree`: folder by folder, collecting what could not be copied. */
    method UploadTree(entries: seq<Tree>) returns (missed: seq<string>)
      modifies this`ledger, this`log, this`copied, this`there
      ensures (Now(), missed) == Walk(sources, old(Now()), entries)
      decreases entries
    {
      missed := [];
      WalkedSoFar(sources, Now(), entries);
      for i := 0 to |entries|
        invariant WalksTo(sources, Now(), entries[i..], missed) == Walk(sources, old(Now()), entries)
      {
        ghost var before := Now();
        NextEntry(sources, before, entries, i, missed);
        hide Walk, WalksTo;
        match entries[i] {
          case Leaf(path, look) =>
            var attemptFailed := Attempt(path, FirstLook(look));
            if attemptFailed {
              missed := missed + [path];
            } else {
              log := log + [(path, Verdict(sources, before.ledger, path, FirstLook(look)).value)];
              assert missed + [] == missed;
            }
          case Folder(readable, inner) =>
            if readable {
              var more := UploadTree(inner);
              missed := missed + more;
            } else {
              assert missed + [] == missed;
            }
          case _ =>
            assert missed + [] == missed;
        }
      }
      NothingLeft(sources, Now(), missed);
      assert entries[|entries|..] == [];
    }

    /** One round of the retry loop: paths leave the queue in place, and the index only moves
        past those that have to stay. */
    method RetryRound(look: string -> Look)
      modifies this`queued, this`failed, this`ledger, this`log, this`copied, this`there
      ensures Now() == AfterRound(sources, old(Now()), look)
    {
      var i := 0;
      while i < |queued|
        invariant i <= |queued|
        invariant Round(sources, Now(), queued[..i], queued[i..], look) == AfterRound(sources, old(Now()), look)
        decreases |queued| - i
      {
        var path := queued[i];
        ghost var before := Now();
        assert queued[i..][1..] == queued[i + 1..];
        var attemptFailed := Attempt(path, look(path));
        if attemptFailed {
          failed := failed + {path};
          assert queued[..i + 1] == queued[..i] + [path];
          i := i + 1;
        } else {
          failed := failed - {path};
          log := log + [(path, Verdict(sources, before.ledger, path, look(path)).value)];
          var rest := queued[..i] + queued[i + 1..];
          assert rest[..i] == queued[..i] && rest[i..] == queued[i + 1..];
          queued := rest;
        }
        RoundIgnoresQueue(sources, Turn(sources, before, path, look(path)), Now(), queued[..i], queued[i..], look);
      }
      assert queued[..i] == queued && queued[i..] == [];
    }

    /** Gone files and files outside every source need no attempt. */
    method Attempt(path: string, look: Look) returns (attemptFailed: bool)
      modifies this`ledger, this`copied, this`there
      ensures attemptFailed <==> Verdict(sources, old(ledger), path, look).None?
      ensures Now() == Recorded(sources, old(Now()), path, look)
    {
      attemptFailed := false;
      if !look.Missing? {
        var rel := FindRel(path);
        if rel.Some? {
          attemptFailed := UploadOne(path, rel.value, look);
        }
      }
    }

    /** The thread of a job: the walk, its missed files queued, and then, again and again, what the
        watcher reports, if anything, and a round. */
    method RunJob(entries: seq<Tree>, turns: seq<(Option<string>, string -> Look)>)
      modifies this
      ensures Now() == AfterAll(sources, old(Now()), [Walked(entries)] + Events(turns))
    {
      ghost var start := Now();
      var missed := UploadTree(entries);
      hide Walk;
      ghost var walked := Now();
      for i := 0 to |missed|
        invariant EnqueuedAll(Now(), missed[i..]) == EnqueuedAll(walked, missed)
      {
        assert missed[i..][0] == missed[i] && missed[i..][1..] == missed[i + 1..];
        Report(missed[i]);
      }
      assert missed[|missed|..] == [];
      FirstEvent(sources, start, Walked(entries), Events(turns));
      hide After, AfterRound, Enqueued;
      for i := 0 to |turns|
        invariant AfterAll(sources, Now(), Events(turns[i..]))
                  == AfterAll(sources, start, [Walked(entries)] + Events(turns))
      {
        var (report, look) := turns[i];
        NextTurn(sources, Now(), turns, i);
        if report.Some? {
          Report(report.value);
        }
        RetryRound(look);
      }
      assert turns[|turns|..] == [];
      NoEvents(sources, Now());
    }
  }

  /** What the watcher reports and the rounds, as events. */
  function Events(turns: seq<(Option<string>, string -> Look)>): seq<Event> {
    if turns == [] then []
    else
      var (report, look) := turns[0];
      (if report.Some? then [Reported(report.value)] else []) + [Pass(look)] + Events(turns[1..])
  }

  lemma FirstEvent(sources: seq<string>, s: State, e: Event, rest: seq<Event>)
    ensures AfterAll(sources, s, [e] + rest) == AfterAll(sources, After(sources, s, e), rest)
  {
    hide After;
    assert ([e] + rest)[1..] == rest;
  }

  lemma NoEvents(sources: seq<string>, s: State)
    ensures AfterAll(sources, s, Events([])) == s
  {
  }

  lemma NextTurn(sources: seq<string>, s: State, turns: seq<(Option<string>, string -> Look)>, i: nat)
    requires i < |turns|
    ensures var (report, look) := turns[i];
            var s1 := if report.Some? then Enqueued(s, report.value) else s;
            AfterAll(sources, s, Events(turns[i..]))
                == AfterAll(sources, AfterRound(sources, s1, look), Events(turns[i + 1..]))
  {
    var (report, look) := turns[i];
    var rest := Events(turns[i + 1..]);
    assert turns[i..][0] == turns[i] && turns[i..][1..] == turns[i + 1..];
    var s1 := if report.Some? then Enqueued(s, report.value) else s;
    hide AfterRound, Enqueued;
    FirstEvent(sources, s1, Pass(look), rest);
    if report.Some? {
      FirstEvent(sources, s, Reported(report.value), [Pass(look)] + rest);
      Regroup([Reported(report.value)], [Pass(look)], rest);
      assert After(sources, s, Reported(report.value)) == s1;
    } else {
      assert [] + [Pass(look)] + rest == [Pass(look)] + rest;
    }
    assert After(sources, s1, Pass(look)) == AfterRound(sources, s1, look);
  }

  /** The walk of the entries that are left, with what was missed so far in front. */
  function WalksTo(sources: seq<string>, s: State, entries: seq<Tree>, missed: seq<string>): (State, seq<string>) {
    var (e, more) := Walk(sources, s, entries);
    (e, missed + more)
  }

  lemma WalkedSoFar(sources: seq<string>, s: State, entries: seq<Tree>)
    ensures WalksTo(sources, s, entries[0..], []) == Walk(sources, s, entries)
  {
    hide Walk;
    assert entries[0..] == entries;
    assert [] + Walk(sources, s, entries).1 == Walk(sources, s, entries).1;
  }

  lemma NextEntry(sources: seq<string>, s: State, entries: seq<Tree>, i: nat, missed: seq<string>)
    requires i < |entries|
    ensures var (s1, m) := WalkOne(sources, s, entries[i]);
            WalksTo(sources, s, entries[i..], missed) == WalksTo(sources, s1, entries[i + 1..], missed + m)
  {
    assert entries[i..][0] == entries[i] && entries[i..][1..] == entries[i + 1..];
    WalkUnfold(sources, s, entries[i..]);
    var (s1, m) := WalkOne(sources, s, entries[i]);
    hide Walk, WalkOne;
    Regroup(missed, m, Walk(sources, s1, entries[i + 1..]).1);
  }

  lemma NothingLeft(sources: seq<string>, s: State, missed: seq<string>)
    ensures WalksTo(sources, s, [], missed) == (s, missed)
  {
    assert missed + [] == missed;
  }

  lemma {:induction false} RoundIgnoresQueue(sources: seq<string>, s: State, t: State, kept: seq<string>,
                                             todo: seq<string>, look: string -> Look)
    requires t == s.(queue := t.queue)
    ensures Round(sources, s, kept, todo, look) == Round(sources, t, kept, todo, look)
    decreases |todo|
  {
    if todo != [] {
      var p := todo[0];
      var stays := Verdict(sources, s.ledger, p, look(p)).None?;
      var s1, t1 := Turn(sources, s, p, look(p)), Turn(sources, t, p, look(p));
      assert t1 == s1.(queue := t1.queue);
      hide Turn, Verdict;
      RoundIgnoresQueue(sources, s1, t1, if stays then kept + [p] else kept, todo[1..], look);
    }
  }
}
