/** The CI runner's worker pool: workers take tests from a queue, each test ends in one result
    on a channel, and a collector files the results. Every point where a worker can be
    overtaken is a step of its own. */
module WorkerPool {

  datatype Status = Passed | Failed | Skipped | TimedOut

  datatype Result = Result(id: string, status: Status)

  /** Where a worker is with the test it took. */
  datatype Worker =
    | Idle
    | Took(id: string)                   // before the stop flag is read
    | Going(id: string)                  // before the user's skip list is read
    | Waiting(id: string)                // before a job slot is had
    | Running(id: string)
    | Sending(result: Result, ran: bool)
    | Raising                            // a failed test was sent; the flag is still to be set
    | Left

  datatype State = State(
    queue: seq<string>,
    workers: seq<Worker>,
    channel: seq<Result>,
    filed: seq<Result>,   // results the collector has taken off the channel, in order
    stop: bool)

  datatype Step =
    | Take(w: nat)
    | Leave(w: nat)
    | ReadStop(w: nat)
    | ReadSkip(w: nat, skip: bool)
    | GetSlot(w: nat, cancelled: bool)
    | Finish(w: nat, status: Status)
    | Send(w: nat)
    | Raise(w: nat)
    | Collect
    | CollectorRaises

  predicate Enabled(s: State, t: Step, failFast: bool) {
    match t
    case Take(w) => w < |s.workers| && s.workers[w].Idle? && s.queue != []
    case Leave(w) => w < |s.workers| && s.workers[w].Idle? && s.queue == []
    case ReadStop(w) => w < |s.workers| && s.workers[w].Took?
    case ReadSkip(w, _) => w < |s.workers| && s.workers[w].Going?
    case GetSlot(w, _) => w < |s.workers| && s.workers[w].Waiting?
    // `runTest` never reports a timeout: a test that takes too long is one that failed
    case Finish(w, status) => w < |s.workers| && s.workers[w].Running? && !status.TimedOut?
    case Send(w) => w < |s.workers| && s.workers[w].Sending?
    case Raise(w) => w < |s.workers| && s.workers[w].Raising?
    case Collect => s.channel != []
    case CollectorRaises => failFast && !s.stop && exists i :: 0 <= i < |s.filed| && s.filed[i].status.Failed?
  }

  function Put(s: State, w: nat, x: Worker): State
    requires w < |s.workers|
  {
    s.(workers := s.workers[w := x])
  }

  function Next(s: State, t: Step, failFast: bool): State
    requires Enabled(s, t, failFast)
  {
    match t
    case Take(w) => Put(s, w, Took(s.queue[0])).(queue := s.queue[1..])
    case Leave(w) => Put(s, w, Left)
    case ReadStop(w) =>
      var id := s.workers[w].id;
      Put(s, w, if s.stop then Sending(Result(id, Skipped), false) else Going(id))
    case ReadSkip(w, skip) =>
      var id := s.workers[w].id;
      Put(s, w, if skip then Sending(Result(id, Skipped), false) else Waiting(id))
    case GetSlot(w, cancelled) =>
      var id := s.workers[w].id;
      Put(s, w, if cancelled then Sending(Result(id, Skipped), false) else Running(id))
    case Finish(w, status) => Put(s, w, Sending(Result(s.workers[w].id, status), true))
    case Send(w) =>
      var x := s.workers[w];
      Put(s, w, if x.ran && failFast
          && x.result.status.Failed? then Raising else Idle).(channel := s.channel + [x.result])
    case Raise(w) => Put(s, w, Idle).(stop := true)
    case Collect => s.(channel := s.channel[1..], filed := s.filed + [s.channel[0]])
    case CollectorRaises => s.(stop := true)
  }

  /** There are `min(slots, len(testList))` workers: one at least, unless there is nothing to do. */
  function Start(tests: seq<string>, workers: nat): State {
    State(tests, seq(workers, _ => Idle), [], [], false)
  }

  ghost predicate Possible(s: State, run: seq<Step>, failFast: bool)
    decreases |run|
  {
    run == [] || (Enabled(s, run[0], failFast) && Possible(Next(s, run[0], failFast), run[1..], failFast))
  }

  ghost function End(s: State, run: seq<Step>, failFast: bool): State
    requires Possible(s, run, failFast)
    decreases |run|
  {
    if run == [] then s else End(Next(s, run[0], failFast), run[1..], failFast)
  }

  /** The tests being counted: one of them, or all. */
  type Choice = string -> bool

  function Only(id: string): Choice {
    x => x == id
  }

  /** Does the worker have such a test in hand, its result not yet sent? */
  function InHand(x: Worker, p: Choice): nat {
    if ((x.Took? || x.Going? || x.Waiting? || x.Running?) && p(x.id)) || (x.Sending? && p(x.result.id)) then 1 else 0
  }

  function AllInHand(ws: seq<Worker>, p: Choice): nat {
    if ws == [] then 0 else InHand(ws[0], p) + AllInHand(ws[1..], p)
  }

  function Queued(tests: seq<string>, p: Choice): nat {
    if tests == [] then 0 else (if p(tests[0]) then 1 else 0) + Queued(tests[1..], p)
  }

  function Sent(rs: seq<Result>, p: Choice): nat {
    if rs == [] then 0 else (if p(rs[0].id) then 1 else 0) + Sent(rs[1..], p)
  }

  /** How many such tests there are: queued, in a worker's hand, on the channel, filed. */
  function Everywhere(s: State, p: Choice): nat {
    Queued(s.queue, p) + AllInHand(s.workers, p) + Sent(s.channel, p) + Sent(s.filed, p)
  }

  lemma {:induction false} HandReplaced(ws: seq<Worker>, w: nat, x: Worker, p: Choice)
    requires w < |ws|
    ensures AllInHand(ws[w := x], p) + InHand(ws[w], p) == AllInHand(ws, p) + InHand(x, p)
  {
    if w == 0 {
      assert ws[0 := x][1..] == ws[1..];
    } else {
      assert ws[w := x][1..] == ws[1..][w - 1 := x];
      HandReplaced(ws[1..], w - 1, x, p);
    }
  }

  lemma {:induction false} SentSnoc(rs: seq<Result>, r: Result, p: Choice)
    ensures Sent(rs + [r], p) == Sent(rs, p) + (if p(r.id) then 1 else 0)
  {
    if rs == [] {
      assert rs + [r] == [r] && [r][1..] == [];
    } else {
      assert (rs + [r])[1..] == rs[1..] + [r];
      SentSnoc(rs[1..], r, p);
    }
  }

  /** A step that only moves one worker on with its test. */
  predicate MovesOn(t: Step) {
    t.Leave? || t.ReadStop? || t.ReadSkip? || t.GetSlot? || t.Finish? || t.Raise?
  }

  lemma MoveOnConserves(s: State, t: Step, failFast: bool, p: Choice)
    requires Enabled(s, t, failFast) && MovesOn(t)
    ensures Everywhere(Next(s, t, failFast), p) == Everywhere(s, p)
  {
    HandReplaced(s.workers, t.w, Next(s, t, failFast).workers[t.w], p);
    hide AllInHand;
  }

  lemma TakeConserves(s: State, w: nat, failFast: bool, p: Choice)
    requires Enabled(s, Take(w), failFast)
    ensures Everywhere(Next(s, Take(w), failFast), p) == Everywhere(s, p)
  {
    HandReplaced(s.workers, w, Took(s.queue[0]), p);
    hide AllInHand;
  }

  lemma SendConserves(s: State, w: nat, failFast: bool, p: Choice)
    requires Enabled(s, Send(w), failFast)
    ensures Everywhere(Next(s, Send(w), failFast), p) == Everywhere(s, p)
  {
    HandReplaced(s.workers, w, Next(s, Send(w), failFast).workers[w], p);
    SentSnoc(s.channel, s.workers[w].result, p);
    hide AllInHand, Sent;
  }

  lemma CollectConserves(s: State, failFast: bool, p: Choice)
    requires Enabled(s, Collect, failFast)
    ensures Everywhere(Next(s, Collect, failFast), p) == Everywhere(s, p)
  {
    SentSnoc(s.filed, s.channel[0], p);
    hide AllInHand;
  }

  lemma StepConserves(s: State, t: Step, failFast: bool, p: Choice)
    requires Enabled(s, t, failFast)
    ensures Everywhere(Next(s, t, failFast), p) == Everywhere(s, p)
  {
    match t
    case Take(w) => TakeConserves(s, w, failFast, p);
    case Send(w) => SendConserves(s, w, failFast, p);
    case Collect => CollectConserves(s, failFast, p);
    case CollectorRaises =>
    case _ => MoveOnConserves(s, t, failFast, p);
  }

  lemma {:induction false} RunConserves(s: State, run: seq<Step>, failFast: bool, p: Choice)
    requires Possible(s, run, failFast)
    ensures Everywhere(End(s, run, failFast), p) == Everywhere(s, p)
    decreases |run|
  {
    if run != [] {
      StepConserves(s, run[0], failFast, p);
      hide Everywhere, Next;
      RunConserves(Next(s, run[0], failFast), run[1..], failFast, p);
    }
  }

  /** All workers have left and the channel is drained: `Run` returns. */
  predicate Over(s: State) {
    s.channel == [] && forall w :: 0 <= w < |s.workers| ==> s.workers[w].Left?
  }

  /** A worker leaves only when the queue is empty, and the crew does not change. */
  predicate Closing(s: State, crew: nat) {
    |s.workers| == crew && forall w :: 0 <= w < |s.workers| && s.workers[w].Left? ==> s.queue == []
  }

  lemma {:induction false} RunClosing(s: State, run: seq<Step>, failFast: bool, crew: nat)
    requires Possible(s, run, failFast) && Closing(s, crew)
    ensures Closing(End(s, run, failFast), crew)
    decreases |run|
  {
    if run != [] {
      assert Closing(Next(s, run[0], failFast), crew);
      hide Next, Closing;
      RunClosing(Next(s, run[0], failFast), run[1..], failFast, crew);
    }
  }

  lemma {:induction false} NoneInHand(ws: seq<Worker>, p: Choice)
    requires forall w :: 0 <= w < |ws| ==> ws[w].Left? || ws[w].Idle?
    ensures AllInHand(ws, p) == 0
  {
    if ws != [] {
      NoneInHand(ws[1..], p);
    }
  }

  lemma {:induction false} CountAll(rs: seq<Result>, tests: seq<string>)
    ensures Sent(rs, _ => true) == |rs| && Queued(tests, _ => true) == |tests|
    decreases |rs| + |tests|
  {
    if rs != [] {
      CountAll(rs[1..], tests);
    }
    if tests != [] {
      CountAll(rs, tests[1..]);
    }
  }

  /** The channel has room for one result per listed test, and that is always enough: no
      worker ever waits to send. */
  lemma NoSendBlocks(tests: seq<string>, workers: nat, run: seq<Step>, failFast: bool, w: nat)
    requires Possible(Start(tests, workers), run, failFast)
    requires var e := End(Start(tests, workers), run, failFast); w < |e.workers| && e.workers[w].Sending?
    ensures |End(Start(tests, workers), run, failFast).channel| < |tests|
  {
    var s, all := Start(tests, workers), (_: string) => true;
    var e := End(s, run, failFast);
    RunConserves(s, run, failFast, all);
    NoneInHand(s.workers, all);
    CountAll(e.channel, tests);
    assert InHand(e.workers[w], all) == 1;
    SomeInHand(e.workers, w, all);
  }

  lemma {:induction false} SomeInHand(ws: seq<Worker>, w: nat, p: Choice)
    requires w < |ws|
    ensures InHand(ws[w], p) <= AllInHand(ws, p)
  {
    if w != 0 {
      SomeInHand(ws[1..], w - 1, p);
    }
  }

  /** However the workers are scheduled, whatever fails, is skipped or is cancelled: when the
      run is over each listed test has been filed exactly as often as it was listed. */
  lemma ExactlyOnce(tests: seq<string>, workers: nat, run: seq<Step>, failFast: bool, p: Choice)
    requires (tests == [] || 1 <= workers) && Possible(Start(tests, workers), run, failFast)
    requires Over(End(Start(tests, workers), run, failFast))
    ensures Sent(End(Start(tests, workers), run, failFast).filed, p) == Queued(tests, p)
  {
    var s := Start(tests, workers);
    RunConserves(s, run, failFast, p);
    RunClosing(s, run, failFast, workers);
    NoneInHand(s.workers, p);
    var e := End(s, run, failFast);
    assert s.queue == tests && s.channel == [] && s.filed == [];
    hide End, Possible, Start;
    NoneInHand(e.workers, p);
    if tests != [] {
      assert e.workers[0].Left?;
    }
  }

  /** How much is still to happen. */
  function Effort(x: Worker): nat {
    match x
    case Left => 0
    case Idle => 1
    case Raising => 2
    case Sending(_, _) => 4
    case Running(_) => 5
    case Waiting(_) => 6
    case Going(_) => 7
    case Took(_) => 8
  }

  function AllEffort(ws: seq<Worker>): nat {
    if ws == [] then 0 else Effort(ws[0]) + AllEffort(ws[1..])
  }

  function Rank(s: State): nat {
    8 * |s.queue| + AllEffort(s.workers) + |s.channel| + (if s.stop then 0 else 1)
  }

  lemma {:induction false} EffortReplaced(ws: seq<Worker>, w: nat, x: Worker)
    requires w < |ws|
    ensures AllEffort(ws[w := x]) + Effort(ws[w]) == AllEffort(ws) + Effort(x)
  {
    if w == 0 {
      assert ws[0 := x][1..] == ws[1..];
    } else {
      assert ws[w := x][1..] == ws[1..][w - 1 := x];
      EffortReplaced(ws[1..], w - 1, x);
    }
  }

  /** Every step brings the run closer to its end ... */
  lemma StepsRunOut(s: State, t: Step, failFast: bool)
    requires Enabled(s, t, failFast)
    ensures Rank(Next(s, t, failFast)) < Rank(s)
  {
    if !t.Collect? && !t.CollectorRaises? {
      EffortReplaced(s.workers, t.w, Next(s, t, failFast).workers[t.w]);
    }
    hide AllEffort;
  }

  /** ... and until then some step can be taken: no schedule hangs. */
  lemma NeverStuck(s: State, failFast: bool) returns (t: Step)
    requires !Over(s)
    ensures Enabled(s, t, failFast)
  {
    if s.channel != [] {
      t := Collect;
    } else {
      var w :| 0 <= w < |s.workers| && !s.workers[w].Left?;
      t := match s.workers[w]
        case Idle => if s.queue != [] then Take(w) else Leave(w)
        case Took(_) => ReadStop(w)
        case Going(_) => ReadSkip(w, false)
        case Waiting(_) => GetSlot(w, false)
        case Running(_) => Finish(w, Passed)
        case Sending(_, _) => Send(w)
        case Raising => Raise(w)
        case Left => Collect;
    }
  }

  lemma {:induction false} RunsAreBounded(s: State, run: seq<Step>, failFast: bool)
    requires Possible(s, run, failFast)
    ensures |run| + Rank(End(s, run, failFast)) <= Rank(s)
    decreases |run|
  {
    if run != [] {
      StepsRunOut(s, run[0], failFast);
      hide Rank, Next;
      RunsAreBounded(Next(s, run[0], failFast), run[1..], failFast);
    }
  }

  /** The summary's map: a later result for the same test replaces the earlier one. */
  function Filed(rs: seq<Result>): map<string, Status> {
    if rs == [] then map[] else Filed(rs[..|rs| - 1])[rs[|rs| - 1].id := rs[|rs| - 1].status]
  }

  lemma {:induction false} FiledKeys(rs: seq<Result>, id: string)
    ensures id in Filed(rs) <==> 0 < Sent(rs, Only(id))
  {
    if rs != [] {
      var init, r := rs[..|rs| - 1], rs[|rs| - 1];
      assert rs == init + [r];
      SentSnoc(init, r, Only(id));
      FiledKeys(init, id);
    }
  }

  /** The last result filed for a test is the one the summary shows. */
  lemma {:induction false} LastResultShows(rs: seq<Result>, i: nat)
    requires i < |rs| && forall j :: i < j < |rs| ==> rs[j].id != rs[i].id
    ensures rs[i].id in Filed(rs) && Filed(rs)[rs[i].id] == rs[i].status
  {
    if i < |rs| - 1 {
      assert rs[..|rs| - 1][i] == rs[i];
      LastResultShows(rs[..|rs| - 1], i);
    }
  }

  lemma {:induction false} QueuedIff(tests: seq<string>, id: string)
    ensures 0 < Queued(tests, Only(id)) <==> id in tests
  {
    if tests != [] {
      assert tests == [tests[0]] + tests[1..];
      QueuedIff(tests[1..], id);
    }
  }

  /** The summary has one final result for each distinct listed test, and none besides. */
  lemma SummaryCoversTests(tests: seq<string>, workers: nat, run: seq<Step>, failFast: bool)
    requires (tests == [] || 1 <= workers) && Possible(Start(tests, workers), run, failFast)
    requires Over(End(Start(tests, workers), run, failFast))
    ensures Filed(End(Start(tests, workers), run, failFast).filed).Keys == set id | id in tests
  {
    var filed := End(Start(tests, workers), run, failFast).filed;
    forall id
      ensures id in Filed(filed) <==> id in tests
    {
      ExactlyOnce(tests, workers, run, failFast, Only(id));
      FiledKeys(filed, id);
      QueuedIff(tests, id);
    }
  }

  datatype Stats = Stats(passed: nat, failed: nat, skipped: nat, timedOut: nat, total: nat)

  function With(results: map<string, Status>, status: Status): set<string> {
    set id | id in results && results[id] == status
  }

  /** How many results of a kind are not in `rest`. */
  function Seen(results: map<string, Status>, rest: set<string>, status: Status): nat {
    |With(results, status) - rest|
  }

  lemma SeenEnds(results: map<string, Status>, status: Status)
    ensures Seen(results, results.Keys, status) == 0
    ensures Seen(results, {}, status) == |With(results, status)|
  {
    assert With(results, status) - results.Keys == {};
    assert With(results, status) - {} == With(results, status);
  }

  lemma SeenOneMore(results: map<string, Status>, rest: set<string>, id: string, status: Status)
    requires id in rest && rest <= results.Keys
    ensures Seen(results, rest - {id}, status) == Seen(results, rest, status) + (if results[id] == status then 1 else 0)
  {
    var seen := With(results, status) - rest;
    assert With(results, status) - (rest - {id}) == if results[id] == status then seen + {id} else seen;
  }

  /** No result on its way or filed is a timeout. */
  ghost predicate NoTimeouts(s: State) {
    && (forall r :: r in s.channel || r in s.filed ==> !r.status.TimedOut?)
    && (forall w :: 0 <= w < |s.workers| && s.workers[w].Sending? ==> !s.workers[w].result.status.TimedOut?)
  }

  lemma {:induction false} RunWithoutTimeouts(s: State, run: seq<Step>, failFast: bool)
    requires Possible(s, run, failFast) && NoTimeouts(s)
    ensures NoTimeouts(End(s, run, failFast))
    decreases |run|
  {
    if run != [] {
      StepWithoutTimeouts(s, run[0], failFast);
      hide Next, NoTimeouts;
      RunWithoutTimeouts(Next(s, run[0], failFast), run[1..], failFast);
    }
  }

  lemma StepWithoutTimeouts(s: State, t: Step, failFast: bool)
    requires Enabled(s, t, failFast) && NoTimeouts(s)
    ensures NoTimeouts(Next(s, t, failFast))
  {
    if t.Collect? {
      assert s.channel[0] in s.channel;
      assert forall r :: r in s.channel[1..] ==> r in s.channel;
    }
  }

  lemma {:induction false} FiledStatus(rs: seq<Result>)
    requires forall r :: r in rs ==> !r.status.TimedOut?
    ensures forall id :: id in Filed(rs) ==> !Filed(rs)[id].TimedOut?
  {
    if rs != [] {
      var init, r := rs[..|rs| - 1], rs[|rs| - 1];
      assert r in rs && forall x :: x in init ==> x in rs;
      FiledStatus(init);
    }
  }

  /** In the summary of every run, passed, failed and skipped add up to the distinct listed tests. */
  lemma SummaryAddsUp(tests: seq<string>, workers: nat, run: seq<Step>, failFast: bool)
    requires (tests == [] || 1 <= workers) && Possible(Start(tests, workers), run, failFast)
    requires Over(End(Start(tests, workers), run, failFast))
    ensures var results := Filed(End(Start(tests, workers), run, failFast).filed);
            |With(results, Passed)| + |With(results, Failed)| + |With(results, Skipped)| == |set id | id in tests|
  {
    var s := Start(tests, workers);
    var results := Filed(End(s, run, failFast).filed);
    RunWithoutTimeouts(s, run, failFast);
    FiledStatus(End(s, run, failFast).filed);
    SummaryCoversTests(tests, workers, run, failFast);
    hide End, Possible, Start, Filed;
    ByStatus(results);
    assert With(results, TimedOut) == {};
  }

  lemma ByStatus(results: map<string, Status>)
    ensures |With(results, Passed)| + |With(results, Failed)| + |With(results, Skipped)| + |With(results, TimedOut)|
         == |results.Keys|
  {
    var a, b := With(results, Passed) + With(results, Failed), With(results, Skipped) + With(results, TimedOut);
    assert With(results, Passed) !! With(results, Failed) && With(results, Skipped) !! With(results, TimedOut)
        && a !! b;
    assert a + b == results.Keys by {
      forall id | id in results
        ensures id in a + b
      {
        match results[id]
        case Passed =>
        case Failed =>
        case Skipped =>
        case TimedOut =>
      }
    }
  }

  /** `calculateSummaryStats`, over a map whose order is anyone's guess. */
  method CalculateSummaryStats(results: map<string, Status>) returns (stats: Stats)
    ensures stats == Stats(|With(results, Passed)|, |With(results, Failed)|, |With(results, Skipped)|,
                           |With(results, TimedOut)|, |results|)
    ensures stats.passed + stats.failed + stats.skipped + stats.timedOut == stats.total
  {
    SeenEnds(results, Passed);
    SeenEnds(results, Failed);
    SeenEnds(results, Skipped);
    SeenEnds(results, TimedOut);
    hide With, Seen;
    var passed, failed, skipped, timedOut := 0, 0, 0, 0;
    var rest := results.Keys;
    while rest != {}
      invariant rest <= results.Keys
      invariant passed == Seen(results, rest, Passed)
      invariant failed == Seen(results, rest, Failed)
      invariant skipped == Seen(results, rest, Skipped)
      invariant timedOut == Seen(results, rest, TimedOut)
      invariant passed + failed + skipped + timedOut + |rest| == |results|
      decreases |rest|
    {
      var id :| id in rest;
      SeenOneMore(results, rest, id, Passed);
      SeenOneMore(results, rest, id, Failed);
      SeenOneMore(results, rest, id, Skipped);
      SeenOneMore(results, rest, id, TimedOut);
      match results[id] {
        case Passed => passed := passed + 1;
        case Failed => failed := failed + 1;
        case Skipped => skipped := skipped + 1;
        case TimedOut => timedOut := timedOut + 1;
      }
      rest := rest - {id};
    }
    stats := Stats(passed, failed, skipped, timedOut, |results|);
  }
}
