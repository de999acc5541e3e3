/** What a run of the worker pool files for a test, and why: every result comes from one step that
    gave it, and once the stop flag is set no further test is run. */
module FailFast {
  import opened WorkerPool

  /** Where the worker is; one there is not has left. */
  function At(s: State, w: nat): Worker {
    if w < |s.workers| then s.workers[w] else Left
  }

  /** The result a step gives a test, if any: skipped because of the flag, the user or a cancelled
      wait for a slot, or whatever the test itself came to. */
  function Given(s: State, t: Step): seq<Result> {
    match t
    case ReadStop(w) => if At(s, w).Took? && s.stop then [Result(At(s, w).id, Skipped)] else []
    case ReadSkip(w, true) => if At(s, w).Going? then [Result(At(s, w).id, Skipped)] else []
    case GetSlot(w, true) => if At(s, w).Waiting? then [Result(At(s, w).id, Skipped)] else []
    case Finish(w, status) => if At(s, w).Running? then [Result(At(s, w).id, status)] else []
    case _ => []
  }

  /** All results given in a run, in the order in which they were given. */
  ghost function AllGiven(s: State, run: seq<Step>, failFast: bool): seq<Result>
    requires Possible(s, run, failFast)
    decreases |run|
  {
    if run == [] then [] else Given(s, run[0]) + AllGiven(Next(s, run[0], failFast), run[1..], failFast)
  }

  function Count(rs: seq<Result>, r: Result): nat {
    if rs == [] then 0 else (if rs[0] == r then 1 else 0) + Count(rs[1..], r)
  }

  /** Does the worker have this result in hand? */
  function Carries(x: Worker, r: Result): nat {
    if x.Sending? && x.result == r then 1 else 0
  }

  function Carried(ws: seq<Worker>, r: Result): nat {
    if ws == [] then 0 else Carries(ws[0], r) + Carried(ws[1..], r)
  }

  /** How often there is such a result: in a worker's hand, on the channel, or filed. */
  function Results(s: State, r: Result): nat {
    Carried(s.workers, r) + Count(s.channel, r) + Count(s.filed, r)
  }

  lemma {:induction false} CarriedReplaced(ws: seq<Worker>, w: nat, x: Worker, r: Result)
    requires w < |ws|
    ensures Carried(ws[w := x], r) + Carries(ws[w], r) == Carried(ws, r) + Carries(x, r)
  {
    if w == 0 {
      assert ws[0 := x][1..] == ws[1..];
    } else {
      assert ws[w := x][1..] == ws[1..][w - 1 := x];
      CarriedReplaced(ws[1..], w - 1, x, r);
    }
  }

  lemma {:induction false} CountJoined(a: seq<Result>, b: seq<Result>, r: Result)
    ensures Count(a + b, r) == Count(a, r) + Count(b, r)
  {
    if a == [] {
      assert a + b == b;
    } else {
      assert (a + b)[1..] == a[1..] + b;
      CountJoined(a[1..], b, r);
    }
  }

  lemma SendGives(s: State, w: nat, failFast: bool, r: Result)
    requires Enabled(s, Send(w), failFast)
    ensures Results(Next(s, Send(w), failFast), r) == Results(s, r)
  {
    CarriedReplaced(s.workers, w, Next(s, Send(w), failFast).workers[w], r);
    CountJoined(s.channel, [s.workers[w].result], r);
    hide Carried;
  }

  lemma StepGives(s: State, t: Step, failFast: bool, r: Result)
    requires Enabled(s, t, failFast)
    ensures Results(Next(s, t, failFast), r) == Results(s, r) + Count(Given(s, t), r)
  {
    match t
    case Collect =>
      CountJoined(s.filed, [s.channel[0]], r);
      hide Carried;
    case CollectorRaises =>
    case Send(w) => SendGives(s, w, failFast, r);
    case _ =>
      CarriedReplaced(s.workers, t.w, Next(s, t, failFast).workers[t.w], r);
      hide Carried;
  }

  lemma {:induction false} RunGives(s: State, run: seq<Step>, failFast: bool, r: Result)
    requires Possible(s, run, failFast)
    ensures Results(End(s, run, failFast), r) == Results(s, r) + Count(AllGiven(s, run, failFast), r)
    decreases |run|
  {
    if run != [] {
      var s' := Next(s, run[0], failFast);
      StepGives(s, run[0], failFast, r);
      hide Results, Next, Given;
      RunGives(s', run[1..], failFast, r);
      CountJoined(Given(s, run[0]), AllGiven(s', run[1..], failFast), r);
    }
  }

  lemma {:induction false} NoneCarried(ws: seq<Worker>, r: Result)
    requires forall w :: 0 <= w < |ws| ==> !ws[w].Sending?
    ensures Carried(ws, r) == 0
  {
    if ws != [] {
      NoneCarried(ws[1..], r);
    }
  }

  /** When a run is over, what is filed is exactly what its steps gave: a test is filed as failed or
      passed only if it ran and came to that, and as skipped only if the flag, the user, a
      cancelled wait or the test itself made it so, and as often. */
  lemma FiledAsGiven(tests: seq<string>, workers: nat, run: seq<Step>, failFast: bool, r: Result)
    requires Possible(Start(tests, workers), run, failFast) && Over(End(Start(tests, workers), run, failFast))
    ensures Count(End(Start(tests, workers), run, failFast).filed, r)
         == Count(AllGiven(Start(tests, workers), run, failFast), r)
  {
    var s := Start(tests, workers);
    var e := End(s, run, failFast);
    RunGives(s, run, failFast, r);
    NoneCarried(s.workers, r);
    NoneCarried(e.workers, r);
    hide End, AllGiven;
  }

  /** Has the worker got past the flag with a test, which may therefore run or have run? */
  function PastFlag(x: Worker, p: Choice): nat {
    if ((x.Going? || x.Waiting? || x.Running?) && p(x.id))
       || (x.Sending? && p(x.result.id) && !x.result.status.Skipped?) then 1 else 0
  }

  function AllPastFlag(ws: seq<Worker>, p: Choice): nat {
    if ws == [] then 0 else PastFlag(ws[0], p) + AllPastFlag(ws[1..], p)
  }

  /** How many such tests were not skipped. */
  function Unskipped(rs: seq<Result>, p: Choice): nat {
    if rs == [] then 0 else (if p(rs[0].id) && !rs[0].status.Skipped? then 1 else 0) + Unskipped(rs[1..], p)
  }

  /** How many such tests run, have run, or may yet do so without the flag being read again. */
  function Spared(s: State, p: Choice): nat {
    AllPastFlag(s.workers, p) + Unskipped(s.channel, p) + Unskipped(s.filed, p)
  }

  lemma {:induction false} PastFlagReplaced(ws: seq<Worker>, w: nat, x: Worker, p: Choice)
    requires w < |ws|
    ensures AllPastFlag(ws[w := x], p) + PastFlag(ws[w], p) == AllPastFlag(ws, p) + PastFlag(x, p)
  {
    if w == 0 {
      assert ws[0 := x][1..] == ws[1..];
    } else {
      assert ws[w := x][1..] == ws[1..][w - 1 := x];
      PastFlagReplaced(ws[1..], w - 1, x, p);
    }
  }

  lemma {:induction false} UnskippedSnoc(rs: seq<Result>, r: Result, p: Choice)
    ensures Unskipped(rs + [r], p) == Unskipped(rs, p) + (if p(r.id) && !r.status.Skipped? then 1 else 0)
  {
    if rs == [] {
      assert rs + [r] == [r] && [r][1..] == [];
    } else {
      assert (rs + [r])[1..] == rs[1..] + [r];
      UnskippedSnoc(rs[1..], r, p);
    }
  }

  lemma SendSpares(s: State, w: nat, failFast: bool, p: Choice)
    requires Enabled(s, Send(w), failFast)
    ensures Spared(Next(s, Send(w), failFast), p) == Spared(s, p)
  {
    PastFlagReplaced(s.workers, w, Next(s, Send(w), failFast).workers[w], p);
    UnskippedSnoc(s.channel, s.workers[w].result, p);
    hide AllPastFlag, Unskipped;
  }

  lemma CollectSpares(s: State, failFast: bool, p: Choice)
    requires Enabled(s, Collect, failFast)
    ensures Spared(Next(s, Collect, failFast), p) == Spared(s, p)
  {
    UnskippedSnoc(s.filed, s.channel[0], p);
    hide AllPastFlag;
  }

  lemma StopSpares(s: State, t: Step, failFast: bool, p: Choice)
    requires Enabled(s, t, failFast) && s.stop
    ensures Next(s, t, failFast).stop && Spared(Next(s, t, failFast), p) <= Spared(s, p)
  {
    match t
    case Collect => CollectSpares(s, failFast, p);
    case CollectorRaises =>
    case Send(w) => SendSpares(s, w, failFast, p);
    case _ =>
      PastFlagReplaced(s.workers, t.w, Next(s, t, failFast).workers[t.w], p);
      NoFurther(s, t, failFast, p);
      hide AllPastFlag, Unskipped, Next, PastFlag;
  }

  /** With the flag set, a worker's step takes no test past it. */
  lemma NoFurther(s: State, t: Step, failFast: bool, p: Choice)
    requires Enabled(s, t, failFast) && s.stop && !t.Collect? && !t.CollectorRaises? && !t.Send?
    ensures var s' := Next(s, t, failFast);
            && s'.stop && s'.workers == s.workers[t.w := s'.workers[t.w]]
            && s'.channel == s.channel && s'.filed == s.filed
            && PastFlag(s'.workers[t.w], p) <= PastFlag(s.workers[t.w], p)
  {
  }

  lemma {:induction false} RunSpares(s: State, run: seq<Step>, failFast: bool, p: Choice)
    requires Possible(s, run, failFast) && s.stop
    ensures End(s, run, failFast).stop && Spared(End(s, run, failFast), p) <= Spared(s, p)
    decreases |run|
  {
    if run != [] {
      StopSpares(s, run[0], failFast, p);
      hide Next, Spared;
      RunSpares(Next(s, run[0], failFast), run[1..], failFast, p);
    }
  }

  /** Once the flag is set it stays set, and a test that no worker has carried past it by then is not
      run any more: from then on nobody is about to run it, nobody runs it, and whatever is on
      the channel or filed for it says that it was skipped. */
  lemma NothingRunsAfterStop(s: State, run: seq<Step>, failFast: bool, id: string)
    requires Possible(s, run, failFast) && s.stop && Spared(s, Only(id)) == 0
    ensures var e := End(s, run, failFast);
            && e.stop
            && (forall w :: 0 <= w < |e.workers| ==>
                  e.workers[w] != Going(id) && e.workers[w] != Waiting(id) && e.workers[w] != Running(id))
            && (forall r :: r in e.channel || r in e.filed ==> r.id == id ==> r.status == Skipped)
  {
    RunSpares(s, run, failFast, Only(id));
    var e := End(s, run, failFast);
    NoneSpared(e.workers, Only(id));
    AllSkipped(e.channel, Only(id));
    AllSkipped(e.filed, Only(id));
  }

  /** Such a test, still in the queue when the flag is set, ends up filed as skipped. */
  lemma QueuedAtStopIsSkipped(s: State, run: seq<Step>, failFast: bool, id: string)
    requires Possible(s, run, failFast) && s.stop && Spared(s, Only(id)) == 0 && id in s.queue
    requires s.workers != [] && Closing(s, |s.workers|) && Over(End(s, run, failFast))
    ensures Result(id, Skipped) in End(s, run, failFast).filed
  {
    var e := End(s, run, failFast);
    NothingRunsAfterStop(s, run, failFast, id);
    RunConserves(s, run, failFast, Only(id));
    RunClosing(s, run, failFast, |s.workers|);
    QueuedIff(s.queue, id);
    assert e.workers[0].Left? && e.queue == [];
    NoneInHand(e.workers, Only(id));
    SomeSent(e.filed, id);
  }

  lemma {:induction false} SomeSent(rs: seq<Result>, id: string)
    requires 0 < Sent(rs, Only(id))
    ensures exists r :: r in rs && r.id == id
  {
    if rs[0].id != id {
      SomeSent(rs[1..], id);
    }
  }

  lemma {:induction false} NoneSpared(ws: seq<Worker>, p: Choice)
    requires AllPastFlag(ws, p) == 0
    ensures forall w :: 0 <= w < |ws| ==> PastFlag(ws[w], p) == 0
  {
    if ws != [] {
      NoneSpared(ws[1..], p);
      assert forall w :: 1 <= w < |ws| ==> ws[w] == ws[1..][w - 1];
    }
  }

  lemma {:induction false} AllSkipped(rs: seq<Result>, p: Choice)
    requires Unskipped(rs, p) == 0
    ensures forall r :: r in rs && p(r.id) ==> r.status == Skipped
  {
    if rs != [] {
      AllSkipped(rs[1..], p);
      assert rs == [rs[0]] + rs[1..];
    }
  }

  /** The flag tells of a failure, and with `failFast` a failure raises it: every test that ran and
      failed has its worker on the way to the flag until the flag is set. */
  ghost predicate FlagTells(s: State, failFast: bool) {
    && (s.stop ==> failFast && SomeFailed(s))
    && (forall w :: 0 <= w < |s.workers| && s.workers[w].Raising? ==> failFast && SomeFailed(s))
    && (failFast && SomeFailed(s) ==> s.stop || exists w :: 0 <= w < |s.workers| && s.workers[w].Raising?)
    && (forall w :: 0 <= w < |s.workers| && s.workers[w].Sending? && s.workers[w].result.status.Failed? ==>
          s.workers[w].ran)
  }

  ghost predicate SomeFailed(s: State) {
    exists r :: (r in s.channel || r in s.filed) && r.status.Failed?
  }

  lemma FlagTellsOn(s: State, t: Step, failFast: bool)
    requires Enabled(s, t, failFast) && FlagTells(s, failFast)
    ensures FlagTells(Next(s, t, failFast), failFast)
  {
    var s' := Next(s, t, failFast);
    SomeFailedOn(s, t, failFast);
    hide SomeFailed;
    if failFast && SomeFailed(s') && !s'.stop {
      if t.Send? && !SomeFailed(s) {
        assert s'.workers[t.w].Raising?;
      } else {
        var w :| 0 <= w < |s.workers| && s.workers[w].Raising?;
        assert s'.workers[w].Raising?;
      }
    }
  }

  lemma SomeFailedOn(s: State, t: Step, failFast: bool)
    requires Enabled(s, t, failFast)
    ensures SomeFailed(Next(s, t, failFast)) <==>
              SomeFailed(s) || (t.Send? && s.workers[t.w].result.status.Failed?)
    ensures t.CollectorRaises? ==> SomeFailed(s)
  {
    var s' := Next(s, t, failFast);
    match t
    case Collect =>
      assert s.channel == [s.channel[0]] + s.channel[1..];
      assert forall r :: r in s'.channel || r in s'.filed <==> r in s.channel || r in s.filed;
    case Send(w) =>
      assert s'.channel == s.channel + [s.workers[w].result];
      assert s.workers[w].result in s'.channel;
    case CollectorRaises =>
      var i :| 0 <= i < |s.filed| && s.filed[i].status.Failed?;
      assert s.filed[i] in s.filed;
    case _ =>
  }

  lemma {:induction false} FlagTellsAlways(s: State, run: seq<Step>, failFast: bool)
    requires Possible(s, run, failFast) && FlagTells(s, failFast)
    ensures FlagTells(End(s, run, failFast), failFast)
    decreases |run|
  {
    if run != [] {
      FlagTellsOn(s, run[0], failFast);
      hide Next, FlagTells;
      FlagTellsAlways(Next(s, run[0], failFast), run[1..], failFast);
    }
  }

  /** The flag is set exactly for failures: never without `failFast` or before a failed test was
      sent, and by the end of every `failFast` run in which a test is filed as failed. */
  lemma FlagIff(tests: seq<string>, workers: nat, run: seq<Step>, failFast: bool)
    requires Possible(Start(tests, workers), run, failFast)
    ensures var e := End(Start(tests, workers), run, failFast);
            e.stop ==> failFast && exists r :: (r in e.channel || r in e.filed) && r.status.Failed?
    ensures var e := End(Start(tests, workers), run, failFast);
            Over(e) ==> (e.stop <==> failFast && exists r :: r in e.filed && r.status.Failed?)
  {
    FlagTellsAlways(Start(tests, workers), run, failFast);
    hide Possible, End;
  }

  /** A test runs only by going through all three gates, in this order: the flag is not set, the user
      has not skipped it, and a slot was had. A worker takes up nothing but the head of the queue. */
  lemma OnlyThroughTheGates(s: State, t: Step, failFast: bool, w: nat)
    requires Enabled(s, t, failFast) && w < |s.workers|
    ensures var x, x' := s.workers[w], Next(s, t, failFast).workers[w];
            && (x != x' && x'.Took? ==> x.Idle? && t == Take(w) && s.queue != [] && x'.id == s.queue[0])
            && (x != x' && x'.Going? ==> x == Took(x'.id) && t == ReadStop(w) && !s.stop)
            && (x != x' && x'.Waiting? ==> x == Going(x'.id) && t == ReadSkip(w, false))
            && (x != x' && x'.Running? ==> x == Waiting(x'.id) && t == GetSlot(w, false))
            && (x != x' && x'.Sending? ==> Given(s, t) == [x'.result] && (x'.ran <==> t.Finish?))
            && (x != x' && x'.Left? ==> x.Idle? && s.queue == [])
  {
  }

  /** The collector may raise the flag as soon as it has filed a failure, if it is to be raised at all. */
  lemma CollectorMayRaise(s: State, failFast: bool)
    ensures Enabled(s, CollectorRaises, failFast) <==>
              failFast && !s.stop && exists r :: r in s.filed && r.status.Failed?
  {
    if r :| r in s.filed && r.status.Failed? {
      var i :| 0 <= i < |s.filed| && s.filed[i] == r;
    }
    if i :| 0 <= i < |s.filed| && s.filed[i].status.Failed? {
      assert s.filed[i] in s.filed;
    }
  }
}
