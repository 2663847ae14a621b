/** Runs of asynchronous native calls that end badly, or better than they should, step by step. All
    are of three functions; the arguments of the calls are zeros, but for the last run. */
module AsyncRuns {
  import opened Bytes
  import Rec = AsyncCall
  import opened AsyncCallProofs
  import opened AsyncService
  import opened AsyncSystem
  import opened AsyncResults
  import opened AsyncOutcome
  import opened AsyncBlocking

  type Three = s: seq<Rec.State> | |s| == 3 witness [Rec.Start(0), Rec.Start(0), Rec.Start(0)]

  const FPTRS: map<Rid, Rec.Function> := map[0 := 10, 1 := 11, 2 := 12]

  function Records(qs: Three): map<Rid, Rec.State> {
    map[0 := qs[0], 1 := qs[1], 2 := qs[2]]
  }

  /** The run so far ends in this state. */
  ghost predicate RunTo(t: Trace, at: Where, qs: Three) {
    Run(t) && t.fptrs == FPTRS && t.states[|t.events|] == Sys(Records(qs), at)
  }

  /** One run goes on where the other ends. */
  ghost predicate Extends(t': Trace, t: Trace) {
    t.events <= t'.events && t.states <= t'.states
  }

  lemma Extend(t: Trace, at: Where, qs: Three, e: Event, at': Where, qs': Three) returns (t': Trace)
    requires RunTo(t, at, qs) && Enabled(Sys(Records(qs), at), e)
    requires Step(Sys(Records(qs), at), e) == Sys(Records(qs'), at')
    ensures RunTo(t', at', qs') && Extends(t', t) && t'.events == t.events + [e]
  {
    t' := Trace(t.fptrs, t.states + [Sys(Records(qs'), at')], t.events + [e]);
    forall i | 0 <= i < |t'.events| ensures Follows(t', i) {
      if i < |t.events| { assert Follows(t, i); }
    }
  }

  lemma NoEvents() returns (t: Trace)
    ensures RunTo(t, Free, [Rec.Start(10), Rec.Start(11), Rec.Start(12)]) && t.events == []
  {
    t := Trace(FPTRS, [Start(FPTRS)], []);
    assert Start(FPTRS).recs == Records([Rec.Start(10), Rec.Start(11), Rec.Start(12)]);
  }

  function AfterScript(at: Where, q: Rec.State, e: Rec.Event): Where
    requires at.In?
  {
    if !e.Return? then at
    else if at.waitsFor.Some? && q.promise.Some? then Stranded(at.waitsFor.value) else Free
  }

  lemma ByScript(t: Trace, r: Rid, w: Option<Rid>, qs: Three, e: Rec.Event, q': Rec.State) returns (t': Trace)
    requires RunTo(t, In(r, w), qs) && r < 3 && IsCallerStep(e) && Rec.Enabled(qs[r], e) && q' == Rec.Step(qs[r], e)
    ensures RunTo(t', AfterScript(In(r, w), qs[r], e), qs[r := q']) && Extends(t', t)
    ensures t'.events == t.events + [Script(e)]
  {
    assert Records(qs)[r := q'] == Records(qs[r := q']);
    t' := Extend(t, In(r, w), qs, Script(e), AfterScript(In(r, w), qs[r], e), qs[r := q']);
  }

  lemma ByWorker(t: Trace, at: Where, r: Rid, qs: Three, e: Rec.Event, q': Rec.State) returns (t': Trace)
    requires RunTo(t, at, qs) && r < 3 && IsWorkerStep(e) && Rec.Enabled(qs[r], e) && q' == Rec.Step(qs[r], e)
    ensures RunTo(t', at, qs[r := q']) && Extends(t', t)
    ensures t'.events == t.events + [Worker(r, e)]
  {
    assert Records(qs)[r := q'] == Records(qs[r := q']);
    t' := Extend(t, at, qs, Worker(r, e), at, qs[r := q']);
  }

  // ---------- one call, step by step ----------

  /** A call of nothing but zeros: without arguments, or redirected with the function object alone. */
  predicate Simple(c: Rec.Call) {
    c.args == if c.redirected then [0] else []
  }

  /** The record b in the middle of call c. */
  function Stage(b: Rec.State, c: Rec.Call, script: Rec.ScriptAt, worker: Rec.WorkerAt, offered: nat,
                 started: nat): Rec.State {
    var id := |b.accepted|;
    b.(script := script, worker := worker, workAvailable := offered, workStarted := started,
       promise := if c.promised then Some(id) else None, redirection := RedirectionOf(c), vars := Rec.InFrame(id),
       frame := if script.Idle? then None else Some(Rec.Frame(id, c.args)), accepted := b.accepted + [c])
  }

  /** The script thread writes the arguments and offers the call. */
  lemma Offer(t: Trace, r: Rid, w: Option<Rid>, qs: Three, b: Rec.State, c: Rec.Call, worker: Rec.WorkerAt)
      returns (t': Trace)
    requires r < 3 && Simple(c) && qs[r] == Stage(b, c, Rec.Filling(0), worker, 0, 0) && RunTo(t, In(r, w), qs)
    ensures RunTo(t', In(r, w), qs[r := Stage(b, c, Rec.AwaitStart, worker, 1, 0)]) && Extends(t', t)
    ensures |t'.events| == |t.events| + (if c.redirected then 3 else 2)
  {
    t' := t;
    var q := Stage(b, c, Rec.Filling(0), worker, 0, 0);
    if c.redirected {
      assert c.args[0 := c.args[0]] == c.args;
      q := Stage(b, c, Rec.Filling(1), worker, 0, 0);
      t' := ByScript(t', r, w, qs, Rec.Fill, q);
    }
    var posting := Stage(b, c, Rec.Posting, worker, 0, 0);
    t' := ByScript(t', r, w, qs[r := q], Rec.Fill, posting);
    assert qs[r := q][r := posting] == qs[r := posting];
    var offered := Stage(b, c, Rec.AwaitStart, worker, 1, 0);
    t' := ByScript(t', r, w, qs[r := posting], Rec.Post, offered);
    assert qs[r := posting][r := offered] == qs[r := offered];
  }

  /** The worker takes it, finding no arguments to copy. */
  lemma TakeOver(t: Trace, r: Rid, w: Option<Rid>, qs: Three, b: Rec.State, c: Rec.Call) returns (t': Trace)
    requires r < 3 && Simple(c) && qs[r] == Stage(b, c, Rec.AwaitStart, Rec.Waiting, 1, 0) && RunTo(t, In(r, w), qs)
    ensures RunTo(t', In(r, w), qs[r := Stage(b, c, Rec.AwaitStart, Rec.Invoking([], c.redirected), 0, 1)])
        && Extends(t', t)
    ensures |t'.events| == |t.events| + 3
  {
    var copying := Stage(b, c, Rec.AwaitStart, Rec.Copying(if c.redirected then 1 else 0, [], c.redirected), 0, 0);
    t' := ByWorker(t, In(r, w), r, qs, Rec.Take, copying);
    var announcing := Stage(b, c, Rec.AwaitStart, Rec.Announcing([], c.redirected), 0, 0);
    t' := ByWorker(t', In(r, w), r, qs[r := copying], Rec.Copy, announcing);
    assert qs[r := copying][r := announcing] == qs[r := announcing];
    var invoking := Stage(b, c, Rec.AwaitStart, Rec.Invoking([], c.redirected), 0, 1);
    t' := ByWorker(t', In(r, w), r, qs[r := announcing], Rec.Announce, invoking);
    assert qs[r := announcing][r := invoking] == qs[r := invoking];
  }

  /** And the script thread leaves the call. */
  lemma Leave(t: Trace, r: Rid, w: Option<Rid>, qs: Three, b: Rec.State, c: Rec.Call) returns (t': Trace)
    requires r < 3 && qs[r] == Stage(b, c, Rec.AwaitStart, Rec.Invoking([], c.redirected), 0, 1)
        && RunTo(t, In(r, w), qs)
    ensures RunTo(t', if w.Some? && c.promised then Stranded(w.value) else Free,
                  qs[r := Stage(b, c, Rec.Idle, Rec.Invoking([], c.redirected), 0, 0)])
    ensures Extends(t', t) && |t'.events| == |t.events| + 2 && t'.events[|t.events| + 1] == Script(Rec.Return)
  {
    var returning := Stage(b, c, Rec.Returning, Rec.Invoking([], c.redirected), 0, 0);
    t' := ByScript(t, r, w, qs, Rec.Started, returning);
    var left := Stage(b, c, Rec.Idle, Rec.Invoking([], c.redirected), 0, 0);
    t' := ByScript(t', r, w, qs[r := returning], Rec.Return, left);
    assert qs[r := returning][r := left] == qs[r := left];
  }

  /** All of that. */
  lemma HandOver(t: Trace, r: Rid, w: Option<Rid>, qs: Three, b: Rec.State, c: Rec.Call) returns (t': Trace)
    requires r < 3 && Simple(c) && qs[r] == Stage(b, c, Rec.Filling(0), Rec.Waiting, 0, 0) && RunTo(t, In(r, w), qs)
    ensures RunTo(t', if w.Some? && c.promised then Stranded(w.value) else Free,
                  qs[r := Stage(b, c, Rec.Idle, Rec.Invoking([], c.redirected), 0, 0)])
    ensures Extends(t', t) && |t'.events| == |t.events| + (if c.redirected then 8 else 7)
    ensures t'.events[|t'.events| - 1] == Script(Rec.Return)
  {
    t' := Offer(t, r, w, qs, b, c, Rec.Waiting);
    var offered := Stage(b, c, Rec.AwaitStart, Rec.Waiting, 1, 0);
    t' := TakeOver(t', r, w, qs[r := offered], b, c);
    var taken := Stage(b, c, Rec.AwaitStart, Rec.Invoking([], c.redirected), 0, 1);
    assert qs[r := offered][r := taken] == qs[r := taken];
    t' := Leave(t', r, w, qs[r := taken], b, c);
    var left := Stage(b, c, Rec.Idle, Rec.Invoking([], c.redirected), 0, 0);
    assert qs[r := taken][r := left] == qs[r := left];
  }

  /** The record that a call is made on, its flag set if the call is a blocking one of its own. */
  function Begun(q: Rec.State, c: Rec.Call, raises: bool): Rec.State {
    Stage(q.(waiting := q.waiting || raises), c, Rec.Filling(0), q.worker, 0, 0)
  }

  predicate Callable(q: Rec.State) {
    q.script.Idle? && q.promise.None? && q.workAvailable == 0 && q.workStarted == 0
  }

  lemma BeginIsBegun(q: Rec.State, c: Rec.Call, raises: bool)
    requires Callable(q) && Simple(c) && (c.redirected || c.target == q.fptr) && c.promised == !(q.waiting || raises)
    ensures var e := Rec.Begin(c.target, c.args, c.redirected, raises);
            Rec.Enabled(q, e) && Rec.Step(q, e) == Begun(q, c, raises)
  {
    assert seq(|c.args|, _ => 0) == c.args;
  }

  /** A call on the function's own record. */
  lemma OwnCall(t: Trace, qs: Three, r: Rid, c: Rec.Call, waits: bool) returns (t': Trace)
    requires RunTo(t, Free, qs) && r < 3 && Callable(qs[r])
    requires c == Rec.Call(qs[r].fptr, [], false, !(qs[r].waiting || waits))
    ensures RunTo(t', In(r, if waits then Some(r) else None), qs[r := Begun(qs[r], c, waits)])
    ensures Extends(t', t) && t'.events == t.events + [AsyncSystem.Invoke(r, r, [], false, waits)]
  {
    BeginIsBegun(qs[r], c, waits);
    assert Records(qs)[r := Begun(qs[r], c, waits)] == Records(qs[r := Begun(qs[r], c, waits)]);
    t' := Extend(t, Free, qs, AsyncSystem.Invoke(r, r, [], false, waits), In(r, if waits then Some(r) else None),
                 qs[r := Begun(qs[r], c, waits)]);
  }

  /** A blocking call of r's function, redirected to another record. */
  lemma ForeignCall(t: Trace, qs: Three, x: Rid, r: Rid, c: Rec.Call) returns (t': Trace)
    requires RunTo(t, Free, qs) && x < 3 && r < 3 && x != r && Callable(qs[r]) && qs[x].script.Idle?
    requires c == Rec.Call(qs[x].fptr, [0], true, !qs[r].waiting)
    ensures RunTo(t', In(r, Some(x)), qs[x := qs[x].(waiting := true)][r := Begun(qs[r], c, false)])
    ensures Extends(t', t) && t'.events == t.events + [AsyncSystem.Invoke(x, r, [0], true, true)]
  {
    var q', x' := Begun(qs[r], c, false), qs[x].(waiting := true);
    ForeignStep(qs, x, r, c);
    t' := Extend(t, Free, qs, AsyncSystem.Invoke(x, r, [0], true, true), In(r, Some(x)), qs[x := x'][r := q']);
  }

  lemma ForeignStep(qs: Three, x: Rid, r: Rid, c: Rec.Call)
    requires x < 3 && r < 3 && x != r && Callable(qs[r]) && qs[x].script.Idle?
    requires c == Rec.Call(qs[x].fptr, [0], true, !qs[r].waiting)
    ensures var s, e := Sys(Records(qs), Free), AsyncSystem.Invoke(x, r, [0], true, true);
            && Enabled(s, e)
            && Step(s, e) == Sys(Records(qs[x := qs[x].(waiting := true)][r := Begun(qs[r], c, false)]), In(r, Some(x)))
  {
    BeginIsBegun(qs[r], c, false);
    var q', x' := Begun(qs[r], c, false), qs[x].(waiting := true);
    assert Records(qs)[x := x'][r := q'] == Records(qs[x := x'][r := q']);
  }

  /** A blocking call of r's function that is not accepted. */
  lemma VainCall(t: Trace, qs: Three, r: Rid, e: Event) returns (t': Trace)
    requires RunTo(t, Free, qs) && r < 3 && qs[r].script.Idle?
    requires e == TooMany(r, true) || (e == Refuse(r, r, true) && qs[r].promise.Some?)
    ensures RunTo(t', Free, qs[r := qs[r].(waiting := true)]) && Extends(t', t) && t'.events == t.events + [e]
  {
    assert Records(qs)[r := qs[r].(waiting := true)] == Records(qs[r := qs[r].(waiting := true)]);
    t' := Extend(t, Free, qs, e, Free, qs[r := qs[r].(waiting := true)]);
  }

  // ---------- the worker's part ----------

  /** The record after its worker has run the function of a call and stored the result. */
  function Ran(q: Rec.State, v: int): Rec.State
    requires q.worker.Invoking?
  {
    var x := if q.redirection.Some?
             then Rec.Invocation(q.redirection.value, true, q.worker.skipped, q.worker.copied, v)
             else Rec.Invocation(q.fptr, false, q.worker.skipped, q.worker.copied, v);
    q.(worker := Rec.Reporting, vars := Rec.Result(v), redirection := None, executed := q.executed + [x])
  }

  lemma Runs(t: Trace, at: Where, r: Rid, qs: Three, v: int) returns (t': Trace)
    requires RunTo(t, at, qs) && r < 3 && qs[r].worker.Invoking?
    ensures RunTo(t', at, qs[r := Ran(qs[r], v)]) && Extends(t', t)
    ensures |t'.events| == |t.events| + (if qs[r].redirection.Some? then 3 else 2)
  {
    var q1 := Rec.Step(qs[r], Rec.Invoke(v));
    t' := ByWorker(t, at, r, qs, Rec.Invoke(v), q1);
    var q2 := Rec.Step(q1, Rec.Store);
    t' := ByWorker(t', at, r, qs[r := q1], Rec.Store, q2);
    assert qs[r := q1][r := q2] == qs[r := q2];
    if q2.worker.Clearing? {
      var q3 := Rec.Step(q2, Rec.Clear);
      t' := ByWorker(t', at, r, qs[r := q2], Rec.Clear, q3);
      assert qs[r := q2][r := q3] == qs[r := q3];
    }
  }

  /** The record after its worker has reported a call by a post. */
  function Posted(q: Rec.State): Rec.State {
    q.(worker := Rec.Waiting, waiting := false, reports := q.reports + [true], workFinished := q.workFinished + 1)
  }

  lemma Posts(t: Trace, at: Where, r: Rid, qs: Three) returns (t': Trace)
    requires RunTo(t, at, qs) && r < 3 && qs[r].worker.Reporting? && qs[r].waiting
    ensures RunTo(t', at, qs[r := Posted(qs[r])]) && Extends(t', t) && |t'.events| == |t.events| + 2
  {
    var q1 := Rec.Step(qs[r], Rec.Report);
    t' := ByWorker(t, at, r, qs, Rec.Report, q1);
    t' := ByWorker(t', at, r, qs[r := q1], Rec.Signal, Posted(qs[r]));
    assert qs[r := q1][r := Posted(qs[r])] == qs[r := Posted(qs[r])];
  }

  // ---------- blocked for ever ----------

  lemma ForeignCallHandedOver() returns (t: Trace, qs: Three)
    ensures RunTo(t, Stranded(0), qs) && |t.events| == 9 && t.events[0] == AsyncSystem.Invoke(0, 1, [0], true, true)
    ensures qs == [Rec.Start(10).(waiting := true),
                   Stage(Rec.Start(11), Rec.Call(10, [0], true, true), Rec.Idle, Rec.Invoking([], true), 0, 0),
                   Rec.Start(12)]
  {
    t := NoEvents();
    qs := [Rec.Start(10), Rec.Start(11), Rec.Start(12)];
    var c := Rec.Call(10, [0], true, true);
    t := ForeignCall(t, qs, 0, 1, c);
    qs := [Rec.Start(10).(waiting := true), Begun(Rec.Start(11), c, false), Rec.Start(12)];
    t := HandOver(t, 1, Some(0), qs, Rec.Start(11), c);
    qs := qs[1 := Stage(Rec.Start(11), c, Rec.Idle, Rec.Invoking([], true), 0, 0)];
  }

  /** A blocking call on record 0, redirected to record 1. The native function runs and returns 5, the
      promise waits to be resolved, and no thread can ever move again. */
  lemma ForeignWaitDeadlocks() returns (t: Trace)
    ensures Run(t) && |t.events| == 13 && t.events[0] == AsyncSystem.Invoke(0, 1, [0], true, true)
    ensures 1 in t.states[13].recs
    ensures var q := t.states[13].recs[1];
            q.executed == [Rec.Invocation(10, true, true, [], 5)] && q.promise == Some(0) && q.dispatches == 1
                && q.delivered == []
    ensures forall e :: !Enabled(t.states[13], e)
  {
    var qs: Three;
    t, qs := ForeignCallHandedOver();
    t := Runs(t, Stranded(0), 1, qs, 5);
    var q := Ran(qs[1], 5);
    var q' := q.(worker := Rec.Waiting, reports := [false], dispatches := 1);
    t := ByWorker(t, Stranded(0), 1, qs[1 := q], Rec.Report, q');
    assert qs[1 := q][1 := q'] == [qs[0], q', qs[2]];
  }

  // ---------- calls over an abandoned one ----------

  const OWN: Rec.Call := Rec.Call(10, [], false, false)

  /** A blocking call on record 0 has ended in an error before its function has run. */
  lemma Abandoned() returns (t: Trace, qs: Three)
    ensures RunTo(t, Free, qs) && |t.events| == 8
    ensures qs == [Stage(Rec.Start(10).(waiting := true), OWN, Rec.Idle, Rec.Invoking([], false), 0, 0),
                   Rec.Start(11), Rec.Start(12)]
  {
    t := NoEvents();
    qs := [Rec.Start(10), Rec.Start(11), Rec.Start(12)];
    t := OwnCall(t, qs, 0, OWN, true);
    var b := Rec.Start(10).(waiting := true);
    qs := qs[0 := Begun(Rec.Start(10), OWN, true)];
    t := HandOver(t, 0, Some(0), qs, b, OWN);
    qs := qs[0 := Stage(b, OWN, Rec.Idle, Rec.Invoking([], false), 0, 0)];
  }

  /** The same call, when its worker has posted for nobody. */
  lemma LeftOver() returns (t: Trace, qs: Three)
    ensures RunTo(t, Free, qs) && |t.events| == 12
    ensures qs == [Posted(Ran(Stage(Rec.Start(10).(waiting := true), OWN, Rec.Idle, Rec.Invoking([], false), 0, 0), 7)),
                   Rec.Start(11), Rec.Start(12)]
  {
    t, qs := Abandoned();
    t := Runs(t, Free, 0, qs, 7);
    qs := qs[0 := Ran(qs[0], 7)];
    t := Posts(t, Free, 0, qs);
    qs := qs[0 := Posted(qs[0])];
  }

  /** A second one is made before the function of the first has run: the worker stores the first
      result over the arguments of the second, and then takes it for them. */
  lemma OverlapLosesArguments() returns (t: Trace)
    ensures Run(t) && 0 in t.states[|t.events|].recs && t.states[|t.events|].recs[0].fault
    ensures |t.events| > 8 && Clobbered(t.states[8], t.events[8], 0)
  {
    var qs: Three;
    t, qs := Abandoned();
    var b := qs[0];
    t := OwnCall(t, qs, 0, OWN, true);
    t := Offer(t, 0, Some(0), qs[0 := Begun(b, OWN, true)], b, OWN, Rec.Invoking([], false));
    var q := Stage(b, OWN, Rec.AwaitStart, Rec.Invoking([], false), 1, 0);
    assert qs[0 := Begun(b, OWN, true)][0 := q] == qs[0 := q];
    t := Runs(t, In(0, Some(0)), 0, qs[0 := q], 7);
    assert qs[0 := q][0 := Ran(q, 7)] == qs[0 := Ran(q, 7)];
    t := TakesResult(t, qs[0 := Ran(q, 7)]);
  }

  lemma TakesResult(t: Trace, qs: Three) returns (t': Trace)
    requires RunTo(t, In(0, Some(0)), qs) && qs[0].worker.Reporting? && qs[0].waiting && qs[0].vars.Result?
    requires qs[0].workAvailable == 1 && qs[0].redirection.None?
    ensures Run(t') && Extends(t', t) && 0 in t'.states[|t'.events|].recs && t'.states[|t'.events|].recs[0].fault
  {
    var q := Posted(qs[0]);
    t' := Posts(t, In(0, Some(0)), 0, qs);
    var q1 := q.(workAvailable := 0, worker := Rec.Copying(0, [], false));
    t' := ByWorker(t', In(0, Some(0)), 0, qs[0 := q], Rec.Take, q1);
    var q2 := q1.(fault := true, worker := Rec.Announcing([], false));
    t' := ByWorker(t', In(0, Some(0)), 0, qs[0 := q][0 := q1], Rec.Copy, q2);
  }

  /** A second one is made when the first result is stored and not reported. The report clears the flag
      it relies on; but a third blocking call, with too many parameters, sets it again in time, and
      both calls are served as they should be. */
  lemma OverlapMadeGood() returns (t: Trace)
    ensures Run(t) && Overlapped(t, |t.events|, 0) && 0 in t.states[|t.events|].recs
    ensures AtRest(t.states[|t.events|].recs[0]) && AllCallsServed(t, |t.events|, 0)
    ensures !UndisturbedUntil(t, |t.events|, 0)
  {
    var qs: Three;
    t, qs := Abandoned();
    t := Runs(t, Free, 0, qs, 7);
    qs := qs[0 := Ran(qs[0], 7)];
    var b := qs[0];
    assert t.states[10] == Sys(Records(qs), Free);
    t := OwnCall(t, qs, 0, OWN, true);
    assert Overlapping(t.states[10], t.events[10], 0);
    qs := qs[0 := Begun(b, OWN, true)];
    t := SecondServed(t, qs, b);
    LogsAreOfTheRun(t, |t.events|, 0);
  }

  lemma SecondServed(t: Trace, qs: Three, b: Rec.State) returns (t': Trace)
    requires RunTo(t, In(0, Some(0)), qs) && qs[0] == Begun(b, OWN, true) && b.waiting && b.worker.Reporting?
    requires b.accepted == [OWN] && b.executed == [Rec.Invocation(10, false, false, [], 7)] && b.reports == []
    requires !b.fault && b.delivered == [] && b.dispatches == 0 && b.fptr == 10 && b.workAvailable == 0
        && b.workStarted == 0
    ensures Run(t') && t'.fptrs == FPTRS && Extends(t', t) && 0 in t'.states[|t'.events|].recs
    ensures var q := t'.states[|t'.events|].recs[0];
            AtRest(q) && AllServed(q, q.accepted, Returned(q.executed))
    ensures |t'.events| > |t.events| + 9 && t'.events[|t.events| + 9] == TooMany(0, true)
  {
    t' := Posts(t, In(0, Some(0)), 0, qs);
    var b' := Posted(b.(waiting := true));
    var q := Stage(b', OWN, Rec.Filling(0), Rec.Waiting, 0, 0);
    assert Posted(qs[0]) == q;
    t' := HandOver(t', 0, Some(0), qs[0 := q], b', OWN);
    var q1 := Stage(b', OWN, Rec.Idle, Rec.Invoking([], false), 0, 0);
    assert qs[0 := q][0 := q1] == qs[0 := q1];
    t' := VainCall(t', qs[0 := q1], 0, TooMany(0, true));
    var q2 := q1.(waiting := true);
    assert qs[0 := q1][0 := q2] == qs[0 := q2];
    t' := RunsAndPosts(t', qs[0 := q2]);
  }

  lemma RunsAndPosts(t: Trace, qs: Three) returns (t': Trace)
    requires RunTo(t, Free, qs) && qs[0].worker == Rec.Invoking([], false) && qs[0].waiting && qs[0].redirection.None?
    ensures RunTo(t', Free, qs[0 := Posted(Ran(qs[0], 8))]) && Extends(t', t) && |t'.events| == |t.events| + 4
  {
    t' := Runs(t, Free, 0, qs, 8);
    t' := Posts(t', Free, 0, qs[0 := Ran(qs[0], 8)]);
    assert qs[0 := Ran(qs[0], 8)][0 := Posted(Ran(qs[0], 8))] == qs[0 := Posted(Ran(qs[0], 8))];
  }

  // ---------- a flag left set ----------

  /** A blocking call of record 0 has returned from record 1 on the post that an abandoned one left. */
  lemma ReturnedOnOldPost() returns (t: Trace, qs: Three)
    ensures RunTo(t, Free, qs) && |t.events| == 22
    ensures qs[0].waiting && Callable(qs[0]) && qs[0].worker.Waiting? && qs[2] == Rec.Start(12)
  {
    t, qs := LeftOver();
    var c, y := Rec.Call(10, [0], true, true), qs[0].(waiting := true);
    t := ForeignCall(t, qs, 0, 1, c);
    qs := [y, Begun(Rec.Start(11), c, false), qs[2]];
    t := HandOver(t, 1, Some(0), qs, Rec.Start(11), c);
    qs := qs[1 := Stage(Rec.Start(11), c, Rec.Idle, Rec.Invoking([], true), 0, 0)];
    assert Records(qs)[0 := Rec.Step(y, Rec.Consume)] == Records(qs[0 := Rec.Step(y, Rec.Consume)]);
    t := Extend(t, Stranded(0), qs, Wake, Free, qs[0 := Rec.Step(y, Rec.Consume)]);
    qs := qs[0 := Rec.Step(y, Rec.Consume)];
  }

  /** That leaves the flag of record 0 set. A blocking call of record 2, redirected to record 0, with
      nothing left over on its own record, now makes no promise and ends in an error. */
  lemma FlaggedCalleeThrows() returns (t: Trace)
    ensures Run(t) && |t.events| == 31 && t.events[22] == AsyncSystem.Invoke(2, 0, [0], true, true)
    ensures NothingLeftOver(t.states[22], 2) && 0 in t.states[22].recs && t.states[22].recs[0].waiting
    ensures t.events[30] == Script(Rec.Return) && t.states[31].at.Free?
  {
    var qs: Three;
    t, qs := ReturnedOnOldPost();
    var y, c := qs[0], Rec.Call(12, [0], true, false);
    assert t.states[22] == Sys(Records(qs), Free);
    t := ForeignCall(t, qs, 2, 0, c);
    qs := qs[2 := qs[2].(waiting := true)][0 := Begun(y, c, false)];
    t := HandOver(t, 0, Some(2), qs, y, c);
  }

  /** A blocking call made while an earlier promise of the same function is pending is refused, but
      the flag it has set makes the worker post instead of having the promise resolved. */
  lemma RefusedWaitLosesPromise() returns (t: Trace)
    ensures Run(t) && |t.events| == 13 && t.events[8] == Refuse(0, 0, true) && 0 in t.states[13].recs
    ensures var q := t.states[13].recs[0];
            AtRest(q) && |q.accepted| == 1 && q.accepted[0].promised && q.promise == Some(0) && q.delivered == []
  {
    t := NoEvents();
    var qs: Three := [Rec.Start(10), Rec.Start(11), Rec.Start(12)];
    var c := Rec.Call(10, [], false, true);
    t := OwnCall(t, qs, 0, c, false);
    qs := qs[0 := Begun(Rec.Start(10), c, false)];
    t := HandOver(t, 0, None, qs, Rec.Start(10), c);
    qs := qs[0 := Stage(Rec.Start(10), c, Rec.Idle, Rec.Invoking([], false), 0, 0)];
    t := VainCall(t, qs, 0, Refuse(0, 0, true));
    qs := qs[0 := qs[0].(waiting := true)];
    t := RunsAndPosts(t, qs);
  }

  // ---------- as it should be ----------

  /** A plain call of record 0 on the argument 7, after it was accepted. */
  function OnSeven(script: Rec.ScriptAt, worker: Rec.WorkerAt, word: int, offered: nat, started: nat): Rec.State {
    Rec.State(script, worker, offered, started, 0, Some(0), false, 10, None, Rec.InFrame(0),
              if script.Idle? then None else Some(Rec.Frame(0, [word])), 0, false,
              [Rec.Call(10, [7], false, true)], [], [], [], 0)
  }

  /** The same once the worker has run the function, which returned 5. */
  function RanOnSeven(worker: Rec.WorkerAt, vars: Rec.Vars): Rec.State {
    OnSeven(Rec.Idle, worker, 7, 0, 0).(vars := vars, executed := [Rec.Invocation(10, false, false, [7], 5)])
  }

  function First(q: Rec.State): Three {
    [q, Rec.Start(11), Rec.Start(12)]
  }

  lemma FirstMoves(t: Trace, at: Where, q: Rec.State, e: Rec.Event, q': Rec.State) returns (t': Trace)
    requires RunTo(t, at, First(q)) && Rec.Enabled(q, e) && q' == Rec.Step(q, e)
    requires IsWorkerStep(e) || (IsCallerStep(e) && at == In(0, None))
    ensures RunTo(t', if e.Return? then Free else at, First(q'))
    ensures t'.events == t.events + [if IsWorkerStep(e) then Worker(0, e) else Script(e)]
  {
    assert First(q)[0 := q'] == First(q');
    if IsWorkerStep(e) {
      t' := ByWorker(t, at, 0, First(q), e, q');
    } else {
      t' := ByScript(t, 0, None, First(q), e, q');
    }
  }

  lemma SevenBegun() returns (t: Trace)
    ensures RunTo(t, In(0, None), First(OnSeven(Rec.Filling(0), Rec.Waiting, 0, 0, 0)))
    ensures t.events == [AsyncSystem.Invoke(0, 0, [7], false, false)]
  {
    t := NoEvents();
    var q := OnSeven(Rec.Filling(0), Rec.Waiting, 0, 0, 0);
    assert seq(1, _ => 0) == [0];
    assert Rec.Step(Rec.Start(10), Rec.Begin(10, [7], false, false)) == q;
    assert Records(First(Rec.Start(10)))[0 := q] == Records(First(q));
    t := Extend(t, Free, First(Rec.Start(10)), AsyncSystem.Invoke(0, 0, [7], false, false), In(0, None), First(q));
  }

  lemma SevenOffered() returns (t: Trace)
    ensures RunTo(t, In(0, None), First(OnSeven(Rec.AwaitStart, Rec.Waiting, 7, 1, 0)))
    ensures |t.events| == 4 && t.events[0] == AsyncSystem.Invoke(0, 0, [7], false, false)
  {
    t := SevenBegun();
    var q1, q2 := OnSeven(Rec.Filling(1), Rec.Waiting, 7, 0, 0), OnSeven(Rec.Posting, Rec.Waiting, 7, 0, 0);
    assert [0][0 := 7] == [7];
    t := FirstMoves(t, In(0, None), OnSeven(Rec.Filling(0), Rec.Waiting, 0, 0, 0), Rec.Fill, q1);
    t := FirstMoves(t, In(0, None), q1, Rec.Fill, q2);
    t := FirstMoves(t, In(0, None), q2, Rec.Post, OnSeven(Rec.AwaitStart, Rec.Waiting, 7, 1, 0));
  }

  lemma SevenCopied() returns (t: Trace)
    ensures RunTo(t, In(0, None), First(OnSeven(Rec.AwaitStart, Rec.Announcing([7], false), 7, 0, 0)))
    ensures |t.events| == 7 && t.events[0] == AsyncSystem.Invoke(0, 0, [7], false, false)
  {
    t := SevenOffered();
    var q1 := OnSeven(Rec.AwaitStart, Rec.Copying(0, [], false), 7, 0, 0);
    var q2 := OnSeven(Rec.AwaitStart, Rec.Copying(1, [7], false), 7, 0, 0);
    t := FirstMoves(t, In(0, None), OnSeven(Rec.AwaitStart, Rec.Waiting, 7, 1, 0), Rec.Take, q1);
    assert Rec.FrameWords(q1) == Some([7]) && [] + [7] == [7];
    t := FirstMoves(t, In(0, None), q1, Rec.Copy, q2);
    t := FirstMoves(t, In(0, None), q2, Rec.Copy, OnSeven(Rec.AwaitStart, Rec.Announcing([7], false), 7, 0, 0));
  }

  lemma SevenTaken() returns (t: Trace)
    ensures RunTo(t, Free, First(OnSeven(Rec.Idle, Rec.Invoking([7], false), 7, 0, 0)))
    ensures |t.events| == 10 && t.events[0] == AsyncSystem.Invoke(0, 0, [7], false, false)
  {
    t := SevenCopied();
    var q1 := OnSeven(Rec.AwaitStart, Rec.Invoking([7], false), 7, 0, 1);
    var q2 := OnSeven(Rec.Returning, Rec.Invoking([7], false), 7, 0, 0);
    t := FirstMoves(t, In(0, None), OnSeven(Rec.AwaitStart, Rec.Announcing([7], false), 7, 0, 0), Rec.Announce, q1);
    t := FirstMoves(t, In(0, None), q1, Rec.Started, q2);
    t := FirstMoves(t, In(0, None), q2, Rec.Return, OnSeven(Rec.Idle, Rec.Invoking([7], false), 7, 0, 0));
  }

  lemma SevenReported() returns (t: Trace)
    ensures RunTo(t, Free, First(RanOnSeven(Rec.Waiting, Rec.Result(5)).(reports := [false], dispatches := 1)))
    ensures |t.events| == 13 && t.events[0] == AsyncSystem.Invoke(0, 0, [7], false, false)
  {
    t := SevenTaken();
    var q1, q2 := RanOnSeven(Rec.Storing(5, false), Rec.InFrame(0)), RanOnSeven(Rec.Reporting, Rec.Result(5));
    t := FirstMoves(t, Free, OnSeven(Rec.Idle, Rec.Invoking([7], false), 7, 0, 0), Rec.Invoke(5), q1);
    t := FirstMoves(t, Free, q1, Rec.Store, q2);
    t := FirstMoves(t, Free, q2, Rec.Report,
                    RanOnSeven(Rec.Waiting, Rec.Result(5)).(reports := [false], dispatches := 1));
  }

  /** A plain call on one argument: the function runs on that argument, and its promise is resolved
      with the value it returned. */
  lemma PlainCallIsServed() returns (t: Trace)
    ensures Run(t) && |t.events| == 14 && t.events[0] == AsyncSystem.Invoke(0, 0, [7], false, false)
    ensures 0 in t.states[14].recs && t.states[14].at.Free? && AtRest(t.states[14].recs[0])
    ensures t.states[14].recs[0].executed == [Rec.Invocation(10, false, false, [7], 5)]
    ensures t.states[14].recs[0].delivered == [(0, 5)]
  {
    t := SevenReported();
    var q := RanOnSeven(Rec.Waiting, Rec.Result(5)).(reports := [false], dispatches := 1);
    var q' := q.(dispatches := 0, promise := None, delivered := [(0, 5)]);
    assert Rec.Step(q, Rec.Dispatch) == q' by { assert [] + [(0, 5)] == [(0, 5)]; }
    assert Records(First(q))[0 := q'] == Records(First(q'));
    t := Extend(t, Free, First(q), Resolve(0), Free, First(q'));
  }
}
