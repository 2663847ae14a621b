/** What holds of asynchronous native calls in every run: the flag and the promises, the frames, the
    semaphores, and progress. */
module AsyncResults {
  import opened Bytes
  import Rec = AsyncCall
  import opened AsyncCallProofs
  import opened AsyncSystem

  // ---------- waitingForResult and promises ----------

  /** No call is reported on the record between event i and event n. */
  ghost predicate NoReport(t: Trace, i: nat, n: nat, r: Rid)
    requires n <= |t.events|
  {
    forall j :: i < j < n ==> t.events[j] != Worker(r, Rec.Report)
  }

  /** A blocking call of r's function set the flag, and no report on r's record has cleared it. */
  ghost predicate Raised(t: Trace, n: nat, r: Rid)
    requires n <= |t.events|
  {
    exists i :: 0 <= i < n && RaisesFlag(t.events[i], r) && NoReport(t, i, n, r)
  }

  lemma RaisedStep(t: Trace, n: nat, r: Rid)
    requires n < |t.events|
    ensures Raised(t, n + 1, r) <==>
              RaisesFlag(t.events[n], r) || (Raised(t, n, r) && t.events[n] != Worker(r, Rec.Report))
  {
    if RaisesFlag(t.events[n], r) {
      assert NoReport(t, n, n + 1, r);
    } else if Raised(t, n, r) && t.events[n] != Worker(r, Rec.Report) {
      var i :| 0 <= i < n && RaisesFlag(t.events[i], r) && NoReport(t, i, n, r);
      assert NoReport(t, i, n + 1, r);
    }
    if Raised(t, n + 1, r) && !RaisesFlag(t.events[n], r) {
      var i :| 0 <= i < n + 1 && RaisesFlag(t.events[i], r) && NoReport(t, i, n + 1, r);
      assert NoReport(t, i, n, r);
    }
  }

  /** waitingForResult is set exactly from a blocking call of the record's function, whatever became
      of that call and wherever it went, to the next report of a call on the record. */
  lemma {:induction false} FlagIff(t: Trace, n: nat, r: Rid)
    requires Run(t) && n < |t.states| && r in t.fptrs
    ensures r in t.states[n].recs && (t.states[n].recs[r].waiting <==> Raised(t, n, r))
  {
    if n > 0 {
      FlagIff(t, n - 1, r);
      var o := RecordNext(t, n - 1, r);
      KindOnRecord(t.states[n - 1], t.events[n - 1], r);
      if o.Some? { FlagStep(t.states[n - 1].recs[r], o.value); }
      RaisedStep(t, n - 1, r);
    } else {
      RecordAtStart(t, r);
    }
  }

  /** An accepted call makes a promise exactly if it is not a blocking one of the record's own
      function and none has left the flag set. */
  lemma PromiseIff(t: Trace, n: nat)
    requires Run(t) && n < |t.events| && t.events[n].Invoke?
    ensures var r := t.events[n].callee;
            && r in t.fptrs && r in t.states[n + 1].recs
            && (t.states[n + 1].recs[r].promise.Some? <==> !RaisesFlag(t.events[n], r) && !Raised(t, n, r))
  {
    RunKeeps(t, n);
    assert Follows(t, n);
    var r := t.events[n].callee;
    var o := RecordNext(t, n, r);
    FlagIff(t, n, r);
  }

  lemma {:induction false} ReportsStand(t: Trace, i: nat, n: nat, r: Rid)
    requires Run(t) && i < n < |t.states| && r in t.fptrs && NoReport(t, i, n, r)
    ensures r in t.states[i + 1].recs && r in t.states[n].recs
    ensures t.states[n].recs[r].reports == t.states[i + 1].recs[r].reports
  {
    RecordAt(t, n, r);
    if i + 1 < n {
      assert NoReport(t, i, n - 1, r);
      ReportsStand(t, i, n - 1, r);
      var o := RecordNext(t, n - 1, r);
      KindOnRecord(t.states[n - 1], t.events[n - 1], r);
      if o.Some? { OnlyReportReports(t.states[n - 1].recs[r], o.value); }
    }
  }

  lemma OnlyReportReports(q: Rec.State, e: Rec.Event)
    requires Rec.Enabled(q, e) && !e.Report?
    ensures Rec.Step(q, e).reports == q.reports
  {
  }

  /** A blocking call of the record's function that the record did not serve. */
  predicate RaisesInVain(e: Event, r: Rid) {
    RaisesFlag(e, r) && !(e.Invoke? && e.callee == r)
  }

  /** When a record is at rest, the flag is left set exactly if a blocking call of its function went to
      another record, was refused or invalid, and no call was reported on the record since. */
  lemma LeftFlagIff(t: Trace, n: nat, r: Rid)
    requires Run(t) && n < |t.states| && r in t.fptrs
    requires r in t.states[n].recs ==> AtRest(t.states[n].recs[r])
    ensures r in t.states[n].recs
    ensures t.states[n].recs[r].waiting <==>
              exists i :: 0 <= i < n && RaisesInVain(t.events[i], r) && NoReport(t, i, n, r)
  {
    FlagIff(t, n, r);
    if i :| 0 <= i < n && RaisesFlag(t.events[i], r) && NoReport(t, i, n, r) {
      if t.events[i].Invoke? && t.events[i].callee == r {
        RecordAt(t, i, r);
        RecordAt(t, n, r);
        var o := RecordNext(t, i, r);
        RecordAt(t, i + 1, r);
        ReportsStand(t, i, n, r);
        AcceptedGrow(t, i + 1, n, r);
        assert false;
      }
      assert RaisesInVain(t.events[i], r);
    }
  }

  lemma {:induction false} AcceptedGrow(t: Trace, m: nat, n: nat, r: Rid)
    requires Run(t) && m <= n < |t.states| && r in t.fptrs
    ensures r in t.states[m].recs && r in t.states[n].recs
    ensures t.states[m].recs[r].accepted <= t.states[n].recs[r].accepted
  {
    RecordAt(t, n, r);
    if m < n {
      AcceptedGrow(t, m, n - 1, r);
      AcceptedNext(t, n - 1, r);
    }
  }

  lemma AcceptedNext(t: Trace, n: nat, r: Rid)
    requires Run(t) && n < |t.events| && r in t.fptrs
    ensures r in t.states[n].recs && r in t.states[n + 1].recs
    ensures t.states[n].recs[r].accepted <= t.states[n + 1].recs[r].accepted
  {
    var o := RecordNext(t, n, r);
    RecordAt(t, n, r);
    if o.Some? { CallsStayWellFormed(t.states[n].recs[r], o.value); }
  }

  /** The event stores a promise on the record. */
  predicate StoresPromise(s: Sys, e: Event, r: Rid) {
    (e.Invoke? || e.Invalid?) && e.callee == r && r in s.recs && !s.recs[r].waiting && !RaisesFlag(e, r)
  }

  ghost predicate PromiseLeft(t: Trace, n: nat, r: Rid)
    requires n <= |t.events| && n < |t.states|
  {
    exists i :: 0 <= i < n && StoresPromise(t.states[i], t.events[i], r) && NoResolve(t, i, n, r)
  }

  ghost predicate NoResolve(t: Trace, i: nat, n: nat, r: Rid)
    requires n <= |t.events|
  {
    forall j :: i < j < n ==> t.events[j] != Resolve(r)
  }

  lemma PromiseStep(q: Rec.State, e: Rec.Event)
    requires Rec.Enabled(q, e)
    ensures Rec.Step(q, e).promise.Some? <==>
              ((e.Begin? || e.BadCall?) && !q.waiting && !e.raises) || (q.promise.Some? && !e.Dispatch?)
  {
  }

  lemma PromiseLeftStep(t: Trace, n: nat, r: Rid)
    requires n < |t.events| && n + 1 < |t.states|
    ensures PromiseLeft(t, n + 1, r) <==>
              StoresPromise(t.states[n], t.events[n], r) || (PromiseLeft(t, n, r) && t.events[n] != Resolve(r))
  {
    if StoresPromise(t.states[n], t.events[n], r) {
      assert NoResolve(t, n, n + 1, r);
    } else if PromiseLeft(t, n, r) && t.events[n] != Resolve(r) {
      var i :| 0 <= i < n && StoresPromise(t.states[i], t.events[i], r) && NoResolve(t, i, n, r);
      assert NoResolve(t, i, n + 1, r);
    }
    if PromiseLeft(t, n + 1, r) && !StoresPromise(t.states[n], t.events[n], r) {
      var i :| 0 <= i < n + 1 && StoresPromise(t.states[i], t.events[i], r) && NoResolve(t, i, n + 1, r);
      assert NoResolve(t, i, n, r);
    }
  }

  lemma {:induction false} PendingIff(t: Trace, n: nat, r: Rid)
    requires Run(t) && n < |t.states| && r in t.fptrs
    ensures r in t.states[n].recs && (t.states[n].recs[r].promise.Some? <==> PromiseLeft(t, n, r))
  {
    if n > 0 {
      PendingIff(t, n - 1, r);
      var o := RecordNext(t, n - 1, r);
      KindOnRecord(t.states[n - 1], t.events[n - 1], r);
      if o.Some? { PromiseStep(t.states[n - 1].recs[r], o.value); }
      PromiseLeftStep(t, n - 1, r);
    } else {
      RecordAtStart(t, r);
    }
  }

  /** While the script is in no call, a record accepts a call exactly if every promise stored on it
      has been resolved, and refuses it as in progress otherwise. */
  lemma AcceptsIffResolved(t: Trace, n: nat, r: Rid, args: seq<Word>)
    requires Run(t) && n < |t.states| && r in t.fptrs && t.states[n].at.Free? && |args| <= 20
    ensures Enabled(t.states[n], Invoke(r, r, args, false, false)) <==> !PromiseLeft(t, n, r)
    ensures Enabled(t.states[n], Refuse(r, r, false)) <==> PromiseLeft(t, n, r)
  {
    PendingIff(t, n, r);
    RecordAt(t, n, r);
  }

  lemma RefusalStep(q: Rec.State, e: Rec.Event)
    requires Handshake(q) && Rec.Enabled(q, e) && AtRest(q) && q.promise.Some?
    ensures AtRest(Rec.Step(q, e)) && Rec.Step(q, e).promise == q.promise
  {
  }

  /** A promise left on a record at rest stays for ever, and so the refusal. */
  lemma {:induction false} RefusesForEver(t: Trace, m: nat, n: nat, r: Rid)
    requires Run(t) && m <= n < |t.states| && r in t.fptrs && r in t.states[m].recs
    requires AtRest(t.states[m].recs[r]) && t.states[m].recs[r].promise.Some?
    ensures r in t.states[n].recs && AtRest(t.states[n].recs[r])
    ensures t.states[n].recs[r].promise == t.states[m].recs[r].promise
  {
    if m < n {
      RefusesForEver(t, m, n - 1, r);
      RecordAt(t, n - 1, r);
      var o := RecordNext(t, n - 1, r);
      if o.Some? { RefusalStep(t.states[n - 1].recs[r], o.value); }
    }
  }

  // ---------- frames and semaphores ----------

  /** The call's arguments will be overwritten before the worker reads them. */
  predicate Clobbered(s: Sys, e: Event, r: Rid) {
    e.Invoke? && e.callee == r && r in s.recs && (s.recs[r].worker.Invoking? || s.recs[r].worker.Storing?)
  }

  ghost predicate WasClobbered(t: Trace, n: nat, r: Rid)
    requires n <= |t.events| && n < |t.states|
  {
    exists i :: 0 <= i < n && Clobbered(t.states[i], t.events[i], r)
  }

  lemma {:induction false} FaultOrIntact(t: Trace, n: nat, r: Rid)
    requires Run(t) && n < |t.states| && r in t.fptrs
    ensures r in t.states[n].recs
    ensures t.states[n].recs[r].fault || !Intact(t.states[n].recs[r]) <==> WasClobbered(t, n, r)
  {
    if n > 0 {
      FaultOrIntact(t, n - 1, r);
      RecordAt(t, n - 1, r);
      var o := RecordNext(t, n - 1, r);
      KindOnRecord(t.states[n - 1], t.events[n - 1], r);
      if o.Some? { FaultStep(t.states[n - 1].recs[r], o.value); }
      ClobberedStep(t, n - 1, r);
    } else {
      RecordAtStart(t, r);
    }
  }

  lemma ClobberedStep(t: Trace, n: nat, r: Rid)
    requires n < |t.events| && n + 1 < |t.states|
    ensures WasClobbered(t, n + 1, r) <==> WasClobbered(t, n, r) || Clobbered(t.states[n], t.events[n], r)
  {
  }

  /** In every run the worker copies only while the owner of the arguments is in its call, and never
      more words than its array holds. It takes something else for the owner's frame if and only if
      a call was begun while it was about to run, or to store the result of, an earlier one; by the
      time such a call returns, it has happened. */
  lemma FrameOutlivesCopy(t: Trace, n: nat, r: Rid)
    requires Run(t) && n < |t.states| && r in t.fptrs
    ensures r in t.states[n].recs
    ensures var q := t.states[n].recs[r];
            && (q.worker.Copying? ==>
                  q.script.AwaitStart? && q.frame.Some? && |q.worker.copied| <= 20)
            && (q.worker.Copying? && !WasClobbered(t, n, r) ==> Rec.FrameWords(q).Some?)
            && (q.fault ==> WasClobbered(t, n, r))
            && (WasClobbered(t, n, r) && !IsIn(t.states[n].at, r) ==> q.fault)
  {
    RecordAt(t, n, r);
    FaultOrIntact(t, n, r);
    var q := t.states[n].recs[r];
    if q.worker.Copying? {
      assert Current(q) in q.accepted;
    }
  }

  lemma {:induction false} CountedAt(t: Trace, n: nat, r: Rid)
    requires Run(t) && n < |t.states| && r in t.fptrs
    ensures r in t.states[n].recs && Counted(t.states[n].recs[r])
  {
    if n > 0 {
      CountedAt(t, n - 1, r);
      var o := RecordNext(t, n - 1, r);
      if o.Some? { CountsKept(t.states[n - 1].recs[r], o.value); }
    } else {
      RecordAtStart(t, r);
    }
  }

  /** In every run workAvailable and workStarted are at most 1, and every report is accounted for: the
      posts of workFinished are taken or left over, and the callbacks have run or are queued. */
  lemma SemaphoreCounts(t: Trace, n: nat, r: Rid)
    requires Run(t) && n < |t.states| && r in t.fptrs
    ensures r in t.states[n].recs
    ensures var q := t.states[n].recs[r];
            && q.workAvailable <= 1 && q.workStarted <= 1
            && q.workFinished + q.consumed + (if q.worker.Signalling? then 1 else 0) == Count(q.reports, true)
            && q.dispatches + |q.delivered| == Count(q.reports, false)
  {
    RecordAt(t, n, r);
    CountedAt(t, n, r);
  }

  // ---------- progress ----------

  predicate ServesRecord(s: Sys, e: Event, r: Rid) {
    match e
    case Script(_) => IsIn(s.at, r)
    case Resolve(q) => q == r
    case Worker(q, _) => q == r
    case _ => false
  }

  /** The moves on record r among the events from lo up to hi. */
  function Moves(t: Trace, r: Rid, lo: nat, hi: nat): nat
    requires lo <= hi <= |t.events| && hi < |t.states|
  {
    if lo == hi then 0
    else Moves(t, r, lo, hi - 1) + (if ServesRecord(t.states[hi - 1], t.events[hi - 1], r) then 1 else 0)
  }

  /** What the calls made on record r in that time may cost: 2n + 12 for n arguments. */
  function Budget(t: Trace, r: Rid, lo: nat, hi: nat): nat
    requires lo <= hi <= |t.events|
  {
    if lo == hi then 0
    else
      var e := t.events[hi - 1];
      Budget(t, r, lo, hi - 1) + (if e.Invoke? && e.callee == r then 2 * |e.args| + 12 else 0)
  }

  lemma ServesMeansProgress(s: Sys, e: Event, r: Rid)
    requires Enabled(s, e)
    ensures ServesRecord(s, e, r) <==> OnRecord(s, e, r).Some? && AsyncCallProofs.Progressing(OnRecord(s, e, r).value)
    ensures OnRecord(s, e, r).Some? && OnRecord(s, e, r).value.Begin? ==>
              e.Invoke? && OnRecord(s, e, r).value.args == e.args
  {
  }

  lemma WorkStep(t: Trace, n: nat, r: Rid)
    requires Run(t) && n < |t.events| && r in t.fptrs
    ensures r in t.states[n].recs && r in t.states[n + 1].recs
    ensures var e := t.events[n];
            Remaining(t.states[n + 1].recs[r]) + (if ServesRecord(t.states[n], e, r) then 1 else 0) <=
            Remaining(t.states[n].recs[r]) + (if e.Invoke? && e.callee == r then 2 * |e.args| + 12 else 0)
  {
    RecordAt(t, n, r);
    var o := RecordNext(t, n, r);
    KindOnRecord(t.states[n], t.events[n], r);
    ServesMeansProgress(t.states[n], t.events[n], r);
    if o.Some? {
      if AsyncCallProofs.Progressing(o.value) {
        StepProgresses(t.states[n].recs[r], o.value);
      } else {
        WorkAdded(t.states[n].recs[r], o.value);
      }
    }
  }

  /** Under any schedule, and however calls overlap, the moves made on a record and those it still needs
      are covered by what it needed before and 2n + 12 for each call with n arguments since. */
  lemma {:induction false} WorkIsBounded(t: Trace, lo: nat, hi: nat, r: Rid)
    requires Run(t) && lo <= hi < |t.states| && r in t.fptrs
    ensures r in t.states[lo].recs && r in t.states[hi].recs
    ensures Moves(t, r, lo, hi) + Remaining(t.states[hi].recs[r]) <=
              Remaining(t.states[lo].recs[r]) + Budget(t, r, lo, hi)
    ensures Remaining(t.states[hi].recs[r]) == 0 <==> AtRest(t.states[hi].recs[r])
  {
    RecordAt(t, hi, r);
    AtRestMeansNothingRemains(t.states[hi].recs[r]);
    if lo < hi {
      WorkIsBounded(t, lo, hi - 1, r);
      WorkStep(t, hi - 1, r);
    }
  }

  /** The script thread blocked, with no post to come: the caller's worker serves nothing. */
  predicate Lost(s: Sys) {
    s.at.Stranded? && s.at.caller in s.recs
    && s.recs[s.at.caller].workFinished == 0 && s.recs[s.at.caller].worker.Waiting?
  }

  /** No deadlock, with one exception: whenever the script thread is in a call, or some record is not
      at rest, a thread can make a move for it; unless the script thread is lost. */
  lemma SomeThreadCanMove(t: Trace, n: nat, r: Rid) returns (e: Event)
    requires Run(t) && n < |t.states| && r in t.fptrs && !Lost(t.states[n])
    requires !t.states[n].at.Free? || (r in t.states[n].recs ==> !AtRest(t.states[n].recs[r]))
    ensures Enabled(t.states[n], e) && (e.Script? || e.Resolve? || e.Worker? || e.Wake?)
    ensures var s := t.states[n];
            s.at.Stranded? ==>
              && s.at.caller in s.recs
              && if s.recs[s.at.caller].workFinished > 0 then e.Wake? else e.Worker? && e.r == s.at.caller
  {
    RunKeeps(t, n);
    var s := t.states[n];
    match s.at
    case Free =>
      RecordAt(t, n, r);
      var e' := SomeAction(s.recs[r]);
      e := if e'.Dispatch? then Resolve(r) else Worker(r, e');
    case In(q, _) =>
      RecordAt(t, n, q);
      var e' := SomeAction(s.recs[q]);
      e := if IsWorkerStep(e') then Worker(q, e') else Script(e');
    case Stranded(x) =>
      RecordAt(t, n, x);
      if s.recs[x].workFinished > 0 {
        e := Wake;
      } else {
        var e' := SomeAction(s.recs[x]);
        e := Worker(x, e');
      }
  }
}
