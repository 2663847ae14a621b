/** When the calls on a record are served as they should be, over whole runs of the system. */
module AsyncOutcome {
  import opened Bytes
  import Rec = AsyncCall
  import opened AsyncCallProofs
  import opened AsyncService
  import opened AsyncOverlap
  import opened AsyncSystem
  import opened AsyncResults

  // ---------- exactly when ----------

  /** The event spoils a call on the record: the call is begun while the worker is about to run, or to
      store the result of, an earlier one, or to clear its redirection; or the worker finds another
      redirection than the call's as it runs it; or waitingForResult other than the call left it, as
      it reports it. */
  ghost predicate Spoils(s: Sys, e: Event, r: Rid)
    requires r in s.recs && Handshake(s.recs[r]) && Enabled(s, e)
  {
    var q := s.recs[r];
    match e
    case Invoke(_, callee, _, redirected, _) =>
      callee == r && (q.worker.Invoking? || q.worker.Storing? || (q.worker.Clearing? && redirected))
    case Worker(w, e') =>
      w == r && Rec.Enabled(q, e') &&
      (match e'
       case Invoke(_) => q.redirection != RedirectionOf(Served(q))
       case Report => q.waiting == Served(q).promised
       case _ => false)
    case _ => false
  }

  /** Event i of the run spoils a call on the record. */
  ghost predicate SpoiledAt(t: Trace, i: nat, r: Rid)
    requires i < |t.events| && i < |t.states|
  {
    && r in t.states[i].recs && Handshake(t.states[i].recs[r]) && Enabled(t.states[i], t.events[i])
    && Spoils(t.states[i], t.events[i], r)
  }

  ghost predicate Spoiled(t: Trace, n: nat, r: Rid)
    requires n <= |t.events| && n < |t.states|
  {
    exists i :: 0 <= i < n && SpoiledAt(t, i, r)
  }

  lemma SpoiledStep(t: Trace, n: nat, r: Rid)
    requires n < |t.events| && n + 1 < |t.states|
    ensures Spoiled(t, n + 1, r) <==> Spoiled(t, n, r) || SpoiledAt(t, n, r)
  {
  }

  lemma SpoilsIsHarm(s: Sys, e: Event, r: Rid)
    requires r in s.recs && Handshake(s.recs[r]) && Enabled(s, e)
    ensures var o := OnRecord(s, e, r);
            if o.None? then !Spoils(s, e, r)
            else Rec.Enabled(s.recs[r], o.value) && (Spoils(s, e, r) <==> Harms(s.recs[r], o.value))
  {
    EffectOnRecord(s, e, r);
  }

  lemma SpoiledMeansHarm(t: Trace, n: nat, r: Rid) returns (o: Option<Rec.Event>)
    requires Run(t) && n < |t.events| && r in t.fptrs
    ensures r in t.states[n].recs && r in t.states[n + 1].recs
    ensures Handshake(t.states[n].recs[r]) && CallsWellFormed(t.states[n].recs[r])
    ensures Enabled(t.states[n], t.events[n]) && o == OnRecord(t.states[n], t.events[n], r)
    ensures if o.None? then !SpoiledAt(t, n, r) && t.states[n + 1].recs[r] == t.states[n].recs[r]
            else
              && Rec.Enabled(t.states[n].recs[r], o.value)
              && t.states[n + 1].recs[r] == Rec.Step(t.states[n].recs[r], o.value)
              && (SpoiledAt(t, n, r) <==> Harms(t.states[n].recs[r], o.value))
  {
    RecordAt(t, n, r);
    o := RecordNext(t, n, r);
    SpoilsIsHarm(t.states[n], t.events[n], r);
  }

  lemma GoodOrBadNext(t: Trace, n: nat, r: Rid)
    requires Run(t) && n < |t.events| && r in t.fptrs
    ensures r in t.states[n].recs && r in t.states[n + 1].recs
    ensures Handshake(t.states[n].recs[r]) && Handshake(t.states[n + 1].recs[r])
    ensures Good(t.states[n].recs[r]) && !SpoiledAt(t, n, r) ==> Good(t.states[n + 1].recs[r])
    ensures Bad(t.states[n].recs[r]) || SpoiledAt(t, n, r) ==> Bad(t.states[n + 1].recs[r])
  {
    var o := SpoiledMeansHarm(t, n, r);
    if o.Some? { GoodOrBad(t.states[n].recs[r], o.value); }
  }

  /** At any time: all is well with the record, or it is spoiled and will stay so. */
  lemma {:induction false} GoodUnlessSpoiled(t: Trace, n: nat, r: Rid)
    requires Run(t) && n < |t.states| && r in t.fptrs
    ensures r in t.states[n].recs && Handshake(t.states[n].recs[r])
    ensures if Spoiled(t, n, r) then Bad(t.states[n].recs[r]) else Good(t.states[n].recs[r])
  {
    if n > 0 {
      GoodUnlessSpoiled(t, n - 1, r);
      GoodOrBadNext(t, n - 1, r);
      SpoiledStep(t, n - 1, r);
    } else {
      RecordAtStart(t, r);
      StartHandshake(t.fptrs[r]);
    }
  }

  // ---------- the same told by the calls that were made ----------

  /** While the worker is about to run a call's function, a call with an invalid parameter names
      another one. */
  predicate Misnames(s: Sys, e: Event, r: Rid) {
    && e.Invalid? && e.callee == r && r in s.recs && e.caller in s.recs && s.recs[r].worker.Invoking?
    && |s.recs[r].reports| < |s.recs[r].accepted| && BadCallOf(s, e).named != RedirectionOf(Served(s.recs[r]))
  }

  predicate RunsFunction(e: Event, r: Rid) {
    e.Worker? && e.r == r && e.e.Invoke?
  }

  ghost predicate StillNamed(t: Trace, i: nat, n: nat, r: Rid)
    requires n <= |t.events|
  {
    forall k :: i < k < n ==> !(t.events[k].Invalid? && t.events[k].callee == r) && !RunsFunction(t.events[k], r)
  }

  ghost predicate Misnamed(t: Trace, n: nat, r: Rid)
    requires n <= |t.events| && n < |t.states|
  {
    exists i :: 0 <= i < n && Misnames(t.states[i], t.events[i], r) && StillNamed(t, i, n, r)
  }

  lemma MisnamedStep(t: Trace, n: nat, r: Rid)
    requires n < |t.events| && n + 1 < |t.states|
    ensures var e := t.events[n];
            Misnamed(t, n + 1, r) <==>
              if e.Invalid? && e.callee == r then Misnames(t.states[n], e, r)
              else Misnamed(t, n, r) && !RunsFunction(e, r)
  {
    var e := t.events[n];
    if Misnames(t.states[n], e, r) {
      assert StillNamed(t, n, n + 1, r);
    } else if !(e.Invalid? && e.callee == r) && Misnamed(t, n, r) && !RunsFunction(e, r) {
      var i :| 0 <= i < n && Misnames(t.states[i], t.events[i], r) && StillNamed(t, i, n, r);
      assert StillNamed(t, i, n + 1, r);
    }
    if i :| 0 <= i < n + 1 && Misnames(t.states[i], t.events[i], r) && StillNamed(t, i, n + 1, r) {
      if i < n { assert StillNamed(t, i, n, r); }
    }
  }

  lemma DeludedNext(t: Trace, n: nat, r: Rid)
    requires Run(t) && n < |t.events| && r in t.fptrs && !Spoiled(t, n + 1, r)
    ensures r in t.states[n].recs && r in t.states[n + 1].recs
    ensures Handshake(t.states[n].recs[r]) && Handshake(t.states[n + 1].recs[r])
    ensures var e := t.events[n];
            Deluded(t.states[n + 1].recs[r]) <==>
              if e.Invalid? && e.callee == r then Misnames(t.states[n], e, r)
              else Deluded(t.states[n].recs[r]) && !RunsFunction(e, r)
  {
    SpoiledStep(t, n, r);
    GoodUnlessSpoiled(t, n, r);
    var o := SpoiledMeansHarm(t, n, r);
    InvalidOnRecord(t, n, r);
    if o.Some? { DelusionStep(t.states[n].recs[r], o.value); }
  }

  lemma InvalidOnRecord(t: Trace, n: nat, r: Rid)
    requires Run(t) && n < |t.events| && r in t.fptrs
    ensures Enabled(t.states[n], t.events[n])
    ensures var s, e := t.states[n], t.events[n];
            var o := OnRecord(s, e, r);
            && (o.Some? && o.value.Invoke? <==> RunsFunction(e, r))
            && (o.Some? && o.value.BadCall? <==> e.Invalid? && e.callee == r)
            && (e.Invalid? && e.callee == r ==> e.caller in s.recs && o.value == BadCallOf(s, e))
  {
    assert Follows(t, n);
  }

  /** As long as nothing is spoiled: the worker finds another redirection than its call's exactly if an
      invalid call named one, and none since has named the right one again. */
  lemma {:induction false} MisnamedIff(t: Trace, n: nat, r: Rid)
    requires Run(t) && n < |t.states| && r in t.fptrs && !Spoiled(t, n, r)
    ensures r in t.states[n].recs && Handshake(t.states[n].recs[r])
    ensures Deluded(t.states[n].recs[r]) <==> Misnamed(t, n, r)
  {
    RecordAt(t, n, r);
    if n > 0 {
      SpoiledStep(t, n - 1, r);
      MisnamedIff(t, n - 1, r);
      DeludedNext(t, n - 1, r);
      MisnamedStep(t, n - 1, r);
    } else {
      RecordAtStart(t, r);
    }
  }

  /** Event i begins the call that is next to be reported in state n. */
  predicate Begins(t: Trace, i: nat, n: nat, r: Rid)
    requires i < |t.events| && i < |t.states| && n < |t.states|
  {
    && t.events[i].Invoke? && t.events[i].callee == r && r in t.states[i].recs && r in t.states[n].recs
    && |t.states[i].recs[r].accepted| == |t.states[n].recs[r].reports|
  }

  /** A blocking call sets the flag, or has left it set, as the call of event i begins. */
  ghost predicate BeginsRaised(t: Trace, i: nat, r: Rid)
    requires i < |t.events|
  {
    RaisesFlag(t.events[i], r) || Raised(t, i, r)
  }

  /** The flag was set when the call next to be reported in state n began, and a report has cleared it
      since; or it was clear, and a blocking call has set it since. */
  ghost predicate FlagTouched(t: Trace, n: nat, r: Rid)
    requires n <= |t.events| && n < |t.states|
  {
    exists i :: 0 <= i < n && Begins(t, i, n, r) && (BeginsRaised(t, i, r) != Raised(t, n, r))
  }

  /** Every accepted call has its event. */
  lemma {:induction false} CallBegan(t: Trace, n: nat, r: Rid, k: nat) returns (i: nat)
    requires Run(t) && n < |t.states| && r in t.fptrs
    requires r in t.states[n].recs && k < |t.states[n].recs[r].accepted|
    ensures i < n && t.events[i].Invoke? && t.events[i].callee == r
    ensures r in t.states[i].recs && |t.states[i].recs[r].accepted| == k
  {
    RecordAtStart(t, r);
    var o := RecordNext(t, n - 1, r);
    KindOnRecord(t.states[n - 1], t.events[n - 1], r);
    if o.Some? { OneAcceptedAtMost(t.states[n - 1].recs[r], o.value); }
    if k < |t.states[n - 1].recs[r].accepted| {
      i := CallBegan(t, n - 1, r, k);
    } else {
      i := n - 1;
    }
  }

  lemma OneAcceptedAtMost(q: Rec.State, e: Rec.Event)
    requires Rec.Enabled(q, e)
    ensures |Rec.Step(q, e).accepted| == |q.accepted| + (if e.Begin? then 1 else 0)
  {
  }

  lemma CallAsBegun(t: Trace, i: nat, n: nat, r: Rid)
    requires Run(t) && i < n < |t.states| && r in t.fptrs && t.events[i].Invoke? && t.events[i].callee == r
    ensures r in t.states[i].recs && r in t.states[n].recs
    ensures var k := |t.states[i].recs[r].accepted|;
            k < |t.states[n].recs[r].accepted| && (t.states[n].recs[r].accepted[k].promised <==> !BeginsRaised(t, i, r))
  {
    FlagIff(t, i, r);
    var o := RecordNext(t, i, r);
    AcceptedGrow(t, i + 1, n, r);
  }

  /** The flag that the worker finds as it reports a call. */
  lemma FlagTouchedIff(t: Trace, n: nat, r: Rid)
    requires Run(t) && n < |t.states| && r in t.fptrs
    requires r in t.states[n].recs && |t.states[n].recs[r].reports| < |t.states[n].recs[r].accepted|
    ensures t.states[n].recs[r].waiting == Served(t.states[n].recs[r]).promised <==> FlagTouched(t, n, r)
  {
    FlagIff(t, n, r);
    var k := |t.states[n].recs[r].reports|;
    forall i | 0 <= i < n && Begins(t, i, n, r)
      ensures Served(t.states[n].recs[r]).promised <==> !BeginsRaised(t, i, r)
    {
      CallAsBegun(t, i, n, r);
    }
    var i := CallBegan(t, n, r, k);
    assert Begins(t, i, n, r);
  }

  /** Event i spoils a call on the record, told by the calls made before: it begins one while the worker
      is about to run, or to store the result of, an earlier one, or to clear its redirection; or the
      worker runs one after an invalid call has named another function; or it reports one after the
      flag it left was cleared or set. */
  ghost predicate SpoiledByCalls(t: Trace, i: nat, r: Rid)
    requires i < |t.events| && i < |t.states|
  {
    var s, e := t.states[i], t.events[i];
    && r in s.recs
    && match e
       case Invoke(_, callee, _, redirected, _) =>
         && callee == r
         && (s.recs[r].worker.Invoking? || s.recs[r].worker.Storing? || (s.recs[r].worker.Clearing? && redirected))
       case Worker(w, e') => w == r && ((e'.Invoke? && Misnamed(t, i, r)) || (e'.Report? && FlagTouched(t, i, r)))
       case _ => false
  }

  lemma SameSpoil(t: Trace, i: nat, r: Rid)
    requires Run(t) && i < |t.events| && r in t.fptrs && !Spoiled(t, i, r)
    ensures SpoiledAt(t, i, r) <==> SpoiledByCalls(t, i, r)
  {
    RecordAt(t, i, r);
    assert Follows(t, i);
    MisnamedIff(t, i, r);
    if t.events[i] == Worker(r, Rec.Report) { FlagTouchedIff(t, i, r); }
  }

  ghost predicate NothingSpoiled(t: Trace, n: nat, r: Rid)
    requires n <= |t.events| && n < |t.states|
  {
    forall i :: 0 <= i < n ==> !SpoiledByCalls(t, i, r)
  }

  lemma {:induction false} SpoiledTwoWays(t: Trace, n: nat, r: Rid)
    requires Run(t) && n < |t.states| && r in t.fptrs
    ensures Spoiled(t, n, r) <==> !NothingSpoiled(t, n, r)
  {
    if n > 0 {
      SpoiledTwoWays(t, n - 1, r);
      SpoiledStep(t, n - 1, r);
      if !Spoiled(t, n - 1, r) { SameSpoil(t, n - 1, r); }
    }
  }

  // ---------- the calls that were made, and what their functions returned ----------

  /** The call of event i: the caller's function, on the arguments it was called with. */
  ghost function CallMade(t: Trace, i: nat): Rec.Call
    requires i < |t.events| && t.events[i].Invoke? && t.events[i].caller in t.fptrs
  {
    var e := t.events[i];
    Rec.Call(t.fptrs[e.caller], e.args, e.redirected, !BeginsRaised(t, i, e.callee))
  }

  /** The accepted calls on a record, in the order of their events. */
  ghost function CallsMade(t: Trace, n: nat, r: Rid): seq<Rec.Call>
    requires n <= |t.events|
  {
    if n == 0 then []
    else
      var e := t.events[n - 1];
      CallsMade(t, n - 1, r)
      + (if e.Invoke? && e.callee == r && e.caller in t.fptrs then [CallMade(t, n - 1)] else [])
  }

  /** The values that native functions returned to the record's worker. */
  function ValuesReturned(t: Trace, n: nat, r: Rid): seq<Word>
    requires n <= |t.events|
  {
    if n == 0 then []
    else
      var e := t.events[n - 1];
      ValuesReturned(t, n - 1, r) + (if RunsFunction(e, r) then [e.e.result] else [])
  }

  lemma {:induction false} FunctionStays(t: Trace, n: nat, r: Rid)
    requires Run(t) && n < |t.states| && r in t.fptrs
    ensures r in t.states[n].recs && t.states[n].recs[r].fptr == t.fptrs[r]
  {
    RecordAtStart(t, r);
    if n > 0 {
      FunctionStays(t, n - 1, r);
      var o := RecordNext(t, n - 1, r);
      RecordAt(t, n - 1, r);
      if o.Some? { CallsStayWellFormed(t.states[n - 1].recs[r], o.value); }
    }
  }

  lemma LogStep(q: Rec.State, e: Rec.Event)
    requires Rec.Enabled(q, e)
    ensures var q' := Rec.Step(q, e);
            && q'.accepted == q.accepted
                 + (if e.Begin? then [Rec.Call(e.target, e.args, e.redirected, !(q.waiting || e.raises))] else [])
            && Returned(q'.executed) == Returned(q.executed) + (if e.Invoke? then [e.result] else [])
  {
    if e.Invoke? {
      var x := Rec.Step(q, e).executed;
      assert x[..|x| - 1] == q.executed;
    }
  }

  lemma BeginOnRecord(t: Trace, n: nat, r: Rid)
    requires Run(t) && n < |t.events| && r in t.fptrs
    ensures Enabled(t.states[n], t.events[n]) && r in t.states[n].recs
    ensures var s, e := t.states[n], t.events[n];
            var o := OnRecord(s, e, r);
            && (o.Some? && o.value.Begin? <==> e.Invoke? && e.callee == r)
            && (e.Invoke? && e.callee == r ==>
                  && e.caller in t.fptrs
                  && o == Some(Rec.Begin(t.fptrs[e.caller], e.args, e.redirected, RaisesFlag(e, r))))
            && (o.Some? && o.value.Invoke? <==> RunsFunction(e, r))
            && (RunsFunction(e, r) ==> o.value == e.e)
  {
    RunKeeps(t, n);
    assert Follows(t, n);
    if t.events[n].Invoke? { FunctionStays(t, n, t.events[n].caller); }
  }

  lemma LogsNext(t: Trace, n: nat, r: Rid)
    requires Run(t) && n < |t.events| && r in t.fptrs
    ensures r in t.states[n].recs && r in t.states[n + 1].recs
    ensures var e, q, q' := t.events[n], t.states[n].recs[r], t.states[n + 1].recs[r];
            && (e.Invoke? && e.callee == r ==> e.caller in t.fptrs)
            && q'.accepted == q.accepted + (if e.Invoke? && e.callee == r then [CallMade(t, n)] else [])
            && Returned(q'.executed) == Returned(q.executed) + (if RunsFunction(e, r) then [e.e.result] else [])
  {
    BeginOnRecord(t, n, r);
    FlagIff(t, n, r);
    var o := RecordNext(t, n, r);
    if o.Some? { LogStep(t.states[n].recs[r], o.value); }
  }

  /** The logs are those of the calls made and of the values returned: nothing else is in them. */
  lemma {:induction false} LogsAreOfTheRun(t: Trace, n: nat, r: Rid)
    requires Run(t) && n < |t.states| && r in t.fptrs
    ensures r in t.states[n].recs && t.states[n].recs[r].accepted == CallsMade(t, n, r)
    ensures Returned(t.states[n].recs[r].executed) == ValuesReturned(t, n, r)
  {
    RecordAtStart(t, r);
    if n > 0 {
      LogsAreOfTheRun(t, n - 1, r);
      LogsNext(t, n - 1, r);
    }
  }

  /** Every call made on the record so far is served once, as far as it is finished. */
  ghost predicate CallsServedOnce(t: Trace, n: nat, r: Rid)
    requires n <= |t.events| && n < |t.states| && r in t.states[n].recs
  {
    ServedOnce(t.states[n].recs[r], CallsMade(t, n, r), ValuesReturned(t, n, r))
  }

  /** Every call made on the record so far was served, once, on its own arguments and without a fault. */
  ghost predicate AllCallsServed(t: Trace, n: nat, r: Rid)
    requires n <= |t.events| && n < |t.states| && r in t.states[n].recs
  {
    AllServed(t.states[n].recs[r], CallsMade(t, n, r), ValuesReturned(t, n, r))
  }

  // ---------- served once ----------

  /** In every interleaving, as long as nothing is spoiled: each call made on a record is served once. */
  lemma ExactlyOnce(t: Trace, n: nat, r: Rid)
    requires Run(t) && n < |t.states| && r in t.fptrs && NothingSpoiled(t, n, r)
    ensures r in t.states[n].recs && CallsServedOnce(t, n, r) && !t.states[n].recs[r].fault
  {
    LogsAreOfTheRun(t, n, r);
    SpoiledTwoWays(t, n, r);
    GoodUnlessSpoiled(t, n, r);
    CallsServed(t.states[n].recs[r]);
  }

  /** And exactly as long: when the record is at rest, every call made on it was served once and without
      a fault, if and only if nothing was spoiled. */
  lemma ServedOnceIff(t: Trace, n: nat, r: Rid)
    requires Run(t) && n < |t.states| && r in t.fptrs
    requires r in t.states[n].recs ==> AtRest(t.states[n].recs[r])
    ensures r in t.states[n].recs && (AllCallsServed(t, n, r) <==> NothingSpoiled(t, n, r))
  {
    LogsAreOfTheRun(t, n, r);
    RecordAt(t, n, r);
    GoodUnlessSpoiled(t, n, r);
    SpoiledTwoWays(t, n, r);
    var q := t.states[n].recs[r];
    if Spoiled(t, n, r) {
      if AllCallsServed(t, n, r) { ServedIsNotBad(q); }
    } else {
      GoodIsServed(q);
    }
  }

  // ---------- calls over an abandoned one ----------

  /** No blocking call of r's function sets the flag but one that is served on r's own record, and no
      call with an invalid parameter comes while the worker is about to read the redirection. */
  predicate Undisturbed(s: Sys, e: Event, r: Rid) {
    && (RaisesFlag(e, r) ==> e.Invoke? && e.callee == r)
    && (e.Invalid? && e.callee == r ==> r in s.recs && !s.recs[r].worker.Invoking?)
  }

  ghost predicate UndisturbedUntil(t: Trace, n: nat, r: Rid)
    requires n <= |t.events| && n < |t.states|
  {
    forall i :: 0 <= i < n ==> Undisturbed(t.states[i], t.events[i], r)
  }

  /** A call is begun on the record before the worker has reported the one it serves. */
  predicate Overlapping(s: Sys, e: Event, r: Rid) {
    && e.Invoke? && e.callee == r && r in s.recs
    && (s.recs[r].worker.Invoking? || s.recs[r].worker.Storing? || s.recs[r].worker.Clearing?
        || s.recs[r].worker.Reporting?)
  }

  ghost predicate Overlapped(t: Trace, n: nat, r: Rid)
    requires n <= |t.events| && n < |t.states|
  {
    exists i :: 0 <= i < n && Overlapping(t.states[i], t.events[i], r)
  }

  lemma OverlappedStep(t: Trace, n: nat, r: Rid)
    requires n < |t.events| && n + 1 < |t.states|
    ensures Overlapped(t, n + 1, r) <==> Overlapped(t, n, r) || Overlapping(t.states[n], t.events[n], r)
  {
  }

  lemma PlainOnRecord(s: Sys, e: Event, r: Rid)
    requires r in s.recs && Enabled(s, e) && Undisturbed(s, e, r)
    ensures var o := OnRecord(s, e, r);
            if o.None? then !Overlapping(s, e, r)
            else Plain(s.recs[r], o.value) && (Overlaps(s.recs[r], o.value) <==> Overlapping(s, e, r))
  {
  }

  lemma TurnsNext(t: Trace, n: nat, r: Rid)
    requires Run(t) && n < |t.events| && r in t.fptrs && Undisturbed(t.states[n], t.events[n], r)
    requires !Overlapping(t.states[n], t.events[n], r)
    requires r in t.states[n].recs && OneAtATime(t.states[n].recs[r])
    ensures r in t.states[n + 1].recs && OneAtATime(t.states[n + 1].recs[r]) && !SpoiledAt(t, n, r)
  {
    var o := RecordNext(t, n, r);
    PlainOnRecord(t.states[n], t.events[n], r);
    SpoilsIsHarm(t.states[n], t.events[n], r);
    if o.Some? { TurnsKept(t.states[n].recs[r], o.value); }
  }

  lemma VictimNext(t: Trace, n: nat, r: Rid)
    requires Run(t) && n < |t.events| && r in t.fptrs && Undisturbed(t.states[n], t.events[n], r)
    requires r in t.states[n].recs && Good(t.states[n].recs[r])
    requires Victim(t.states[n].recs[r]) || Overlapping(t.states[n], t.events[n], r)
    ensures r in t.states[n + 1].recs && Handshake(t.states[n + 1].recs[r])
    ensures Bad(t.states[n + 1].recs[r]) || Victim(t.states[n + 1].recs[r])
  {
    RecordAt(t, n + 1, r);
    var o := RecordNext(t, n, r);
    PlainOnRecord(t.states[n], t.events[n], r);
    if o.Some? {
      if Overlapping(t.states[n], t.events[n], r) {
        OverlapMakesVictim(t.states[n].recs[r], o.value);
      } else {
        VictimUntilBad(t.states[n].recs[r], o.value);
      }
    }
  }

  lemma {:induction false} TurnsUnlessOverlapped(t: Trace, n: nat, r: Rid)
    requires Run(t) && n < |t.states| && r in t.fptrs && UndisturbedUntil(t, n, r) && !Overlapped(t, n, r)
    ensures r in t.states[n].recs && OneAtATime(t.states[n].recs[r]) && !Spoiled(t, n, r)
  {
    if n > 0 {
      OverlappedStep(t, n - 1, r);
      TurnsUnlessOverlapped(t, n - 1, r);
      TurnsNext(t, n - 1, r);
      SpoiledStep(t, n - 1, r);
    } else {
      RecordAtStart(t, r);
      StartHandshake(t.fptrs[r]);
    }
  }

  lemma {:induction false} VictimIfOverlapped(t: Trace, n: nat, r: Rid)
    requires Run(t) && n < |t.states| && r in t.fptrs && UndisturbedUntil(t, n, r) && Overlapped(t, n, r)
    ensures r in t.states[n].recs && Handshake(t.states[n].recs[r])
    ensures Spoiled(t, n, r) || Victim(t.states[n].recs[r])
  {
    RecordAt(t, n, r);
    OverlappedStep(t, n - 1, r);
    SpoiledStep(t, n - 1, r);
    if Overlapped(t, n - 1, r) { VictimIfOverlapped(t, n - 1, r); }
    if !Spoiled(t, n - 1, r) {
      GoodUnlessSpoiled(t, n - 1, r);
      VictimNext(t, n - 1, r);
      BadMeansSpoiled(t, n, r);
    }
  }

  lemma BadMeansSpoiled(t: Trace, n: nat, r: Rid)
    requires Run(t) && n < |t.states| && r in t.fptrs
    ensures r in t.states[n].recs && Handshake(t.states[n].recs[r]) && (Bad(t.states[n].recs[r]) <==> Spoiled(t, n, r))
  {
    GoodUnlessSpoiled(t, n, r);
    if !Spoiled(t, n, r) { GoodIsNotBad(t.states[n].recs[r]); }
  }

  /** In an undisturbed run, when the record is at rest: every call was served once and without a fault, if
      and only if none was begun after the worker announced an earlier one and before it reported it. */
  lemma OverlapIff(t: Trace, n: nat, r: Rid)
    requires Run(t) && n < |t.states| && r in t.fptrs && UndisturbedUntil(t, n, r)
    requires r in t.states[n].recs ==> AtRest(t.states[n].recs[r])
    ensures r in t.states[n].recs && (AllCallsServed(t, n, r) <==> !Overlapped(t, n, r))
  {
    ServedOnceIff(t, n, r);
    SpoiledTwoWays(t, n, r);
    if Overlapped(t, n, r) {
      VictimIfOverlapped(t, n, r);
      NoVictimAtRest(t.states[n].recs[r]);
    } else {
      TurnsUnlessOverlapped(t, n, r);
    }
  }

  // ---------- the invalid-parameter path ----------

  /** An invalid parameter on this record, found after its promise was stored. */
  predicate LeavesPromise(s: Sys, e: Event, r: Rid) {
    e.Invalid? && e.callee == r && r in s.recs && !s.recs[r].waiting && !RaisesFlag(e, r)
  }

  ghost predicate WasBad(t: Trace, n: nat, r: Rid)
    requires n <= |t.events| && n < |t.states|
  {
    exists i :: 0 <= i < n && LeavesPromise(t.states[i], t.events[i], r)
  }

  lemma WasBadStep(t: Trace, n: nat, r: Rid)
    requires n < |t.events| && n + 1 < |t.states|
    ensures WasBad(t, n + 1, r) <==> WasBad(t, n, r) || LeavesPromise(t.states[n], t.events[n], r)
  {
  }

  lemma BadCallOnRecord(s: Sys, e: Event, r: Rid)
    requires r in s.recs && Enabled(s, e)
    ensures LeavesPromise(s, e, r) <==>
              var o := OnRecord(s, e, r); o.Some? && o.value.BadCall? && !o.value.raises && !s.recs[r].waiting
  {
  }

  lemma WedgeNext(t: Trace, n: nat, r: Rid)
    requires Run(t) && n < |t.events| && r in t.fptrs && r in t.states[n].recs && Good(t.states[n].recs[r])
    ensures r in t.states[n + 1].recs
    ensures Wedged(t.states[n + 1].recs[r]) <==>
              Wedged(t.states[n].recs[r]) || LeavesPromise(t.states[n], t.events[n], r)
  {
    var o := RecordNext(t, n, r);
    BadCallOnRecord(t.states[n], t.events[n], r);
    if o.Some? { WedgeStep(t.states[n].recs[r], o.value); }
  }

  lemma {:induction false} WedgedIffBadCall(t: Trace, n: nat, r: Rid)
    requires Run(t) && n < |t.states| && r in t.fptrs && !Spoiled(t, n, r)
    ensures r in t.states[n].recs && (Wedged(t.states[n].recs[r]) <==> WasBad(t, n, r))
  {
    if n > 0 {
      SpoiledStep(t, n - 1, r);
      WedgedIffBadCall(t, n - 1, r);
      GoodUnlessSpoiled(t, n - 1, r);
      WedgeNext(t, n - 1, r);
      WasBadStep(t, n - 1, r);
    } else {
      RecordAtStart(t, r);
    }
  }

  /** When the script is free and a record on which nothing was spoiled is at rest, it accepts a call if
      and only if none had an invalid parameter before; otherwise it refuses every later call. */
  lemma AcceptsIffNeverBad(t: Trace, n: nat, r: Rid, args: seq<Word>)
    requires Run(t) && n < |t.states| && r in t.fptrs && t.states[n].at.Free? && NothingSpoiled(t, n, r)
    requires r in t.states[n].recs ==> AtRest(t.states[n].recs[r])
    requires |args| <= 20
    ensures Enabled(t.states[n], Invoke(r, r, args, false, false)) <==> !WasBad(t, n, r)
    ensures Enabled(t.states[n], Refuse(r, r, false)) <==> WasBad(t, n, r)
  {
    RecordAt(t, n, r);
    SpoiledTwoWays(t, n, r);
    WedgedIffBadCall(t, n, r);
    GoodUnlessSpoiled(t, n, r);
    PromiseAtRest(t.states[n].recs[r]);
  }
}
