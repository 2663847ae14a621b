/** Blocking native calls: when they end in an error, when they block the script thread for ever, and
    when they return. */
module AsyncBlocking {
  import opened Bytes
  import Rec = AsyncCall
  import opened AsyncCallProofs
  import opened AsyncSystem
  import opened AsyncResults

  predicate BlockingCall(e: Event) {
    e.Invoke? && e.waits
  }

  /** Where the script thread is on account of a blocking call that it has begun and not left. */
  predicate OnItsWay(s: Sys, e: Event)
    requires BlockingCall(e)
  {
    s.at == In(e.callee, Some(e.caller)) || s.at == Stranded(e.caller)
  }

  /** The blocking call of event m has not ended by state n. */
  ghost predicate StillOn(t: Trace, m: nat, n: nat)
    requires m < |t.events| && n < |t.states| && BlockingCall(t.events[m])
  {
    forall i :: m < i <= n ==> OnItsWay(t.states[i], t.events[m])
  }

  // ---------- error or wait ----------

  lemma PromiseDuringCall(q: Rec.State, e: Rec.Event)
    requires Rec.Enabled(q, e) && (IsWorkerStep(e) || IsCallerStep(e))
    ensures Rec.Step(q, e).promise == q.promise
  {
  }

  lemma InCallStep(s: Sys, e: Event)
    requires Enabled(s, e) && s.at.In? && s.at.r in s.recs
    ensures s.at.r in Step(s, e).recs && Step(s, e).recs[s.at.r].promise == s.recs[s.at.r].promise
    ensures Step(s, e).at == if e == Script(Rec.Return) then AfterReturn(s) else s.at
  {
    EffectOnRecord(s, e, s.at.r);
    var o := OnRecord(s, e, s.at.r);
    if o.Some? { PromiseDuringCall(s.recs[s.at.r], o.value); }
  }

  /** The promise that the call of event m makes. */
  predicate MakesPromise(s: Sys, e: Event)
    requires BlockingCall(e)
  {
    e.caller != e.callee && e.callee in s.recs && !s.recs[e.callee].waiting
  }

  lemma BlockingCallBegins(t: Trace, m: nat)
    requires Run(t) && m < |t.events| && BlockingCall(t.events[m])
    ensures var e, s' := t.events[m], t.states[m + 1];
            && s'.at == In(e.callee, Some(e.caller)) && e.callee in s'.recs
            && (s'.recs[e.callee].promise.Some? <==> MakesPromise(t.states[m], e))
  {
    RunKeeps(t, m);
    assert Follows(t, m);
    var r := t.events[m].callee;
    var o := RecordNext(t, m, r);
  }

  lemma InCallNext(t: Trace, n: nat)
    requires Run(t) && n < |t.events| && t.states[n].at.In?
    ensures var s, s' := t.states[n], t.states[n + 1];
            && s.at.r in s.recs && s.at.r in s'.recs && s'.recs[s.at.r].promise == s.recs[s.at.r].promise
            && s'.at == if t.events[n] == Script(Rec.Return) then AfterReturn(s) else s.at
  {
    RunKeeps(t, n);
    assert Follows(t, n);
    InCallStep(t.states[n], t.events[n]);
  }

  lemma StrandedNext(t: Trace, n: nat)
    requires Run(t) && n < |t.events| && t.states[n].at.Stranded?
    ensures t.states[n + 1].at == t.states[n].at || t.states[n + 1].at.Free?
  {
    assert Follows(t, n);
  }

  /** As long as the call has not ended: the script thread is still in it, with the promise it made or
      did not make, or blocked, if it made one. */
  lemma {:induction false} BlockingCallGoesOn(t: Trace, m: nat, n: nat)
    requires Run(t) && m < n < |t.states| && BlockingCall(t.events[m])
    requires forall i :: m < i <= n ==> !t.states[i].at.Free?
    ensures StillOn(t, m, n)
    ensures var e, s := t.events[m], t.states[n];
            if s.at.In? then e.callee in s.recs && (s.recs[e.callee].promise.Some? <==> MakesPromise(t.states[m], e))
            else MakesPromise(t.states[m], e)
  {
    if n == m + 1 {
      BlockingCallBegins(t, m);
    } else {
      BlockingCallGoesOn(t, m, n - 1);
      assert OnItsWay(t.states[n - 1], t.events[m]);
      if t.states[n - 1].at.In? {
        InCallNext(t, n - 1);
      } else {
        StrandedNext(t, n - 1);
      }
    }
  }

  /** When the worker has its arguments, a blocking call ends in an error, and leaves the script free and
      the record open for the next call, if and only if it was made on the function's own record or
      on one whose flag was left set; otherwise the script thread goes on to wait for its own record. */
  lemma BlockingCallThrowsIff(t: Trace, m: nat, n: nat, args: seq<Word>)
    requires Run(t) && m < n < |t.events| && BlockingCall(t.events[m]) && t.events[n] == Script(Rec.Return)
    requires forall i :: m < i <= n ==> !t.states[i].at.Free?
    requires |args| <= 20
    ensures var e, s, s' := t.events[m], t.states[m], t.states[n + 1];
            && e.callee in s.recs
            && if e.caller == e.callee || s.recs[e.callee].waiting
               then s'.at.Free? && Enabled(s', Invoke(e.callee, e.callee, args, false, false))
               else s'.at == Stranded(e.caller)
  {
    assert Follows(t, m);
    BlockingCallGoesOn(t, m, n);
    assert Follows(t, n);
    InCallNext(t, n);
    RunKeeps(t, n + 1);
    assert RecordInv(t.states[n + 1], t.events[m].callee);
  }

  // ---------- blocked for ever ----------

  /** No post is left over on the record, and none will be: its worker serves nothing. */
  predicate NothingLeftOver(s: Sys, r: Rid) {
    r in s.recs && s.recs[r].workFinished == 0 && s.recs[r].worker.Waiting?
  }

  /** What decides, before a blocking call, that it never returns. */
  predicate BlocksForEver(s: Sys, e: Event)
    requires BlockingCall(e)
  {
    MakesPromise(s, e) && NothingLeftOver(s, e.caller)
  }

  lemma IdleWorkerStays(q: Rec.State, e: Rec.Event)
    requires Handshake(q) && q.script.Idle? && q.worker.Waiting? && q.workFinished == 0 && Rec.Enabled(q, e)
    ensures !IsWorkerStep(e) && !e.Consume? && !IsCallerStep(e)
  {
  }

  lemma NothingComesUp(t: Trace, n: nat, r: Rid)
    requires Run(t) && n < |t.events| && NothingLeftOver(t.states[n], r)
    requires !t.states[n].at.Free? && !IsIn(t.states[n].at, r)
    ensures NothingLeftOver(t.states[n + 1], r)
    ensures t.events[n] != Wake || t.states[n].at != Stranded(r)
  {
    RunKeeps(t, n);
    RecordAt(t, n, r);
    var o := RecordNext(t, n, r);
    if o.Some? { IdleWorkerStays(t.states[n].recs[r], o.value); }
  }

  lemma NothingLeftOverAfter(t: Trace, m: nat)
    requires Run(t) && m < |t.events| && BlockingCall(t.events[m]) && t.events[m].caller != t.events[m].callee
    ensures t.events[m].caller in t.fptrs
    ensures NothingLeftOver(t.states[m + 1], t.events[m].caller) <==> NothingLeftOver(t.states[m], t.events[m].caller)
  {
    RunKeeps(t, m);
    assert Follows(t, m);
    var o := RecordNext(t, m, t.events[m].caller);
  }

  ghost predicate SameDeliveries(s: Sys, s': Sys) {
    forall r :: r in s.recs ==> r in s'.recs && s'.recs[r].delivered == s.recs[r].delivered
  }

  lemma OnlyResolveDelivers(q: Rec.State, e: Rec.Event)
    requires Rec.Enabled(q, e) && !e.Dispatch?
    ensures Rec.Step(q, e).delivered == q.delivered
  {
  }

  lemma NothingIsDelivered(t: Trace, n: nat)
    requires Run(t) && n < |t.events| && (!t.states[n].at.Free? || t.events[n].Invoke?)
    ensures SameDeliveries(t.states[n], t.states[n + 1])
  {
    RunKeeps(t, n);
    assert Follows(t, n);
    forall r | r in t.states[n].recs
      ensures r in t.states[n + 1].recs && t.states[n + 1].recs[r].delivered == t.states[n].recs[r].delivered
    {
      var o := RecordNext(t, n, r);
      if o.Some? { OnlyResolveDelivers(t.states[n].recs[r], o.value); }
    }
  }

  /** A blocking call that makes a promise while nothing is left over on the caller's record never
      returns, and no promise of any record is ever resolved again. */
  lemma {:induction false} BlocksForEverHolds(t: Trace, m: nat, n: nat)
    requires Run(t) && m < n < |t.states| && BlockingCall(t.events[m]) && BlocksForEver(t.states[m], t.events[m])
    ensures StillOn(t, m, n) && NothingLeftOver(t.states[n], t.events[m].caller)
    ensures SameDeliveries(t.states[m], t.states[n])
  {
    if n == m + 1 {
      BlockingCallBegins(t, m);
      NothingLeftOverAfter(t, m);
      NothingIsDelivered(t, m);
    } else {
      BlocksForEverHolds(t, m, n - 1);
      BlockedNext(t, m, n - 1);
    }
  }

  lemma BlockedNext(t: Trace, m: nat, n: nat)
    requires Run(t) && m < n < |t.events| && BlockingCall(t.events[m]) && BlocksForEver(t.states[m], t.events[m])
    requires StillOn(t, m, n) && NothingLeftOver(t.states[n], t.events[m].caller)
    requires SameDeliveries(t.states[m], t.states[n])
    ensures StillOn(t, m, n + 1) && NothingLeftOver(t.states[n + 1], t.events[m].caller)
    ensures SameDeliveries(t.states[m], t.states[n + 1])
  {
    assert OnItsWay(t.states[n], t.events[m]);
    BlockingCallGoesOn(t, m, n);
    NothingComesUp(t, n, t.events[m].caller);
    NothingIsDelivered(t, n);
    if t.states[n].at.In? {
      InCallNext(t, n);
    } else {
      StaysBlocked(t, n);
    }
  }

  lemma StaysBlocked(t: Trace, n: nat)
    requires Run(t) && n < |t.events| && t.states[n].at.Stranded? && t.events[n] != Wake
    ensures t.states[n + 1].at == t.states[n].at
  {
    assert Follows(t, n);
  }

  // ---------- returning ----------

  /** A post is left over on the record, or its worker is on the way to one. */
  predicate PostToCome(q: Rec.State) {
    q.workFinished > 0 || q.worker.Signalling? || (q.waiting && Serving(q))
  }

  /** Moves its worker still needs for that. */
  function PostDistance(q: Rec.State): nat {
    if q.workFinished > 0 then 0 else Tail(q)
  }

  lemma PostComesNearer(q: Rec.State, e: Rec.Event)
    requires Handshake(q) && q.script.Idle? && PostToCome(q) && Rec.Enabled(q, e) && IsWorkerStep(e)
    ensures PostToCome(Rec.Step(q, e))
    ensures PostDistance(Rec.Step(q, e)) + (if q.workFinished == 0 then 1 else 0) <= PostDistance(q)
  {
  }

  lemma PostDistanceIsSmall(q: Rec.State)
    requires Handshake(q) && q.script.Idle? && PostToCome(q)
    ensures PostDistance(q) <= 5 && (PostDistance(q) == 0 <==> q.workFinished > 0)
  {
  }

  /** The moves of r's worker, from state lo to state hi, while no post is left over there. */
  function MovesToPost(t: Trace, r: Rid, lo: nat, hi: nat): nat
    requires lo <= hi <= |t.events| && hi < |t.states|
  {
    if lo == hi then 0
    else
      var s, e := t.states[hi - 1], t.events[hi - 1];
      MovesToPost(t, r, lo, hi - 1)
          + (if e.Worker? && e.r == r && r in s.recs && s.recs[r].workFinished == 0 then 1 else 0)
  }

  lemma PostComesFrom(t: Trace, m: nat)
    requires Run(t) && m < |t.events| && BlockingCall(t.events[m]) && t.events[m].caller != t.events[m].callee
    requires !NothingLeftOver(t.states[m], t.events[m].caller)
    ensures t.events[m].caller in t.fptrs && t.events[m].caller in t.states[m + 1].recs
    ensures PostToCome(t.states[m + 1].recs[t.events[m].caller])
  {
    RunKeeps(t, m);
    assert Follows(t, m);
    var o := RecordNext(t, m, t.events[m].caller);
  }

  lemma PostComesNext(t: Trace, n: nat, x: Rid)
    requires Run(t) && n < |t.events| && x in t.fptrs && !IsIn(t.states[n].at, x) && !t.states[n].at.Free?
    requires t.events[n] != Wake && x in t.states[n].recs && PostToCome(t.states[n].recs[x])
    ensures x in t.states[n + 1].recs && PostToCome(t.states[n + 1].recs[x])
    ensures PostDistance(t.states[n + 1].recs[x])
            + (if t.events[n].Worker? && t.events[n].r == x && t.states[n].recs[x].workFinished == 0 then 1 else 0)
            <= PostDistance(t.states[n].recs[x])
  {
    RecordAt(t, n, x);
    var o := RecordNext(t, n, x);
    KindOnRecord(t.states[n], t.events[n], x);
    if o.Some? { PostComesNearer(t.states[n].recs[x], o.value); }
  }

  lemma {:induction false} PostComes(t: Trace, m: nat, n: nat)
    requires Run(t) && m < n < |t.states| && BlockingCall(t.events[m]) && MakesPromise(t.states[m], t.events[m])
    requires !NothingLeftOver(t.states[m], t.events[m].caller) && StillOn(t, m, n)
    ensures var x := t.events[m].caller;
            && x in t.fptrs && x in t.states[n].recs && PostToCome(t.states[n].recs[x])
            && MovesToPost(t, x, m + 1, n) + PostDistance(t.states[n].recs[x]) <= 5
  {
    var x := t.events[m].caller;
    if n == m + 1 {
      PostComesFrom(t, m);
      BlockingCallBegins(t, m);
      RecordAt(t, n, x);
      PostDistanceIsSmall(t.states[n].recs[x]);
    } else {
      PostComes(t, m, n - 1);
      assert OnItsWay(t.states[n - 1], t.events[m]) && OnItsWay(t.states[n], t.events[m]);
      NotWoken(t, n - 1);
      PostComesNext(t, n - 1, x);
    }
  }

  lemma NotWoken(t: Trace, n: nat)
    requires Run(t) && n < |t.events| && !t.states[n + 1].at.Free?
    ensures t.events[n] != Wake
  {
    assert Follows(t, n);
  }

  /** Otherwise a blocking call that makes a promise does return, on a post that an earlier call has
      left or will leave on the caller's record: the caller's worker needs at most five moves of its
      own for it, whatever the others do, and until then it can always make the next one; after that,
      the script thread, once it waits, can take the post. */
  lemma BlockingCallReturns(t: Trace, m: nat, n: nat) returns (e: Event)
    requires Run(t) && m < n < |t.states| && BlockingCall(t.events[m]) && MakesPromise(t.states[m], t.events[m])
    requires !NothingLeftOver(t.states[m], t.events[m].caller)
    requires forall i :: m < i <= n ==> !t.states[i].at.Free?
    ensures StillOn(t, m, n) && Enabled(t.states[n], e) && (e.Script? || e.Worker? || e == Wake)
    ensures var x, s := t.events[m].caller, t.states[n];
            && x in s.recs && MovesToPost(t, x, m + 1, n) <= 5
            && (MovesToPost(t, x, m + 1, n) == 5 ==> s.recs[x].workFinished > 0)
            && (s.at.Stranded? ==> if s.recs[x].workFinished > 0 then e == Wake else e.Worker? && e.r == x)
  {
    BlockingCallGoesOn(t, m, n);
    PostComes(t, m, n);
    var x := t.events[m].caller;
    assert OnItsWay(t.states[n], t.events[m]);
    RecordAt(t, n, x);
    PostDistanceIsSmall(t.states[n].recs[x]);
    e := SomeThreadCanMove(t, n, x);
  }

  // ---------- the blocked script thread ----------

  /** The blocking call on whose account the script thread is not free. */
  lemma {:induction false} BlockedSince(t: Trace, n: nat) returns (m: nat)
    requires Run(t) && n < |t.states|
    requires t.states[n].at.Stranded? || (t.states[n].at.In? && t.states[n].at.waitsFor.Some?)
    ensures m < n && BlockingCall(t.events[m]) && StillOn(t, m, n)
  {
    assert n > 0;
    assert Follows(t, n - 1);
    if BlockingCall(t.events[n - 1]) {
      m := n - 1;
    } else {
      RunKeeps(t, n - 1);
      BlockedBefore(t, n - 1);
      m := BlockedSince(t, n - 1);
      assert OnItsWay(t.states[n - 1], t.events[m]);
    }
  }

  lemma BlockedBefore(t: Trace, n: nat)
    requires Run(t) && n < |t.events| && !BlockingCall(t.events[n])
    requires t.states[n + 1].at.Stranded? || (t.states[n + 1].at.In? && t.states[n + 1].at.waitsFor.Some?)
    ensures var s, s' := t.states[n], t.states[n + 1];
            s.at == s'.at || (s'.at.Stranded? && s.at.In? && s.at.waitsFor == Some(s'.at.caller))
  {
    assert Follows(t, n);
  }

  lemma BlockedMeansLost(t: Trace, m: nat, n: nat)
    requires Run(t) && m < n < |t.states| && BlockingCall(t.events[m]) && BlocksForEver(t.states[m], t.events[m])
    requires StillOn(t, m, n) && t.states[n].at.Stranded?
    ensures Lost(t.states[n])
  {
    BlocksForEverHolds(t, m, n);
    assert OnItsWay(t.states[n], t.events[m]);
  }

  /** The script thread is lost exactly if it is blocked by a call that, when it was made, would make
      a promise while nothing was left over on the caller's record. */
  lemma LostIff(t: Trace, n: nat)
    requires Run(t) && n < |t.states|
    ensures Lost(t.states[n]) <==>
              && t.states[n].at.Stranded?
              && exists m :: 0 <= m < n && BlockingCall(t.events[m])
                             && BlocksForEver(t.states[m], t.events[m]) && StillOn(t, m, n)
  {
    if t.states[n].at.Stranded? {
      forall m | 0 <= m < n && BlockingCall(t.events[m]) && BlocksForEver(t.states[m], t.events[m]) && StillOn(t, m, n)
        ensures Lost(t.states[n])
      {
        BlockedMeansLost(t, m, n);
      }
      var m := BlockedSince(t, n);
      assert OnItsWay(t.states[n], t.events[m]);
      BlockingCallGoesOn(t, m, n);
      if !NothingLeftOver(t.states[m], t.events[m].caller) {
        PostComes(t, m, n);
        RecordAt(t, n, t.states[n].at.caller);
      }
    }
  }

  /** And once lost, it is lost for ever. */
  lemma {:induction false} LostForEver(t: Trace, m: nat, n: nat)
    requires Run(t) && m <= n < |t.states| && Lost(t.states[m])
    ensures Lost(t.states[n]) && t.states[n].at == t.states[m].at
    ensures SameDeliveries(t.states[m], t.states[n])
  {
    if m < n {
      LostForEver(t, m, n - 1);
      NothingComesUp(t, n - 1, t.states[m].at.caller);
      StaysBlocked(t, n - 1);
      NothingIsDelivered(t, n - 1);
    }
  }
}
