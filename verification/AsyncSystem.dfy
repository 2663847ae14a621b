/** The whole of asynchronous native calls: one script thread, and a record with its own worker for
    every native function that was called so. A run is any interleaving. */
module AsyncSystem {
  import opened Bytes
  import Rec = AsyncCall
  import opened AsyncCallProofs

  type Rid = nat
  type Word = int

  /** Where the script thread is: in no call, in MethodInvokeAsync on a record (and, if a blocking
      call brought it there, on its way to wait for the record of that call), or blocked. */
  datatype Where = Free | In(r: Rid, waitsFor: Option<Rid>) | Stranded(caller: Rid)

  datatype Sys = Sys(recs: map<Rid, Rec.State>, at: Where)

  /** X.async(..) or, blocking, X.async.wait(..) on the record of X = `caller`. If the first argument
      is another function's async object, the call is redirected: it runs X's function on that
      function's record, `callee`. A call is accepted, or refused because a promise is pending
      there, or has an invalid parameter, or too many. */
  datatype Event =
    | Invoke(caller: Rid, callee: Rid, args: seq<Word>, redirected: bool, waits: bool)
    | Refuse(caller: Rid, callee: Rid, waits: bool)
    | Invalid(caller: Rid, callee: Rid, redirected: bool, waits: bool)
    | TooMany(caller: Rid, waits: bool)
    | Script(e: Rec.Event)
    | Resolve(r: Rid)
    | Worker(r: Rid, e: Rec.Event)
    | Wake

  predicate IsCall(e: Event) {
    e.Invoke? || e.Refuse? || e.Invalid? || e.TooMany?
  }

  /** A blocking call of r's function, whatever becomes of it: it sets waitingForResult first. */
  predicate RaisesFlag(e: Event, r: Rid) {
    IsCall(e) && e.waits && e.caller == r
  }

  function BeginOf(s: Sys, e: Event): Rec.Event
    requires e.Invoke? && e.caller in s.recs
  {
    Rec.Begin(s.recs[e.caller].fptr, e.args, e.redirected, e.waits && e.caller == e.callee)
  }

  function BadCallOf(s: Sys, e: Event): Rec.Event
    requires e.Invalid? && e.caller in s.recs
  {
    Rec.BadCall(if e.redirected then Some(s.recs[e.caller].fptr) else None, e.waits && e.caller == e.callee)
  }

  predicate CanMark(s: Sys, e: Event)
    requires IsCall(e)
  {
    e.caller in s.recs && (e.waits ==> Rec.Enabled(s.recs[e.caller], Rec.Mark))
  }

  predicate Enabled(s: Sys, e: Event) {
    match e
    case Invoke(caller, callee, _, redirected, _) =>
      && s.at.Free? && callee in s.recs && (redirected || caller == callee) && CanMark(s, e)
      && Rec.Enabled(s.recs[callee], BeginOf(s, e))
    case Refuse(_, callee, _) => s.at.Free? && callee in s.recs && CanMark(s, e) && s.recs[callee].promise.Some?
    case Invalid(caller, callee, redirected, _) =>
      && s.at.Free? && callee in s.recs && (redirected || caller == callee) && CanMark(s, e)
      && Rec.Enabled(s.recs[callee], BadCallOf(s, e))
    case TooMany(_, _) => s.at.Free? && CanMark(s, e)
    case Script(e) => s.at.In? && s.at.r in s.recs && IsCallerStep(e) && Rec.Enabled(s.recs[s.at.r], e)
    case Resolve(r) => s.at.Free? && r in s.recs && Rec.Enabled(s.recs[r], Rec.Dispatch)
    case Worker(r, e) => r in s.recs && IsWorkerStep(e) && Rec.Enabled(s.recs[r], e)
    case Wake => s.at.Stranded? && s.at.caller in s.recs && Rec.Enabled(s.recs[s.at.caller], Rec.Consume)
  }

  function Do(s: Sys, r: Rid, e: Rec.Event): map<Rid, Rec.State>
    requires r in s.recs && Rec.Enabled(s.recs[r], e)
  {
    s.recs[r := Rec.Step(s.recs[r], e)]
  }

  function Marked(s: Sys, e: Event): map<Rid, Rec.State>
    requires IsCall(e) && CanMark(s, e)
  {
    if e.waits then Do(s, e.caller, Rec.Mark) else s.recs
  }

  /** A call that made no promise ends in an error, and so never waits. */
  function AfterReturn(s: Sys): Where
    requires s.at.In? && s.at.r in s.recs
  {
    if s.at.waitsFor.Some? && s.recs[s.at.r].promise.Some? then Stranded(s.at.waitsFor.value) else Free
  }

  function Step(s: Sys, e: Event): Sys
    requires Enabled(s, e)
  {
    match e
    case Invoke(caller, callee, _, _, waits) =>
      var recs := if caller == callee then s.recs else Marked(s, e);
      Sys(recs[callee := Rec.Step(s.recs[callee], BeginOf(s, e))], In(callee, if waits then Some(caller) else None))
    case Refuse(_, _, _) => Sys(Marked(s, e), Free)
    case Invalid(caller, callee, _, _) =>
      var recs := if caller == callee then s.recs else Marked(s, e);
      Sys(recs[callee := Rec.Step(s.recs[callee], BadCallOf(s, e))], Free)
    case TooMany(_, _) => Sys(Marked(s, e), Free)
    case Script(e) => Sys(Do(s, s.at.r, e), if e.Return? then AfterReturn(s) else s.at)
    case Resolve(r) => Sys(Do(s, r, Rec.Dispatch), Free)
    case Worker(r, e) => Sys(Do(s, r, e), s.at)
    case Wake => Sys(Do(s, s.at.caller, Rec.Consume), Free)
  }

  predicate IsIn(at: Where, r: Rid) {
    at.In? && at.r == r
  }

  /** An event on a record, as the record sees it. */
  function OnRecord(s: Sys, e: Event, r: Rid): Option<Rec.Event>
    requires Enabled(s, e)
  {
    match e
    case Invoke(_, callee, _, _, _) =>
      if r == callee then Some(BeginOf(s, e)) else if RaisesFlag(e, r) then Some(Rec.Mark) else None
    case Refuse(_, _, _) => if RaisesFlag(e, r) then Some(Rec.Mark) else None
    case Invalid(_, callee, _, _) =>
      if r == callee then Some(BadCallOf(s, e)) else if RaisesFlag(e, r) then Some(Rec.Mark) else None
    case TooMany(_, _) => if RaisesFlag(e, r) then Some(Rec.Mark) else None
    case Script(e) => if s.at.r == r then Some(e) else None
    case Resolve(q) => if q == r then Some(Rec.Dispatch) else None
    case Worker(q, e) => if q == r then Some(e) else None
    case Wake => if s.at.caller == r then Some(Rec.Consume) else None
  }

  /** What an event does to a record. */
  lemma EffectOnRecord(s: Sys, e: Event, r: Rid)
    requires Enabled(s, e) && r in s.recs
    ensures var s', o := Step(s, e), OnRecord(s, e, r);
            && r in s'.recs
            && if o.None? then s'.recs[r] == s.recs[r]
               else Rec.Enabled(s.recs[r], o.value) && s'.recs[r] == Rec.Step(s.recs[r], o.value)
  {
  }

  /** What kind of event that is. */
  lemma KindOnRecord(s: Sys, e: Event, r: Rid)
    requires Enabled(s, e)
    ensures OnRecord(s, e, r).Some? && Raises(OnRecord(s, e, r).value) <==> RaisesFlag(e, r)
    ensures OnRecord(s, e, r).Some? && OnRecord(s, e, r).value.Begin? <==> e.Invoke? && e.callee == r
    ensures OnRecord(s, e, r).Some? && OnRecord(s, e, r).value.BadCall? <==> e.Invalid? && e.callee == r
    ensures OnRecord(s, e, r).Some? && IsWorkerStep(OnRecord(s, e, r).value) <==> e.Worker? && e.r == r
    ensures OnRecord(s, e, r).Some? && IsCallerStep(OnRecord(s, e, r).value) <==> e.Script? && IsIn(s.at, r)
    ensures OnRecord(s, e, r).Some? && OnRecord(s, e, r).value.Report? <==> e == Worker(r, Rec.Report)
    ensures OnRecord(s, e, r).Some? && OnRecord(s, e, r).value.Dispatch? <==> e == Resolve(r)
  {
  }

  // ---------- what every step keeps ----------

  ghost predicate RecordInv(s: Sys, r: Rid)
    requires r in s.recs
  {
    Handshake(s.recs[r]) && CallsWellFormed(s.recs[r]) && (s.recs[r].script.Idle? <==> !IsIn(s.at, r))
  }

  predicate PlaceInv(s: Sys) {
    match s.at
    case Free => true
    case In(r, w) =>
      && r in s.recs && (w.Some? ==> w.value in s.recs)
      && (w == Some(r) ==> s.recs[r].promise.None?)
    case Stranded(x) => x in s.recs
  }

  ghost predicate SysInv(s: Sys) {
    PlaceInv(s) && forall r :: r in s.recs ==> RecordInv(s, r)
  }

  lemma ScriptMoves(s: Sys, e: Event, r: Rid)
    requires Enabled(s, e) && PlaceInv(s) && r in s.recs && (s.recs[r].script.Idle? <==> !IsIn(s.at, r))
    ensures r in Step(s, e).recs && (Step(s, e).recs[r].script.Idle? <==> !IsIn(Step(s, e).at, r))
  {
  }

  lemma RecordKeeps(s: Sys, e: Event, r: Rid)
    requires PlaceInv(s) && Enabled(s, e) && r in s.recs && RecordInv(s, r)
    ensures r in Step(s, e).recs && RecordInv(Step(s, e), r)
  {
    EffectOnRecord(s, e, r);
    ScriptMoves(s, e, r);
    var o := OnRecord(s, e, r);
    if o.Some? {
      HandshakeKept(s.recs[r], o.value);
      CallsStayWellFormed(s.recs[r], o.value);
    }
  }

  lemma PlaceKept(s: Sys, e: Event)
    requires PlaceInv(s) && Enabled(s, e)
    ensures PlaceInv(Step(s, e)) && Step(s, e).recs.Keys == s.recs.Keys
  {
  }

  lemma StepKeepsSys(s: Sys, e: Event)
    requires SysInv(s) && Enabled(s, e)
    ensures SysInv(Step(s, e)) && Step(s, e).recs.Keys == s.recs.Keys
  {
    PlaceKept(s, e);
    forall r | r in s.recs ensures RecordInv(Step(s, e), r) {
      RecordKeeps(s, e, r);
    }
  }

  // ---------- runs ----------

  datatype Trace = Trace(fptrs: map<Rid, Rec.Function>, states: seq<Sys>, events: seq<Event>)

  function Start(fptrs: map<Rid, Rec.Function>): Sys {
    Sys(map r | r in fptrs :: Rec.Start(fptrs[r]), Free)
  }

  ghost predicate Follows(t: Trace, i: nat)
    requires i < |t.events| && |t.states| == |t.events| + 1
  {
    Enabled(t.states[i], t.events[i]) && t.states[i + 1] == Step(t.states[i], t.events[i])
  }

  ghost predicate Run(t: Trace) {
    && |t.states| == |t.events| + 1 && t.states[0] == Start(t.fptrs)
    && forall i :: 0 <= i < |t.events| ==> Follows(t, i)
  }

  lemma {:induction false} RunKeeps(t: Trace, n: nat)
    requires Run(t) && n < |t.states|
    ensures SysInv(t.states[n]) && t.states[n].recs.Keys == t.fptrs.Keys
  {
    if n > 0 {
      RunKeeps(t, n - 1);
      assert Follows(t, n - 1);
      StepKeepsSys(t.states[n - 1], t.events[n - 1]);
    } else {
      forall r | r in t.fptrs ensures RecordInv(Start(t.fptrs), r) {
        assert Start(t.fptrs).recs[r] == Rec.Start(t.fptrs[r]);
        StartHandshake(t.fptrs[r]);
      }
    }
  }

  /** What holds of a record at any time. */
  lemma RecordAt(t: Trace, n: nat, r: Rid)
    requires Run(t) && n < |t.states| && r in t.fptrs
    ensures r in t.states[n].recs && Handshake(t.states[n].recs[r]) && CallsWellFormed(t.states[n].recs[r])
    ensures t.states[n].recs[r].script.Idle? <==> !IsIn(t.states[n].at, r)
  {
    RunKeeps(t, n);
    assert RecordInv(t.states[n], r);
  }

  lemma RecordAtStart(t: Trace, r: Rid)
    requires Run(t) && r in t.fptrs
    ensures r in t.states[0].recs && t.states[0].recs[r] == Rec.Start(t.fptrs[r])
  {
  }

  /** What an event of a run does to a record. */
  lemma RecordNext(t: Trace, n: nat, r: Rid) returns (o: Option<Rec.Event>)
    requires Run(t) && n < |t.events| && r in t.fptrs
    ensures r in t.states[n].recs && r in t.states[n + 1].recs && Enabled(t.states[n], t.events[n])
    ensures o == OnRecord(t.states[n], t.events[n], r)
    ensures var q, q' := t.states[n].recs[r], t.states[n + 1].recs[r];
            if o.None? then q' == q else Rec.Enabled(q, o.value) && q' == Rec.Step(q, o.value)
  {
    RecordAt(t, n, r);
    assert Follows(t, n);
    EffectOnRecord(t.states[n], t.events[n], r);
    o := OnRecord(t.states[n], t.events[n], r);
  }
}
