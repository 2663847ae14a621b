/** What the actions of the script thread and of the worker keep on one record, in every
    interleaving; and exactly when the calls on it are served as they should be. */
module AsyncCallProofs {
  import opened Bytes
  import opened AsyncCall

  predicate InCall(s: State) {
    !s.script.Idle?
  }

  /** A call was begun that the worker has not taken. */
  predicate Untaken(s: State) {
    s.script.Filling? || s.script.Posting? || (s.script.AwaitStart? && s.workAvailable > 0)
  }

  predicate TakingOver(s: State) {
    s.worker.Copying? || s.worker.Announcing?
  }

  /** The worker has taken a call that it has not reported. */
  predicate Serving(s: State) {
    !s.worker.Waiting? && !s.worker.Signalling?
  }

  /** Nothing is left to do for any call on the record. */
  predicate AtRest(s: State) {
    s.script.Idle? && s.worker.Waiting? && s.dispatches == 0
  }

  function Current(s: State): Call
    requires s.accepted != []
  {
    s.accepted[|s.accepted| - 1]
  }

  /** The actions that serve a call, of either thread. */
  predicate Progressing(e: Event) {
    IsCallerStep(e) || IsWorkerStep(e) || e.Dispatch?
  }

  predicate IsCallerStep(e: Event) {
    e.Fill? || e.Post? || e.Started? || e.Return?
  }

  predicate IsWorkerStep(e: Event) {
    e.Take? || e.Copy? || e.Announce? || e.Invoke? || e.Store? || e.Clear? || e.Report? || e.Signal?
  }

  /** Only Begin, an invalid parameter and a blocking call set waitingForResult. */
  predicate Raises(e: Event) {
    e.Mark? || (e.Begin? && e.raises) || (e.BadCall? && e.raises)
  }

  // ----- the hand-over, in every run -----

  /** The semaphores hand over one call at a time; every accepted call is untaken, being served or
      reported; and a caller's promise is its call's own. */
  ghost predicate Handshake(s: State) {
    && s.workAvailable <= 1 && s.workStarted <= 1
    && (if s.script.AwaitStart? then s.workAvailable + s.workStarted + (if TakingOver(s) then 1 else 0) == 1
        else s.workAvailable == 0 && s.workStarted == 0 && !TakingOver(s))
    && |s.executed| == |s.reports| + (if s.worker.Storing? || s.worker.Clearing? || s.worker.Reporting? then 1 else 0)
    && |s.accepted| == |s.reports| + (if Untaken(s) then 1 else 0) + (if Serving(s) then 1 else 0)
    && (s.worker.Copying? ==>
          && s.accepted != [] && |s.worker.copied| <= s.worker.next
          && (s.worker.copied == [] || s.worker.next <= |Current(s).args|))
    && (s.frame.Some? <==> InCall(s))
    && (InCall(s) ==>
          && s.accepted != []
          && s.promise == (if Current(s).promised then Some(|s.accepted| - 1) else None)
          && s.frame.value.id == |s.accepted| - 1 && |s.frame.value.words| == |Current(s).args|)
  }

  ghost predicate CallsWellFormed(s: State) {
    forall c <- s.accepted :: WellFormed(s.fptr, c.target, c.args, c.redirected)
  }

  lemma StartHandshake(fptr: Function)
    ensures Handshake(Start(fptr)) && CallsWellFormed(Start(fptr))
  {
  }

  lemma ScriptKeepsHandshake(s: State, e: Event)
    requires Handshake(s) && Enabled(s, e) && !IsWorkerStep(e)
    ensures Handshake(Step(s, e))
  {
  }

  lemma CopyKeepsHandshake(s: State)
    requires Handshake(s) && Enabled(s, Copy)
    ensures Handshake(Step(s, Copy))
  {
  }

  lemma TakerKeepsHandshake(s: State, e: Event)
    requires Handshake(s) && Enabled(s, e) && (e.Take? || e.Announce? || e.Invoke?)
    ensures Handshake(Step(s, e))
  {
  }

  lemma ReporterKeepsHandshake(s: State, e: Event)
    requires Handshake(s) && Enabled(s, e) && (e.Store? || e.Clear? || e.Report? || e.Signal?)
    ensures Handshake(Step(s, e))
  {
  }

  lemma HandshakeKept(s: State, e: Event)
    requires Handshake(s) && Enabled(s, e)
    ensures Handshake(Step(s, e))
  {
    if !IsWorkerStep(e) {
      ScriptKeepsHandshake(s, e);
    } else if e.Copy? {
      CopyKeepsHandshake(s);
    } else if e.Take? || e.Announce? || e.Invoke? {
      TakerKeepsHandshake(s, e);
    } else {
      ReporterKeepsHandshake(s, e);
    }
  }

  lemma CallsStayWellFormed(s: State, e: Event)
    requires CallsWellFormed(s) && Enabled(s, e)
    ensures CallsWellFormed(Step(s, e)) && Step(s, e).fptr == s.fptr && s.accepted <= Step(s, e).accepted
    ensures !e.Begin? ==> Step(s, e).accepted == s.accepted
  {
    if e.Begin? {
      var s' := Step(s, e);
      forall c | c in s'.accepted ensures WellFormed(s'.fptr, c.target, c.args, c.redirected) {
        if c !in s.accepted { assert c == Current(s'); }
      }
    }
  }

  lemma FlagStep(s: State, e: Event)
    requires Enabled(s, e)
    ensures Step(s, e).waiting <==> Raises(e) || (s.waiting && !e.Report?)
  {
  }

  // ----- work left -----

  /** Actions the worker still needs for the call it has taken. */
  function Tail(s: State): nat {
    match s.worker
    case Waiting => 0
    case Copying(i, _, _) => (if s.accepted != [] && i <= |Current(s).args| then |Current(s).args| - i else 0) + 7
    case Announcing(_, _) => 6
    case Invoking(_, _) => 5
    case Storing(_, _) => 4
    case Clearing => 3
    case Reporting => 2
    case Signalling => 1
  }

  /** Actions still needed before the record is at rest. */
  function Remaining(s: State): nat {
    var n := if s.accepted != [] then |Current(s).args| else 0;
    (match s.script
     case Filling(i) => (if i <= n then n - i else 0) + 4
     case Posting => 3
     case AwaitStart => 2
     case Returning => 1
     case Idle => 0)
    + (if Untaken(s) then n + 8 else 0) + Tail(s) + s.dispatches
  }

  lemma AtRestMeansNothingRemains(s: State)
    requires Handshake(s)
    ensures AtRest(s) <==> Remaining(s) == 0
  {
  }

  lemma CallerProgresses(s: State, e: Event)
    requires Handshake(s) && Enabled(s, e) && (IsCallerStep(e) || e.Dispatch?)
    ensures Remaining(Step(s, e)) < Remaining(s)
  {
  }

  lemma TakerProgresses(s: State, e: Event)
    requires Handshake(s) && Enabled(s, e) && (e.Take? || e.Copy? || e.Announce? || e.Invoke?)
    ensures Remaining(Step(s, e)) < Remaining(s)
  {
  }

  lemma ReporterProgresses(s: State, e: Event)
    requires Handshake(s) && Enabled(s, e) && (e.Store? || e.Clear? || e.Report? || e.Signal?)
    ensures Remaining(Step(s, e)) < Remaining(s)
  {
  }

  /** Every action of either thread for a call brings the record nearer to rest. */
  lemma StepProgresses(s: State, e: Event)
    requires Handshake(s) && Enabled(s, e) && Progressing(e)
    ensures Remaining(Step(s, e)) < Remaining(s)
  {
    if IsCallerStep(e) || e.Dispatch? {
      CallerProgresses(s, e);
    } else if e.Take? || e.Copy? || e.Announce? || e.Invoke? {
      TakerProgresses(s, e);
    } else {
      ReporterProgresses(s, e);
    }
  }

  /** A new call adds a fixed amount of work, the other actions none. */
  lemma WorkAdded(s: State, e: Event)
    requires Handshake(s) && Enabled(s, e) && !Progressing(e)
    ensures Remaining(Step(s, e)) == Remaining(s) + (if e.Begin? then 2 * |e.args| + 12 else 0)
  {
  }

  /** A record that is not at rest has an action to take, of the worker unless the script is in a
      call or has a callback to run. */
  lemma SomeAction(s: State) returns (e: Event)
    requires Handshake(s) && !AtRest(s)
    ensures Enabled(s, e)
    ensures if s.script.Idle? then IsWorkerStep(e) || e.Dispatch? else IsWorkerStep(e) || IsCallerStep(e)
    ensures !s.worker.Waiting? ==> IsWorkerStep(e)
  {
    match s.worker
    case Copying(_, _, _) => e := Copy;
    case Announcing(_, _) => e := Announce;
    case Invoking(_, _) => e := Invoke(0);
    case Storing(_, _) => e := Store;
    case Clearing => e := Clear;
    case Reporting => e := Report;
    case Signalling => e := Signal;
    case Waiting =>
      match s.script
      case Filling(_) => e := Fill;
      case Posting => e := Post;
      case AwaitStart => e := if s.workStarted > 0 then Started else Take;
      case Returning => e := Return;
      case Idle => e := Dispatch;
  }

  // ----- the caller's frame -----

  /** Until the worker has copied the arguments, data->vars points to them and will not be
      overwritten. */
  predicate Intact(s: State) {
    && (Untaken(s) ==> !s.worker.Invoking? && !s.worker.Storing?)
    && (Untaken(s) || s.worker.Copying? ==> s.vars.InFrame? && s.vars.id == |s.accepted| - 1)
  }

  /** A call is begun whose arguments the result of an earlier one will be stored over. */
  predicate Clobbers(s: State, e: Event) {
    e.Begin? && (s.worker.Invoking? || s.worker.Storing?)
  }

  lemma FaultStep(s: State, e: Event)
    requires Handshake(s) && Enabled(s, e)
    ensures var s' := Step(s, e);
            s'.fault || !Intact(s') <==> s.fault || !Intact(s) || Clobbers(s, e)
  {
  }

  // ----- counts -----

  function Count(reports: seq<bool>, posted: bool): nat {
    if reports == [] then 0
    else Count(reports[..|reports| - 1], posted) + (if reports[|reports| - 1] == posted then 1 else 0)
  }

  /** Every served call has queued one callback or posted once, and nothing else has. */
  ghost predicate Counted(s: State) {
    && s.workFinished + s.consumed + (if s.worker.Signalling? then 1 else 0) == Count(s.reports, true)
    && s.dispatches + |s.delivered| == Count(s.reports, false)
  }

  lemma CountsKept(s: State, e: Event)
    requires Counted(s) && Enabled(s, e)
    ensures Counted(Step(s, e))
  {
    if e.Report? {
      assert Step(s, e).reports[..|s.reports|] == s.reports;
    }
  }
}
