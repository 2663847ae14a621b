/** Asynchronous native calls on one FFI_AsyncData record, which the script thread and the record's
    worker thread share, with its three semaphores. Each event is one indivisible action of one of
    the two threads. */
module AsyncCall {
  import opened Bytes

  type Word = int
  type Function = int

  /** A call on this record. A redirected one names the record's function by its first argument and
      runs `target` on the record's worker. `promised`: it found waitingForResult clear and made a
      promise; a call that makes none ends in an error on the script's side. */
  datatype Call = Call(target: Function, args: seq<Word>, redirected: bool, promised: bool)

  /** What the worker did for a call: the function it ran, whether it took that from the
      redirection, whether it left out the first argument, the words it copied, the result. */
  datatype Invocation = Invocation(target: Function, redirected: bool, skipped: bool, args: seq<Word>, result: Word)

  /** data->vars: nothing that can be read, the arguments in the stack frame of call `id`, or a
      return value. */
  datatype Vars = Unset | InFrame(id: nat) | Result(value: Word)

  /** A caller's stack frame, while that caller has not returned. */
  datatype Frame = Frame(id: nat, words: seq<Word>)

  datatype ScriptAt = Idle | Filling(next: nat) | Posting | AwaitStart | Returning
  datatype WorkerAt =
    | Waiting
    | Copying(next: nat, copied: seq<Word>, skipped: bool)
    | Announcing(copied: seq<Word>, skipped: bool)
    | Invoking(copied: seq<Word>, skipped: bool)
    | Storing(result: Word, redirected: bool)
    | Clearing | Reporting | Signalling

  datatype State = State(
    script: ScriptAt,
    worker: WorkerAt,
    workAvailable: nat,
    workStarted: nat,
    workFinished: nat,
    promise: Option<nat>,
    waiting: bool,                    // waitingForResult
    fptr: Function,
    redirection: Option<Function>,
    vars: Vars,
    frame: Option<Frame>,
    dispatches: nat,                  // ChainDispatch callbacks queued for the script thread
    fault: bool,                      // the worker took something else for a caller's frame
    accepted: seq<Call>,              // log
    executed: seq<Invocation>,        // log
    reports: seq<bool>,               // log: a served call was reported by a post, not by a callback
    delivered: seq<(int, Word)>,      // log: call number and value a promise was resolved with
    consumed: nat)                    // log: posts of workFinished the script thread has taken

  function Start(fptr: Function): State {
    State(Idle, Waiting, 0, 0, 0, None, false, fptr, None, Unset, None, 0, false, [], [], [], [], 0)
  }

  /** `raises`: the call is a blocking one on the record's own function, which sets
      waitingForResult first. `Mark`: a blocking call of the record's function that does nothing
      else to the record. */
  datatype Event =
    | Begin(target: Function, args: seq<Word>, redirected: bool, raises: bool)
    | BadCall(named: Option<Function>, raises: bool)
    | Mark | Consume
    | Fill | Post | Started | Return | Dispatch
    | Take | Copy | Announce | Invoke(result: Word) | Store | Clear | Report | Signal

  const MAX_PARAMETERS := 20

  /** A call names the record's own function unless redirected, and then carries the function
      object as its first argument; longer argument lists are refused before anything happens. */
  predicate WellFormed(fptr: Function, target: Function, args: seq<Word>, redirected: bool) {
    |args| <= MAX_PARAMETERS && if redirected then args != [] else target == fptr
  }

  predicate Enabled(s: State, e: Event) {
    match e
    case Begin(target, args, redirected, _) =>
      s.script.Idle? && s.promise.None? && WellFormed(s.fptr, target, args, redirected)
    case BadCall(_, _) => s.script.Idle? && s.promise.None?
    case Mark => s.script.Idle?
    case Consume => s.script.Idle? && s.workFinished > 0
    case Fill => s.script.Filling?
    case Post => s.script.Posting?
    case Started => s.script.AwaitStart? && s.workStarted > 0
    case Return => s.script.Returning?
    case Dispatch => s.script.Idle? && s.dispatches > 0
    case Take => s.worker.Waiting? && s.workAvailable > 0
    case Copy => s.worker.Copying?
    case Announce => s.worker.Announcing?
    case Invoke(_) => s.worker.Invoking?
    case Store => s.worker.Storing?
    case Clear => s.worker.Clearing?
    case Report => s.worker.Reporting?
    case Signal => s.worker.Signalling?
  }

  /** What data->vars reads as when it is taken for a value. */
  function ValueOf(v: Vars): Word {
    if v.Result? then v.value else 0
  }

  function FrameWords(s: State): Option<seq<Word>> {
    if s.vars.InFrame? && s.frame.Some? && s.frame.value.id == s.vars.id then Some(s.frame.value.words) else None
  }

  function Step(s: State, e: Event): State
    requires Enabled(s, e)
  {
    match e
    // script thread, MethodInvokeAsync
    case Begin(target, args, redirected, raises) =>
      BeginStep(s.(waiting := s.waiting || raises), target, args, redirected)
    case BadCall(named, raises) => BadCallStep(s.(waiting := s.waiting || raises), named)
    case Fill => FillStep(s)
    case Post => s.(workAvailable := s.workAvailable + 1, script := AwaitStart)
    case Started => s.(workStarted := s.workStarted - 1, script := Returning)
    case Return => s.(frame := None, script := Idle)
    case Dispatch =>
      s.(dispatches := s.dispatches - 1, promise := None,
         delivered := s.delivered + [(if s.promise.Some? then s.promise.value else -1, ValueOf(s.vars))])
    // script thread, MethodInvokeAsync_wait
    case Mark => s.(waiting := true)
    case Consume => s.(workFinished := s.workFinished - 1, consumed := s.consumed + 1)
    // worker thread, MethodInvokeAsync_WorkerRunLoop
    case Take =>
      var skipped := s.redirection.Some?;
      s.(workAvailable := s.workAvailable - 1, worker := Copying(if skipped then 1 else 0, [], skipped))
    case Copy => CopyStep(s)
    case Announce => s.(workStarted := s.workStarted + 1, worker := Invoking(s.worker.copied, s.worker.skipped))
    case Invoke(result) =>
      var redirected := s.redirection.Some?;
      var target := if redirected then s.redirection.value else s.fptr;
      s.(executed := s.executed + [Invocation(target, redirected, s.worker.skipped, s.worker.copied, result)],
         worker := Storing(result, redirected))
    case Store => s.(vars := Result(s.worker.result), worker := if s.worker.redirected then Clearing else Reporting)
    case Clear => s.(redirection := None, worker := Reporting)
    case Report =>
      var s' := s.(reports := s.reports + [s.waiting], waiting := false);
      if s.waiting then s'.(worker := Signalling) else s'.(dispatches := s.dispatches + 1, worker := Waiting)
    case Signal => s.(workFinished := s.workFinished + 1, worker := Waiting)
  }

  function BeginStep(s: State, target: Function, args: seq<Word>, redirected: bool): State {
    var id := |s.accepted|;
    s.(script := Filling(0), promise := if s.waiting then None else Some(id),
       redirection := if redirected then Some(target) else None,
       vars := InFrame(id), frame := Some(Frame(id, seq(|args|, _ => 0))),
       accepted := s.accepted + [Call(target, args, redirected, !s.waiting)])
  }

  /** An invalid parameter is found after promise, arguments and redirection were set. */
  function BadCallStep(s: State, named: Option<Function>): State {
    s.(promise := if s.waiting then None else Some(|s.accepted|), redirection := named, vars := Unset)
  }

  function FillStep(s: State): State
    requires s.script.Filling?
  {
    var i := s.script.next;
    if s.frame.None? || s.accepted == [] then s.(script := Posting)
    else
      var args, words := s.accepted[|s.accepted| - 1].args, s.frame.value.words;
      if i >= |args| || i >= |words| then s.(script := Posting)
      else s.(frame := Some(s.frame.value.(words := words[i := args[i]])), script := Filling(i + 1))
  }

  /** One turn of the copy loop; its bound is read from the frame as well. */
  function CopyStep(s: State): State
    requires s.worker.Copying?
  {
    var i, copied, skipped := s.worker.next, s.worker.copied, s.worker.skipped;
    match FrameWords(s)
    case None => s.(fault := true, worker := Announcing(copied, skipped))
    case Some(words) =>
      if i < |words| then s.(worker := Copying(i + 1, copied + [words[i]], skipped))
      else s.(worker := Announcing(copied, skipped))
  }

  /** The arguments the native function must receive. */
  function EffectiveArgs(c: Call): seq<Word> {
    if c.redirected && c.args != [] then c.args[1..] else c.args
  }

  /** The worker's copy loop as it stands in the source. */
  method CopyArguments(vars: seq<Word>, redirected: bool) returns (copied: seq<Word>)
    requires redirected ==> vars != []
    ensures copied == if redirected then vars[1..] else vars
  {
    copied := [];
    var i := if redirected then 1 else 0;
    var start := i;
    while i < |vars|
      invariant start <= i <= |vars| && copied == vars[start..i]
    {
      copied := copied + [vars[i]];
      i := i + 1;
    }
  }
}
