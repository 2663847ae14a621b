/** What it means that the calls on a record are served as they should be, and exactly which actions
    spoil it. */
module AsyncService {
  import opened Bytes
  import opened AsyncCall
  import opened AsyncCallProofs

  // ----- served as it should be -----

  predicate RightlyExecuted(x: Invocation, c: Call) {
    x.target == c.target && x.redirected == c.redirected && x.skipped == c.redirected && x.args == EffectiveArgs(c)
  }

  /** Every call ran on its own arguments, and was reported to the script that waits for it: by a
      callback if it made a promise, by a post if not. */
  ghost predicate LogsMatch(s: State) {
    && |s.reports| <= |s.executed| <= |s.accepted|
    && (forall i :: 0 <= i < |s.executed| ==> RightlyExecuted(s.executed[i], s.accepted[i]))
    && (forall i :: 0 <= i < |s.reports| ==> s.reports[i] == !s.accepted[i].promised)
  }

  /** Numbers and results of the first `m` calls that made a promise. */
  function Results(accepted: seq<Call>, executed: seq<Invocation>, m: nat): seq<(int, Word)>
    requires m <= |accepted| && m <= |executed|
  {
    if m == 0 then [] else
    Results(accepted, executed, m - 1) + (if accepted[m - 1].promised then [(m - 1, executed[m - 1].result)] else [])
  }

  lemma {:induction false} ResultsOfPrefix(a: seq<Call>, x: seq<Invocation>, a': seq<Call>, x': seq<Invocation>, m: nat)
    requires m <= |a| && m <= |x| && a <= a' && x <= x'
    ensures Results(a, x, m) == Results(a', x', m)
  {
    if m > 0 { ResultsOfPrefix(a, x, a', x', m - 1); }
  }

  // ----- what every harmless action keeps -----

  /** The call in preparation, and its words on their way to the worker. */
  ghost predicate WordsMove(s: State)
    requires Handshake(s) && LogsMatch(s)
  {
    && Intact(s)
    && (Untaken(s) ==>
          var args, words := Current(s).args, s.frame.value.words;
          if s.script.Filling? then s.script.next <= |args| && words[..s.script.next] == args[..s.script.next]
          else words == args)
    && (Untaken(s) ==> s.redirection == RedirectionOf(Current(s)) && (s.worker.Clearing? ==> !Current(s).redirected))
    && (TakingOver(s) ==> s.redirection == RedirectionOf(Served(s)))
    && match s.worker
       case Copying(i, copied, skipped) =>
         var c, start := Current(s), if skipped then 1 else 0;
         && s.frame.value.words == c.args && skipped == c.redirected
         && start <= i <= |c.args| && copied == c.args[start..i]
       case Announcing(copied, skipped) => skipped == Served(s).redirected && copied == EffectiveArgs(Served(s))
       case Invoking(copied, skipped) => skipped == Served(s).redirected && copied == EffectiveArgs(Served(s))
       case Storing(result, _) => result == s.executed[|s.reports|].result
       case _ => true
  }

  /** The call the worker is serving. */
  function Served(s: State): Call
    requires |s.reports| < |s.accepted|
  {
    s.accepted[|s.reports|]
  }

  /** Only the last call can have a promise that is not resolved; until its callback has run,
      nothing else touches its promise and its result. */
  ghost predicate PromisesKept(s: State)
    requires LogsMatch(s)
  {
    var p := |s.reports|;
    && (p < |s.accepted| && s.accepted[p].promised ==> p == |s.accepted| - 1)
    && (p < |s.accepted| && Current(s).promised ==> s.promise == Some(|s.accepted| - 1))
    && (s.promise.Some? && s.promise.value != |s.accepted| ==>
          && s.promise.value == |s.accepted| - 1 && s.accepted != [] && Current(s).promised
          && (p < |s.accepted| || s.dispatches == 1))
    && (p < |s.accepted| && s.accepted[p].promised && (s.worker.Clearing? || s.worker.Reporting?) ==>
          p < |s.executed| && s.vars == Result(s.executed[p].result))
    && (if s.dispatches == 0 then s.delivered == Results(s.accepted, s.executed, p)
        else
          && s.dispatches == 1 && s.worker.Waiting? && p == |s.accepted| && p > 0 && s.accepted[p - 1].promised
          && s.promise == Some(p - 1) && s.vars == Result(s.executed[p - 1].result)
          && s.delivered == Results(s.accepted, s.executed, p - 1))
  }

  ghost predicate Good(s: State) {
    !s.fault && LogsMatch(s) && Handshake(s) && CallsWellFormed(s) && WordsMove(s) && PromisesKept(s)
  }

  function RedirectionOf(c: Call): Option<Function> {
    if c.redirected then Some(c.target) else None
  }

  /** The actions by which a call is not served as it should be: it is begun where its arguments will
      be stored over, or its redirection cleared; or the worker finds another redirection than the
      call's as it runs it; or waitingForResult other than the call left it, as it reports it. */
  predicate Harms(s: State, e: Event)
    requires Handshake(s) && Enabled(s, e)
  {
    match e
    case Begin(_, _, redirected, _) => Clobbers(s, e) || (s.worker.Clearing? && redirected)
    case Invoke(_) => s.redirection != RedirectionOf(Served(s))
    case Report => s.waiting == Served(s).promised
    case _ => false
  }

  lemma OneMoreWord(words: seq<Word>, args: seq<Word>, i: nat)
    requires i < |words| == |args| && words[..i] == args[..i]
    ensures words[i := args[i]][..i + 1] == args[..i + 1]
  {
    assert words[i := args[i]][..i + 1] == words[..i] + [args[i]];
  }

  lemma AllWords(words: seq<Word>, args: seq<Word>)
    requires |words| == |args| && words[..|words|] == args[..|words|]
    ensures words == args
  {
    assert words[..|words|] == words && args[..|words|] == args;
  }

  lemma OneMoreCopied(args: seq<Word>, start: nat, i: nat)
    requires start <= i <= |args|
    ensures i < |args| ==> args[start..i] + [args[i]] == args[start..i + 1]
    ensures i == |args| ==> args[start..i] == args[start..]
    ensures args[0..] == args
  {
  }

  lemma FaultFree(s: State, e: Event)
    requires Good(s) && Enabled(s, e) && !Harms(s, e)
    ensures !Step(s, e).fault && Intact(Step(s, e))
  {
    FaultStep(s, e);
  }

  lemma ScriptKeepsLogs(s: State, e: Event)
    requires LogsMatch(s) && Handshake(s) && Enabled(s, e) && !IsWorkerStep(e)
    ensures LogsMatch(Step(s, e))
  {
  }

  lemma InvokeKeepsLogs(s: State, e: Event)
    requires Good(s) && Enabled(s, e) && !Harms(s, e) && e.Invoke?
    ensures LogsMatch(Step(s, e))
  {
    assert Served(s) in s.accepted;
    var s' := Step(s, e);
    assert RightlyExecuted(s'.executed[|s.reports|], s'.accepted[|s.reports|]);
  }

  lemma ReportKeepsLogs(s: State)
    requires LogsMatch(s) && Handshake(s) && Enabled(s, Report) && !Harms(s, Report)
    ensures LogsMatch(Step(s, Report))
  {
  }

  lemma WorkerKeepsLogs(s: State, e: Event)
    requires LogsMatch(s) && Enabled(s, e) && IsWorkerStep(e) && !e.Invoke? && !e.Report?
    ensures LogsMatch(Step(s, e))
  {
  }

  lemma FillKeepsWords(s: State)
    requires Good(s) && Enabled(s, Fill) && LogsMatch(Step(s, Fill)) && Handshake(Step(s, Fill))
        && Intact(Step(s, Fill))
    ensures WordsMove(Step(s, Fill))
  {
    var i, words, args := s.script.next, s.frame.value.words, Current(s).args;
    if i < |args| { OneMoreWord(words, args, i); } else { AllWords(words, args); }
  }

  lemma CopyKeepsWords(s: State)
    requires Good(s) && Enabled(s, Copy) && LogsMatch(Step(s, Copy)) && Handshake(Step(s, Copy))
        && Intact(Step(s, Copy))
    ensures WordsMove(Step(s, Copy))
  {
    OneMoreCopied(Current(s).args, if s.worker.skipped then 1 else 0, s.worker.next);
  }

  lemma TakeKeepsWords(s: State)
    requires Good(s) && Enabled(s, Take)
    requires LogsMatch(Step(s, Take)) && Handshake(Step(s, Take)) && Intact(Step(s, Take))
    ensures WordsMove(Step(s, Take))
  {
    assert Current(s) in s.accepted;
  }

  lemma ScriptKeepsWords(s: State, e: Event)
    requires Good(s) && Enabled(s, e) && !Harms(s, e) && !IsWorkerStep(e) && !e.Fill?
    requires LogsMatch(Step(s, e)) && Handshake(Step(s, e)) && Intact(Step(s, e))
    ensures WordsMove(Step(s, e))
  {
  }

  lemma InvokerKeepsWords(s: State, e: Event)
    requires Good(s) && Enabled(s, e) && (e.Announce? || e.Invoke? || e.Store?)
    requires LogsMatch(Step(s, e)) && Handshake(Step(s, e)) && Intact(Step(s, e))
    ensures WordsMove(Step(s, e))
  {
  }

  lemma ReporterKeepsWords(s: State, e: Event)
    requires Good(s) && Enabled(s, e) && (e.Clear? || e.Report? || e.Signal?)
    requires LogsMatch(Step(s, e)) && Handshake(Step(s, e)) && Intact(Step(s, e))
    ensures WordsMove(Step(s, e))
  {
  }

  lemma WordsKeptMoving(s: State, e: Event)
    requires Good(s) && Enabled(s, e) && !Harms(s, e)
    requires LogsMatch(Step(s, e)) && Handshake(Step(s, e)) && Intact(Step(s, e))
    ensures WordsMove(Step(s, e))
  {
    if e.Fill? {
      FillKeepsWords(s);
    } else if e.Copy? {
      CopyKeepsWords(s);
    } else if e.Take? {
      TakeKeepsWords(s);
    } else if e.Announce? || e.Invoke? || e.Store? {
      InvokerKeepsWords(s, e);
    } else if IsWorkerStep(e) {
      ReporterKeepsWords(s, e);
    } else {
      ScriptKeepsWords(s, e);
    }
  }

  lemma BeginKeepsPromises(s: State, e: Event)
    requires LogsMatch(s) && Handshake(s) && PromisesKept(s) && Enabled(s, e) && e.Begin? && LogsMatch(Step(s, e))
    ensures PromisesKept(Step(s, e))
  {
    var s' := Step(s, e);
    ResultsOfPrefix(s.accepted, s.executed, s'.accepted, s'.executed, |s.reports|);
  }

  lemma DispatchKeepsPromises(s: State)
    requires LogsMatch(s) && Handshake(s) && PromisesKept(s) && Enabled(s, Dispatch) && LogsMatch(Step(s, Dispatch))
    ensures PromisesKept(Step(s, Dispatch))
  {
  }

  lemma ScriptKeepsPromises(s: State, e: Event)
    requires LogsMatch(s) && Handshake(s) && PromisesKept(s) && Enabled(s, e)
    requires !IsWorkerStep(e) && !e.Begin? && !e.Dispatch?
    requires LogsMatch(Step(s, e))
    ensures PromisesKept(Step(s, e))
  {
  }

  lemma InvokeKeepsPromises(s: State, e: Event)
    requires LogsMatch(s) && Handshake(s) && PromisesKept(s) && Enabled(s, e) && e.Invoke? && LogsMatch(Step(s, e))
    ensures PromisesKept(Step(s, e))
  {
    var s' := Step(s, e);
    ResultsOfPrefix(s.accepted, s.executed, s'.accepted, s'.executed, |s.reports|);
  }

  lemma ReportKeepsPromises(s: State)
    requires LogsMatch(s) && Handshake(s) && PromisesKept(s) && Enabled(s, Report) && LogsMatch(Step(s, Report))
    ensures PromisesKept(Step(s, Report))
  {
    assert s.waiting == !Served(s).promised by {
      assert Step(s, Report).reports[|s.reports|] == s.waiting;
    }
  }

  lemma StoreKeepsPromises(s: State)
    requires LogsMatch(s) && Handshake(s) && PromisesKept(s) && Enabled(s, Store) && LogsMatch(Step(s, Store))
    requires s.worker.result == s.executed[|s.reports|].result
    ensures PromisesKept(Step(s, Store))
  {
  }

  lemma WorkerKeepsPromises(s: State, e: Event)
    requires LogsMatch(s) && Handshake(s) && PromisesKept(s) && Enabled(s, e)
    requires e.Take? || e.Copy? || e.Announce?
    requires LogsMatch(Step(s, e))
    ensures PromisesKept(Step(s, e))
  {
  }

  lemma ReporterKeepsPromises(s: State, e: Event)
    requires LogsMatch(s) && Handshake(s) && PromisesKept(s) && Enabled(s, e) && (e.Clear? || e.Signal?)
    requires LogsMatch(Step(s, e))
    ensures PromisesKept(Step(s, e))
  {
  }

  lemma PromisesStayKept(s: State, e: Event)
    requires Good(s) && Enabled(s, e) && LogsMatch(Step(s, e))
    ensures PromisesKept(Step(s, e))
  {
    if e.Begin? {
      BeginKeepsPromises(s, e);
    } else if e.Dispatch? {
      DispatchKeepsPromises(s);
    } else if e.Invoke? {
      InvokeKeepsPromises(s, e);
    } else if e.Report? {
      ReportKeepsPromises(s);
    } else if e.Store? {
      StoreKeepsPromises(s);
    } else if e.Clear? || e.Signal? {
      ReporterKeepsPromises(s, e);
    } else if IsWorkerStep(e) {
      WorkerKeepsPromises(s, e);
    } else {
      ScriptKeepsPromises(s, e);
    }
  }

  lemma GoodKept(s: State, e: Event)
    requires Good(s) && Enabled(s, e) && !Harms(s, e)
    ensures Good(Step(s, e))
  {
    HandshakeKept(s, e);
    CallsStayWellFormed(s, e);
    FaultFree(s, e);
    if e.Invoke? {
      InvokeKeepsLogs(s, e);
    } else if e.Report? {
      ReportKeepsLogs(s);
    } else if IsWorkerStep(e) {
      WorkerKeepsLogs(s, e);
    } else {
      ScriptKeepsLogs(s, e);
    }
    PromisesStayKept(s, e);
    WordsKeptMoving(s, e);
  }

  // ----- what a harm leaves behind -----

  /** The worker will copy, copies, or has copied from the wrong argument on. */
  predicate Misled(s: State)
    requires Handshake(s)
  {
    || (Untaken(s) && Current(s).redirected && (s.worker.Clearing? || s.redirection.None?))
    || ((TakingOver(s) || s.worker.Invoking?) && s.worker.skipped != Served(s).redirected)
  }

  /** Some call was not served as it should be, or cannot be any more. */
  ghost predicate Bad(s: State)
    requires Handshake(s)
  {
    s.fault || !Intact(s) || Misled(s) || !LogsMatch(s)
  }

  lemma LogsGrow(s: State, e: Event)
    requires Enabled(s, e)
    ensures var s' := Step(s, e);
            s.accepted <= s'.accepted && s.executed <= s'.executed && s.reports <= s'.reports
  {
  }

  lemma MismatchIn(s: State, s': State)
    requires Handshake(s) && !LogsMatch(s)
    requires s.accepted <= s'.accepted && s.executed <= s'.executed && s.reports <= s'.reports
    ensures !LogsMatch(s')
  {
    if i :| 0 <= i < |s.executed| && !RightlyExecuted(s.executed[i], s.accepted[i]) {
      assert s'.executed[i] == s.executed[i] && s'.accepted[i] == s.accepted[i];
    } else {
      var i :| 0 <= i < |s.reports| && s.reports[i] != !s.accepted[i].promised;
      assert s'.reports[i] == s.reports[i] && s'.accepted[i] == s.accepted[i];
    }
  }

  lemma MisledStays(s: State, e: Event)
    requires Handshake(s) && Enabled(s, e) && Handshake(Step(s, e)) && Misled(s)
    ensures Misled(Step(s, e)) || (e.Invoke? && !LogsMatch(Step(s, e)))
  {
    if e.Invoke? { MisledRuns(s, e); } else { StillMisled(s, e); }
  }

  lemma MisledRuns(s: State, e: Event)
    requires Handshake(s) && Enabled(s, e) && e.Invoke? && Handshake(Step(s, e)) && Misled(s)
    ensures Misled(Step(s, e)) || !LogsMatch(Step(s, e))
  {
    if s.worker.skipped != Served(s).redirected {
      assert !RightlyExecuted(Step(s, e).executed[|s.reports|], Served(s));
    }
  }

  lemma StillMisled(s: State, e: Event)
    requires Handshake(s) && Enabled(s, e) && !e.Invoke? && Handshake(Step(s, e)) && Misled(s)
    ensures Misled(Step(s, e))
  {
    if IsWorkerStep(e) { WorkerStillMisled(s, e); }
  }

  lemma WorkerStillMisled(s: State, e: Event)
    requires Handshake(s) && Enabled(s, e) && IsWorkerStep(e) && !e.Invoke? && Handshake(Step(s, e)) && Misled(s)
    ensures Misled(Step(s, e))
  {
  }

  lemma BadStays(s: State, e: Event)
    requires Handshake(s) && Enabled(s, e) && Bad(s)
    ensures Handshake(Step(s, e)) && Bad(Step(s, e))
  {
    HandshakeKept(s, e);
    if s.fault || !Intact(s) {
      FaultStep(s, e);
    } else if Misled(s) {
      MisledStays(s, e);
    } else {
      LogsGrow(s, e);
      MismatchIn(s, Step(s, e));
    }
  }

  lemma HarmIsBad(s: State, e: Event)
    requires Handshake(s) && CallsWellFormed(s) && Enabled(s, e) && Harms(s, e)
    ensures Handshake(Step(s, e)) && Bad(Step(s, e))
  {
    HandshakeKept(s, e);
    var s' := Step(s, e);
    match e
    case Begin(_, _, _, _) => FaultStep(s, e);
    case Invoke(_) =>
      assert Served(s) in s.accepted;
      assert !RightlyExecuted(s'.executed[|s.reports|], s'.accepted[|s.reports|]);
    case Report => assert s'.reports[|s.reports|] != !s'.accepted[|s.reports|].promised;
  }

  lemma GoodOrBad(s: State, e: Event)
    requires Handshake(s) && CallsWellFormed(s) && Enabled(s, e)
    ensures Handshake(Step(s, e))
    ensures Good(s) && !Harms(s, e) ==> Good(Step(s, e))
    ensures Bad(s) || Harms(s, e) ==> Bad(Step(s, e))
  {
    HandshakeKept(s, e);
    if Bad(s) { BadStays(s, e); }
    if Harms(s, e) {
      HarmIsBad(s, e);
    } else if Good(s) {
      GoodKept(s, e);
    }
  }

  lemma GoodIsNotBad(s: State)
    requires Good(s)
    ensures !Bad(s)
  {
  }

  // ----- what that means for the calls -----

  /** Every one of these calls has run at most once, in order, on exactly its own arguments (the first
      left out when redirected), and all but the last two have run; each finished call that made a
      promise has it resolved exactly once, with the value its function returned, and each other one
      has posted once and has nothing handed back. */
  ghost predicate ServedOnce(q: State, calls: seq<Call>, values: seq<Word>) {
    && |q.reports| <= |q.executed| == |values| <= |calls| <= |q.reports| + 2
    && (forall i :: 0 <= i < |q.executed| ==>
          q.executed[i].target == calls[i].target
          && (calls[i].redirected ==> calls[i].args != [])
          && q.executed[i].args == (if calls[i].redirected then calls[i].args[1..] else calls[i].args))
    && (forall i :: 0 <= i < |q.reports| ==> q.reports[i] == !calls[i].promised)
    && (forall i, j :: 0 <= i < j < |q.delivered| ==> q.delivered[i].0 < q.delivered[j].0)
    && (forall d :: d in q.delivered ==> 0 <= d.0 < |values| && calls[d.0].promised && d.1 == values[d.0])
    && (forall i :: 0 <= i < |q.reports| && calls[i].promised && (i < |q.reports| - 1 || q.dispatches == 0) ==>
          (i, values[i]) in q.delivered)
  }

  /** The values in the log of what was run. */
  function Returned(x: seq<Invocation>): (values: seq<Word>)
    ensures |values| == |x| && forall i :: 0 <= i < |x| ==> values[i] == x[i].result
  {
    if x == [] then [] else Returned(x[..|x| - 1]) + [x[|x| - 1].result]
  }

  lemma {:induction false} ResultsAreDelivered(a: seq<Call>, x: seq<Invocation>, m: nat, d: (int, Word))
    requires m <= |a| && m <= |x|
    ensures d in Results(a, x, m) <==> 0 <= d.0 < m && a[d.0].promised && d.1 == x[d.0].result
  {
    if m > 0 { ResultsAreDelivered(a, x, m - 1, d); }
  }

  lemma {:induction false} ResultsInOrder(a: seq<Call>, x: seq<Invocation>, m: nat)
    requires m <= |a| && m <= |x|
    ensures forall i, j :: 0 <= i < j < |Results(a, x, m)| ==> Results(a, x, m)[i].0 < Results(a, x, m)[j].0
  {
    if m > 0 {
      ResultsInOrder(a, x, m - 1);
      var before := Results(a, x, m - 1);
      forall i | 0 <= i < |before| ensures before[i].0 < m - 1 {
        ResultsAreDelivered(a, x, m - 1, before[i]);
      }
    }
  }

  lemma DeliveriesAre(q: State, m: nat)
    requires m <= |q.accepted| && m <= |q.executed| && q.delivered == Results(q.accepted, q.executed, m)
    ensures forall d :: d in q.delivered <==> 0 <= d.0 < m && q.accepted[d.0].promised && d.1 == q.executed[d.0].result
    ensures forall i, j :: 0 <= i < j < |q.delivered| ==> q.delivered[i].0 < q.delivered[j].0
  {
    ResultsInOrder(q.accepted, q.executed, m);
    forall d ensures d in q.delivered <==> 0 <= d.0 < m && q.accepted[d.0].promised && d.1 == q.executed[d.0].result {
      ResultsAreDelivered(q.accepted, q.executed, m, d);
    }
  }

  lemma ArgumentsServed(q: State)
    requires Good(q)
    ensures |q.reports| <= |q.executed| <= |q.accepted| <= |q.reports| + 2
    ensures forall i :: 0 <= i < |q.executed| ==>
              q.executed[i].target == q.accepted[i].target
              && (q.accepted[i].redirected ==> q.accepted[i].args != [])
              && q.executed[i].args ==
                 (if q.accepted[i].redirected then q.accepted[i].args[1..] else q.accepted[i].args)
  {
    forall i | 0 <= i < |q.executed| ensures q.accepted[i].redirected ==> q.accepted[i].args != [] {
      assert q.accepted[i] in q.accepted;
    }
  }

  lemma PromisesServed(q: State)
    requires Good(q)
    ensures forall i, j :: 0 <= i < j < |q.delivered| ==> q.delivered[i].0 < q.delivered[j].0
    ensures forall d :: d in q.delivered ==>
              0 <= d.0 < |q.executed| && q.accepted[d.0].promised && d.1 == q.executed[d.0].result
    ensures forall i :: 0 <= i < |q.reports| && q.accepted[i].promised && (i < |q.reports| - 1 || q.dispatches == 0) ==>
              (i, q.executed[i].result) in q.delivered
  {
    DeliveriesAre(q, if q.dispatches == 0 then |q.reports| else |q.reports| - 1);
  }

  lemma CallsServed(q: State)
    requires Good(q)
    ensures ServedOnce(q, q.accepted, Returned(q.executed))
  {
    ArgumentsServed(q);
    PromisesServed(q);
  }

  /** Every one of these calls was served once, on its own arguments and without a fault. */
  ghost predicate AllServed(q: State, calls: seq<Call>, values: seq<Word>) {
    && !q.fault && ServedOnce(q, calls, values) && |q.executed| == |q.reports| == |calls|
    && forall i :: 0 <= i < |q.executed| ==>
         q.executed[i].redirected == calls[i].redirected && q.executed[i].skipped == calls[i].redirected
  }

  lemma ServedIsNotBad(q: State)
    requires Handshake(q) && CallsWellFormed(q) && AtRest(q)
    requires AllServed(q, q.accepted, Returned(q.executed))
    ensures !Bad(q)
  {
    forall i | 0 <= i < |q.executed| ensures RightlyExecuted(q.executed[i], q.accepted[i]) { }
  }

  lemma GoodIsServed(q: State)
    requires Good(q) && AtRest(q)
    ensures AllServed(q, q.accepted, Returned(q.executed))
  {
    CallsServed(q);
  }

  // ----- the redirection as the worker finds it -----

  /** The worker is about to run another function than its call's. */
  predicate Deluded(s: State)
    requires Handshake(s)
  {
    s.worker.Invoking? && s.redirection != RedirectionOf(Served(s))
  }

  lemma ScriptDeludes(s: State, e: Event)
    requires Good(s) && Enabled(s, e) && !Harms(s, e) && !IsWorkerStep(e) && Handshake(Step(s, e))
    ensures Deluded(Step(s, e)) <==>
              if e.BadCall? then s.worker.Invoking? && e.named != RedirectionOf(Served(s)) else Deluded(s)
  {
  }

  lemma WorkerDeludes(s: State, e: Event)
    requires Good(s) && Enabled(s, e) && IsWorkerStep(e) && Handshake(Step(s, e))
    ensures Deluded(Step(s, e)) <==> Deluded(s) && !e.Invoke?
  {
  }

  /** Only an invalid call changes what it will run, and it runs it once. */
  lemma DelusionStep(s: State, e: Event)
    requires Good(s) && Enabled(s, e) && !Harms(s, e)
    ensures Handshake(Step(s, e))
    ensures Deluded(Step(s, e)) <==>
              if e.BadCall? then s.worker.Invoking? && e.named != RedirectionOf(Served(s))
              else Deluded(s) && !e.Invoke?
  {
    HandshakeKept(s, e);
    if IsWorkerStep(e) { WorkerDeludes(s, e); } else { ScriptDeludes(s, e); }
  }

  // ----- promises that no call will resolve -----

  /** An invalid parameter has left a promise behind. */
  predicate Wedged(s: State) {
    s.promise == Some(|s.accepted|)
  }

  lemma WedgeStep(s: State, e: Event)
    requires Good(s) && Enabled(s, e)
    ensures Wedged(Step(s, e)) <==> Wedged(s) || (e.BadCall? && !e.raises && !s.waiting)
  {
  }

  lemma PromiseAtRest(s: State)
    requires Good(s) && AtRest(s)
    ensures s.promise.Some? <==> Wedged(s)
  {
  }
}
