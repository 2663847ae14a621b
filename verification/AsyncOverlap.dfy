/** Calls that are begun while the worker still serves one that its caller has given up: which of
    them spoil something, as long as nothing but calls on the record's own account touches it. */
module AsyncOverlap {
  import opened Bytes
  import opened AsyncCall
  import opened AsyncCallProofs
  import opened AsyncService

  /** No other blocking call sets the flag, and no invalid call comes while the worker is about to
      read the redirection. */
  predicate Plain(s: State, e: Event) {
    !e.Mark? && (e.BadCall? ==> !e.raises && !s.worker.Invoking?)
  }

  /** A call is begun after the worker has announced an earlier one and before it has reported it. */
  predicate Overlaps(s: State, e: Event) {
    e.Begin? && (s.worker.Invoking? || s.worker.Storing? || s.worker.Clearing? || s.worker.Reporting?)
  }

  // ----- without an overlap -----

  ghost predicate OneAtATime(s: State) {
    && Handshake(s) && |s.accepted| <= |s.reports| + 1
    && (|s.accepted| == |s.reports| ==> !s.waiting)
    && (|s.accepted| == |s.reports| + 1 ==>
          && s.waiting == !Current(s).promised
          && (Untaken(s) || TakingOver(s) || s.worker.Invoking? ==> s.redirection == RedirectionOf(Current(s))))
  }

  lemma ScriptTakesTurns(s: State, e: Event)
    requires OneAtATime(s) && Enabled(s, e) && Plain(s, e) && !Overlaps(s, e) && !IsWorkerStep(e)
    ensures OneAtATime(Step(s, e)) && !Harms(s, e)
  {
    HandshakeKept(s, e);
  }

  lemma WorkerTakesTurns(s: State, e: Event)
    requires OneAtATime(s) && Enabled(s, e) && IsWorkerStep(e)
    ensures OneAtATime(Step(s, e)) && !Harms(s, e)
  {
    HandshakeKept(s, e);
  }

  lemma TurnsKept(s: State, e: Event)
    requires OneAtATime(s) && Enabled(s, e) && Plain(s, e) && !Overlaps(s, e)
    ensures OneAtATime(Step(s, e)) && !Harms(s, e)
  {
    if IsWorkerStep(e) { WorkerTakesTurns(s, e); } else { ScriptTakesTurns(s, e); }
  }

  // ----- after an overlap -----

  /** Some call that made no promise will be reported with waitingForResult clear: the next one to be
      reported, or the one after it, because the next report clears it. */
  predicate Victim(s: State)
    requires Handshake(s)
  {
    && |s.reports| < |s.accepted|
    && if s.waiting then Untaken(s) && (s.worker.Clearing? || s.worker.Reporting?) && !Current(s).promised
       else !Served(s).promised
  }

  lemma OverlapMakesVictim(s: State, e: Event)
    requires Good(s) && Enabled(s, e) && Overlaps(s, e)
    ensures Handshake(Step(s, e)) && (Bad(Step(s, e)) || Victim(Step(s, e)))
  {
    HandshakeKept(s, e);
    if Clobbers(s, e) { HarmIsBad(s, e); }
  }

  lemma ReportWithVictim(s: State)
    requires Good(s) && Enabled(s, Report) && Victim(s)
    ensures Handshake(Step(s, Report)) && (Bad(Step(s, Report)) || Victim(Step(s, Report)))
  {
    HandshakeKept(s, Report);
    if Harms(s, Report) { HarmIsBad(s, Report); }
  }

  lemma VictimStays(s: State, e: Event)
    requires Handshake(s) && Enabled(s, e) && Plain(s, e) && Victim(s) && !e.Report? && !Clobbers(s, e)
    ensures Handshake(Step(s, e)) && Victim(Step(s, e))
  {
    HandshakeKept(s, e);
  }

  /** In a good state the victim remains, or a new one takes its place, until something has gone wrong. */
  lemma VictimUntilBad(s: State, e: Event)
    requires Good(s) && Enabled(s, e) && Plain(s, e) && Victim(s)
    ensures Handshake(Step(s, e)) && (Bad(Step(s, e)) || Victim(Step(s, e)))
  {
    if e.Report? {
      ReportWithVictim(s);
    } else if Clobbers(s, e) {
      OverlapMakesVictim(s, e);
    } else {
      VictimStays(s, e);
    }
  }

  lemma NoVictimAtRest(s: State)
    requires Handshake(s) && AtRest(s)
    ensures !Victim(s)
  {
  }
}
