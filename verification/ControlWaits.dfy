/** What an attempt waits for: the answer to a proxy lookup, and a server that answers the discovery
    packet when the selected entry is a local one. */
module ControlWaits {
  import opened Bytes
  import opened ServerRotation
  import opened ControlChannel
  import opened ControlChannelProofs
  import opened ControlChannelRuns

  /** The entry at this place, counted from 1, is "local". */
  predicate LocalAt(c: Config, i: nat) {
    1 <= i <= |c.servers| && c.servers[i - 1] == Local
  }

  /** Settings and scripts under which every attempt asks for the proxy first. */
  ghost predicate AlwaysLooksUp(c: Config, w: World) {
    c.autoproxy && forall n :: w(n).lookupStarts
  }

  /** `found`: some server has answered the discovery packet. `looked`: some lookup has resolved. */
  ghost predicate Patient(c: Config, w: World, s: State, found: bool, looked: bool) {
    && (s.multicastUrl ==> found) && (s.autoproxyDone ==> looked)
    && (forall a <- s.attempts :: LocalAt(c, a.server) ==> found)
    && (AlwaysLooksUp(c, w) && s.attempts != [] ==> looked)
  }

  lemma {:induction false} ConnectWaits(c: Config, w: World, s: State, s': State, found: bool, looked: bool)
    requires Patient(c, w, s, found, looked) && s' == Connect(c, w, s)
    ensures Patient(c, w, s', found, looked)
    decreases if s.retry.time == 0 then 1 else 0, 0
  {
    if s.link.state == 0 && s.retry.time == 0 {
      ConnectExWaits(c, w, FirstBackOff(s.(clock := s.clock + 1), w(s.clock).random), s', found, looked);
    }
  }

  lemma {:induction false} ConnectExWaits(c: Config, w: World, s: State, s': State, found: bool, looked: bool)
    requires Patient(c, w, s, found, looked) && s' == ConnectEx(c, w, s)
    ensures Patient(c, w, s', found, looked)
    decreases if s.retry.time == 0 then 1 else 0, 3
  {
    if s.link.state == 0 && c.servers != [] {
      var a := w(s.clock);
      var s1 := s.(clock := s.clock + 1);
      if !(c.autoproxy && !s1.autoproxyDone && a.lookupStarts) {
        var s2 := s1.(rotation := Rotate(s1.rotation, |c.servers|, a.pick));
        if AwaitsDiscovery(c, s2) {
          ConnectWaits(c, w, s2, s', found, looked);
        } else {
          TryServerWaits(c, w, s2, a, s', found, looked);
        }
      }
    }
  }

  lemma PrepareWaits(c: Config, w: World, s: State, a: Answer, found: bool, looked: bool)
    requires Patient(c, w, s, found, looked) && (LocalAt(c, s.rotation.index) ==> found)
    requires AlwaysLooksUp(c, w) ==> looked
    ensures Patient(c, w, Prepare(c, s, a).0, found, looked)
  {
    var (s', _) := Prepare(c, s, a);
    forall x | x in s'.attempts ensures LocalAt(c, x.server) ==> found {
      assert x in s.attempts || x.server == s.rotation.index;
    }
  }

  lemma {:induction false} TryServerWaits(c: Config, w: World, s: State, a: Answer, s': State, found: bool,
                                         looked: bool)
    requires Patient(c, w, s, found, looked) && (LocalAt(c, s.rotation.index) ==> found)
    requires AlwaysLooksUp(c, w) ==> looked
    requires s' == TryServer(c, w, s, a)
    ensures Patient(c, w, s', found, looked)
    decreases if s.retry.time == 0 then 1 else 0, 1
  {
    PrepareWaits(c, w, s, a, found, looked);
    var (s1, plan) := Prepare(c, s, a);
    if plan.Unreachable? { ConnectWaits(c, w, s1, s', found, looked); }
  }

  lemma FinishWaits(c: Config, w: World, s: State, r: RequestId, header: bool, s': State, found: bool, looked: bool)
    requires Patient(c, w, s, found, looked) && s' == Finish(c, w, s, r, header)
    ensures Patient(c, w, s', found, looked)
  {
    var s1 := s.(auth := NONE, link := Hangup(s.link, r), pending := Nothing);
    if !header {
      ConnectWaits(c, w, s1.(autoproxyDone := false, multicastUrl := false), s', found, looked);
    }
  }

  lemma TimeoutWaits(c: Config, w: World, s: State, r: RequestId, notified: bool, s': State, found: bool, looked: bool)
    requires Patient(c, w, s, found, looked) && s' == NetworkTimeout(c, w, s, r, notified)
    ensures Patient(c, w, s', found, looked)
  {
    var s1 := s.(link := s.link.(state := 0, watch := None));
    if notified {
      var s2 := Complete(c, w, s1, r, false);
      FinishWaits(c, w, Disconnect(s1, r, false), r, false, s2, found, looked);
      ConnectExWaits(c, w, s2, s', found, looked);
    } else {
      ConnectExWaits(c, w, s1.(link := Hangup(s1.link, r)), s', found, looked);
    }
  }

  lemma AnswersChangeNothingHere(k: Crypto, s: State, e: Event)
    requires Enabled(s, e) && (e.EEstablished? || e.EData?)
    ensures var s' := if e.EEstablished? then Established(k, s, e.r, e.peer, e.nonce, e.sendOk)
                      else Data(k, s, e.r, e.switching, e.cmd);
            s'.attempts == s.attempts && s'.multicastUrl == s.multicastUrl && s'.autoproxyDone == s.autoproxyDone
  {
  }

  lemma StepWaits(c: Config, w: World, k: Crypto, s: State, e: Event, s': State, found: bool, looked: bool)
    requires Patient(c, w, s, found, looked) && Enabled(s, e) && s' == Step(c, w, k, s, e)
    ensures Patient(c, w, s', found || e.EDiscovery?, looked || e.ELookupDone?)
  {
    match e
    case ERetryTimer => ConnectExWaits(c, w, s.(retry := s.retry.(timer := None)), s', found, looked);
    case ENetworkTimeout(r, notified) => TimeoutWaits(c, w, s, r, notified, s', found, looked);
    case EDiscovery =>
      if s.link.state == 0 { ConnectExWaits(c, w, s.(multicastUrl := true), s', true, looked); }
    case EAddressChanged =>
    case ELookupDone => ConnectExWaits(c, w, s.(lookups := s.lookups - 1, autoproxyDone := true), s', found, true);
    case EEstablished(_, _, _, _) => AnswersChangeNothingHere(k, s, e);
    case EData(_, _, _) => AnswersChangeNothingHere(k, s, e);
    case EComplete(_, _) =>
    case EAnnounce =>
    case EFinish => FinishWaits(c, w, s, s.pending.r, s.pending.header, s', found, looked);
  }

  predicate Found(t: Trace, n: nat)
    requires n <= |t.events|
  {
    exists i :: 0 <= i < n && t.events[i].EDiscovery?
  }

  predicate LookedUp(t: Trace, n: nat)
    requires n <= |t.events|
  {
    exists i :: 0 <= i < n && t.events[i].ELookupDone?
  }

  lemma {:induction false} PatientAt(t: Trace, n: nat)
    requires Run(t) && n < |t.states|
    ensures Patient(t.config, t.world, t.states[n], Found(t, n), LookedUp(t, n))
  {
    if n == 0 {
      ConnectWaits(t.config, t.world, Boot(t.stored), t.states[0], false, false);
    } else {
      PatientAt(t, n - 1);
      assert Follows(t, n - 1);
      StepWaits(t.config, t.world, t.crypto, t.states[n - 1], t.events[n - 1], t.states[n],
                Found(t, n - 1), LookedUp(t, n - 1));
    }
  }

  /** A local entry is tried only after some server has answered the discovery packet; and where every
      attempt asks for the proxy first, none is made before some lookup has resolved. */
  lemma AttemptsWait(t: Trace, n: nat, j: nat)
    requires Run(t) && n < |t.states| && j < |t.states[n].attempts|
    ensures LocalAt(t.config, t.states[n].attempts[j].server) ==> exists i :: 0 <= i < n && t.events[i] == EDiscovery
    ensures AlwaysLooksUp(t.config, t.world) ==> exists i :: 0 <= i < n && t.events[i] == ELookupDone
  {
    PatientAt(t, n);
    assert t.states[n].attempts[j] in t.states[n].attempts;
  }

  /** What an idle agent with servers does next, before it has tried one: it starts one lookup, if it is
      to look the proxy up and has not; or selects a server, and waits if that is local and none was found. */
  lemma NextStepOfConnecting(c: Config, w: World, s: State)
    requires s.link.state == 0 && c.servers != []
    ensures var a, s', r := w(s.clock), ConnectEx(c, w, s), Rotate(s.rotation, |c.servers|, w(s.clock).pick);
            var s1 := s.(clock := s.clock + 1, rotation := r);
            if c.autoproxy && !s.autoproxyDone && a.lookupStarts then
              s' == s.(clock := s.clock + 1, lookups := s.lookups + 1)
            else if LocalAt(c, r.index) && !s.multicastUrl then s' == Connect(c, w, s1)
            else s' == TryServer(c, w, s1, a)
  {
  }
}
