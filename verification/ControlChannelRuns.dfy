/** The main results about the control channel, each over every run. */
module ControlChannelRuns {
  import opened Bytes
  import opened ServerRotation
  import opened ControlChannel
  import opened ControlChannelProofs

  lemma {:induction false} RunKeeps(t: Trace, n: nat)
    requires Run(t) && n < |t.states|
    ensures Inv(t.config, t.states[n])
  {
    if n == 0 {
      BootKeeps(t.config, t.world, t.stored, t.states[0]);
    } else {
      RunKeeps(t, n - 1);
      assert Follows(t, n - 1);
      StepKeeps(t.config, t.world, t.crypto, t.states[n - 1], t.events[n - 1]);
    }
  }

  /** Under every interleaving of triggers the web client holds at most one request; it holds
      one exactly while the connection state is not idle, and every back-off is short. */
  lemma AtMostOneRequest(t: Trace, n: nat)
    requires Run(t) && n < |t.states|
    ensures |t.states[n].link.live| == (if t.states[n].link.state == 0 then 0 else 1)
    ensures t.states[n].retry.time == 0 || 500 <= t.states[n].retry.time < 480000
    ensures t.states[n].retry.timer.Some? ==> 500 <= t.states[n].retry.timer.value < 480000
    ensures t.states[n].rotation.tried <= t.states[n].rotation.index <= |t.config.servers|
  {
    RunKeeps(t, n);
  }

  // ----- Connected events -----

  lemma StepOnlyAppends(c: Config, w: World, k: Crypto, s: State, e: Event)
    requires Inv(c, s) && Enabled(s, e)
    ensures s.events <= Step(c, w, k, s, e).events
  {
    var s' := Step(c, w, k, s, e);
    if IsTrigger(e) {
      TriggerKeeps(c, w, k, s, e, s');
    } else {
      match e
      case ENetworkTimeout(r, notified) => TimeoutKeeps(c, w, s, r, notified, s');
      case EFinish => FinishKeeps(c, w, s, s.pending.r, s.pending.header, s');
      case _ =>
    }
  }

  lemma {:induction false} EventsGrow(t: Trace, m: nat, n: nat)
    requires Run(t) && m <= n < |t.states|
    ensures t.states[m].events <= t.states[n].events
  {
    if m < n {
      EventsGrow(t, m, n - 1);
      RunKeeps(t, n - 1);
      assert Follows(t, n - 1);
      StepOnlyAppends(t.config, t.world, t.crypto, t.states[n - 1], t.events[n - 1]);
    }
  }

  /** The events of a run alternate between 1 and 0, starting with 1. */
  lemma EventsAlternate(t: Trace, n: nat)
    requires Run(t) && n < |t.states|
    ensures Alternating(t.states[n].events)
  {
    RunKeeps(t, n);
  }

  /** What a listener attached in state m has been called with in state n: the call the hook
      makes, then the events emitted since. */
  function Seen(t: Trace, m: nat, n: nat): seq<int>
    requires m <= n < |t.states| && t.states[m].events <= t.states[n].events
  {
    HookCalls(t.states[m]) + t.states[n].events[|t.states[m].events|..]
  }

  /** Attached while a handler of a fully authenticated agent is in the script: before the
      Connected(1) still to come, or after Connected(0) and before the state is reset. */
  predicate AttachedInside(s: State) {
    s.auth == FULL && !s.pending.Nothing?
  }

  /** A listener attached in any state, in the middle of a handler too, sees an alternating
      sequence starting with 1, up to its first event if it was attached inside such a handler,
      and for ever exactly if it was not. */
  lemma ListenerSeesAlternation(t: Trace, m: nat, n: nat)
    requires Run(t) && m <= n < |t.states|
    ensures t.states[m].events <= t.states[n].events
    ensures Alternating(Seen(t, m, n)) <==> !AttachedInside(t.states[m]) || t.states[n].events == t.states[m].events
    ensures AttachedInside(t.states[m]) && t.states[n].events != t.states[m].events ==> [1, 1] <= Seen(t, m, n)
  {
    RunKeeps(t, m);
    RunKeeps(t, n);
    EventsGrow(t, m, n);
    var s, later := t.states[m], t.states[n].events[|t.states[m].events|..];
    if later != [] {
      assert later[0] == t.states[n].events[|s.events|];
      if AttachedInside(s) {
        assert Seen(t, m, n)[1] == 1;
      }
    } else {
      assert t.states[n].events == s.events;
    }
  }

  // ----- never stalling -----

  /** With usable settings the agent is stuck (no request, no timer, no lookup) only if the web
      client completed some request with a header, that is with an HTTP answer of its own. */
  lemma {:induction false} StallsOnlyAfterHttpAnswer(t: Trace, n: nat)
    requires Run(t) && n < |t.states| && Usable(t.config)
    requires forall i :: 0 <= i < n ==> !(t.events[i].EComplete? && t.events[i].header)
    ensures Alive(t.states[n]) && !(t.states[n].pending.Completing? && t.states[n].pending.header)
  {
    if n == 0 {
      BootKeeps(t.config, t.world, t.stored, t.states[0]);
    } else {
      StallsOnlyAfterHttpAnswer(t, n - 1);
      RunKeeps(t, n - 1);
      assert Follows(t, n - 1);
      StepKeeps(t.config, t.world, t.crypto, t.states[n - 1], t.events[n - 1]);
      if !t.events[n - 1].EComplete? {
        NoNewCompletion(t.config, t.world, t.crypto, t.states[n - 1], t.events[n - 1]);
      }
    }
  }

  lemma NoNewCompletion(c: Config, w: World, k: Crypto, s: State, e: Event)
    requires Inv(c, s) && Enabled(s, e) && !e.EComplete?
    ensures !Step(c, w, k, s, e).pending.Completing?
  {
    var s' := Step(c, w, k, s, e);
    if IsTrigger(e) {
      TriggerKeeps(c, w, k, s, e, s');
    } else {
      match e
      case ENetworkTimeout(r, notified) => TimeoutKeeps(c, w, s, r, notified, s');
      case EFinish => FinishKeeps(c, w, s, s.pending.r, s.pending.header, s');
      case _ =>
    }
  }

  /** Exactly when a completion leaves the agent stuck: it carries a header, and neither the
      retry timer nor a proxy lookup happens to be pending. */
  lemma CompletionStalls(t: Trace, n: nat)
    requires Run(t) && n + 1 < |t.events| && Usable(t.config) && t.events[n].EComplete?
    ensures t.events[n + 1].EFinish?
    ensures !Alive(t.states[n + 2]) <==>
              t.events[n].header && t.states[n].retry.timer.None? && t.states[n].lookups == 0
  {
    var s, s1, e := t.states[n], t.states[n + 1], t.events[n];
    RunKeeps(t, n);
    assert Follows(t, n);
    DisconnectKeeps(t.config, s, e.r, e.header);
    assert Follows(t, n + 1);
    FinishKeeps(t.config, t.world, s1, e.r, e.header, t.states[n + 2]);
    assert e.header ==> Hangup(s1.link, e.r).live == {};
  }

  /** A run that gets stuck: one plain server, first attempt answered by an HTTP error page. */
  lemma StalledRun(k: Crypto) returns (t: Trace)
    ensures Run(t) && Usable(t.config) && !Alive(t.states[|t.events|])
  {
    var c := OneServer();
    var s0 := Connect(c, Plainly(), Boot(None));
    FirstAttempt(None);
    var s1 := Disconnect(s0, 0, true);
    t := Trace(c, Plainly(), k, None, [s0, s1, Finish(c, Plainly(), s1, 0, true)], [EComplete(0, true), EFinish]);
    assert Follows(t, 0) && Follows(t, 1);
    assert Hangup(s1.link, 0).live == {};
  }

  function OneServer(): Config {
    Config([Remote], [Zeros(DIGEST_SIZE)], 48, false)
  }

  /** Every host resolves, there is no proxy, and every random number is 0. */
  function Plainly(): World {
    _ => Answer(0, 0, false, false, true, false, false)
  }

  lemma FirstAttempt(stored: Option<Digest>)
    ensures Connect(OneServer(), Plainly(), Boot(stored)) == FirstRequest(stored)
  {
    var c, w := OneServer(), Plainly();
    var s1 := Boot(stored).(clock := 1, retry := Retry(500, None));
    var s2 := s1.(clock := 2, rotation := Rotate(Initial, 1, 0));
    assert Connect(c, w, Boot(stored)) == ConnectEx(c, w, s1) == TryServer(c, w, s2, w(1));
  }

  function FirstRequest(stored: Option<Digest>): State {
    Boot(stored).(clock := 2, retry := Retry(500, None), rotation := Rotate(Initial, 1, 0),
                  serverHash := Padded(Zeros(DIGEST_SIZE)),
                  attempts := [Attempt(1, false)], link := Link(1, {0}, map[], 1, Some(0)))
  }

  // ----- listeners that see 1 twice -----

  /** All certificates hash to zeros, and every signature is good. */
  function Gullible(): Crypto {
    Crypto(_ => Zeros(DIGEST_SIZE), _ => [], _ => Some([]), _ => Zeros(DIGEST_SIZE), _ => [], _ => [],
           (_, _, _) => true)
  }

  const CONFIRM: seq<byte> := [0, 4]
  const VERIFY: seq<byte> := [0, 2, 0, 0, 0, 0, 0, 0, 0]

  /** One step of the single-server agent. */
  ghost predicate Goes(s: State, e: Event, s': State) {
    Enabled(s, e) && s' == Step(OneServer(), Plainly(), Gullible(), s, e)
  }

  /** Request `r` is established with a server that is known, or not. */
  lemma EstablishedStep(s: State, r: RequestId) returns (s': State)
    requires s.link == Link(1, {r}, map[], r + 1, Some(r)) && s.pending.Nothing?
    ensures Goes(s, EEstablished(r, [], [], true), s') && s'.link == Link(2, {r}, map[r := []], r + 1, None)
    ensures s'.auth == Auth(s.storedHash == Some(Zeros(DIGEST_SIZE)), false) && s'.pending.Nothing?
        && s'.events == s.events
    ensures s'.serverHash == s.serverHash && s'.storedHash == s.storedHash && s'.rotation == s.rotation
    ensures s.storedHash == Some(Zeros(DIGEST_SIZE)) ==> s'.retry == s.retry.(time := 0)
  {
    s' := Step(OneServer(), Plainly(), Gullible(), s, EEstablished(r, [], [], true));
  }

  /** The server confirms the agent. */
  lemma ConfirmStep(s: State, r: RequestId) returns (s': State)
    requires s.link == Link(2, {r}, map[r := []], r + 1, None) && s.pending.Nothing? && !s.auth.agent
    ensures Goes(s, EData(r, true, CONFIRM), s') && s'.link == s.link && s'.pending.Nothing?
        && s'.auth == Auth(s.auth.server, true)
    ensures s'.events == if s.auth.server then s.events + [1] else s.events
    ensures s'.serverHash == s.serverHash && s'.storedHash == s.storedHash && s'.rotation == s.rotation
        && s'.retry == s.retry
  {
    s' := Step(OneServer(), Plainly(), Gullible(), s, EData(r, true, CONFIRM));
  }

  /** The server proves its identity. */
  lemma VerifyStep(s: State, r: RequestId) returns (s': State)
    requires s.link == Link(2, {r}, map[r := []], r + 1, None) && s.pending.Nothing? && s.auth == Auth(false, true)
    requires s.serverHash == Zeros(DIGEST_SIZE)
    ensures Goes(s, EData(r, true, VERIFY), s') && s'.pending.Announcing? && s'.auth == FULL && s'.events == s.events
  {
    assert VERIFY[2..][0] == 0 && VERIFY[2..][1] == 0;
    assert VerifiesServer(Gullible(), s, [], VERIFY);
    s' := Step(OneServer(), Plainly(), Gullible(), s, EData(r, true, VERIFY));
  }

  lemma AnnounceStep(s: State) returns (s': State)
    requires s.pending.Announcing? && s.auth == FULL
    ensures Goes(s, EAnnounce, s') && s'.events == s.events + [1]
  {
    s' := Step(OneServer(), Plainly(), Gullible(), s, EAnnounce);
  }

  lemma DisconnectStep(s: State, r: RequestId) returns (s': State)
    requires s.link == Link(2, {r}, map[r := []], r + 1, None) && s.pending.Nothing? && s.auth == FULL
    ensures Goes(s, EComplete(r, false), s') && s'.pending == Completing(r, false) && s'.auth == FULL
        && s'.link == s.link
    ensures s'.events == s.events + [0] && s'.storedHash == s.storedHash && s'.rotation == s.rotation
        && s'.retry == s.retry
  {
    s' := Step(OneServer(), Plainly(), Gullible(), s, EComplete(r, false));
  }

  /** The connection is reset and the next attempt made at once. */
  lemma FinishStep(s: State) returns (s': State)
    requires s.link == Link(2, {0}, map[0 := []], 1, None) && s.retry == Retry(0, None)
        && s.rotation == Rotate(Initial, 1, 0)
    requires s.pending == Completing(0, false)
    ensures Goes(s, EFinish, s') && s'.link == Link(1, {1}, map[], 2, Some(1)) && s'.pending.Nothing?
    ensures s'.events == s.events && s'.storedHash == s.storedHash
  {
    var c, w := OneServer(), Plainly();
    var s1 := s.(auth := NONE, link := Hangup(s.link, 0), pending := Nothing, autoproxyDone := false,
                 multicastUrl := false);
    assert s1.link == Link(0, {}, map[], 1, None);
    var s2 := s1.(clock := s.clock + 1, retry := Retry(500, None));
    assert Rotate(s.rotation, 1, 0) == s.rotation;
    assert Connect(c, w, s1) == ConnectEx(c, w, s2) == TryServer(c, w, s2.(clock := s.clock + 2), w(s.clock + 1));
    s' := Connect(c, w, s1);
  }

  ghost predicate Chain(stored: Option<Digest>, states: seq<State>, events: seq<Event>) {
    && |states| == |events| + 1 && states[0] == FirstRequest(stored)
    && forall i :: 0 <= i < |events| ==> Goes(states[i], events[i], states[i + 1])
  }

  lemma ChainIsRun(stored: Option<Digest>, states: seq<State>, events: seq<Event>)
    requires Chain(stored, states, events)
    ensures Run(Trace(OneServer(), Plainly(), Gullible(), stored, states, events))
  {
    var t := Trace(OneServer(), Plainly(), Gullible(), stored, states, events);
    FirstAttempt(stored);
    forall i | 0 <= i < |events| ensures Follows(t, i) {
      assert Goes(states[i], events[i], states[i + 1]);
    }
  }

  /** The agent is confirmed before the server is verified. A listener attached by the script
      that sending the agent information runs is called by the hook and by the announcement. */
  lemma SeesOneTwiceWhileAnnouncing() returns (t: Trace)
    ensures Run(t) && |t.states| == 5 && t.states[3].events <= t.states[4].events
    ensures t.states[3].pending.Announcing? && Seen(t, 3, 4) == [1, 1]
  {
    var s0 := FirstRequest(None);
    var s1 := EstablishedStep(s0, 0);
    var s2 := ConfirmStep(s1, 0);
    assert Padded(Zeros(DIGEST_SIZE)) == Zeros(DIGEST_SIZE);
    var s3 := VerifyStep(s2, 0);
    var s4 := AnnounceStep(s3);
    var events := [EEstablished(0, [], [], true), EData(0, true, CONFIRM), EData(0, true, VERIFY), EAnnounce];
    ChainIsRun(None, [s0, s1, s2, s3, s4], events);
    t := Trace(OneServer(), Plainly(), Gullible(), None, [s0, s1, s2, s3, s4], events);
  }

  /** The connection of a fully authenticated agent ends and another one succeeds. A listener
      attached by the script that Connected(0) runs is called by the hook and misses that 0. */
  lemma SeesOneTwiceWhileCompleting() returns (t: Trace)
    ensures Run(t) && |t.states| == 7 && t.states[3].events <= t.states[6].events
    ensures t.states[3].pending.Completing? && t.states[3].events == [1, 0] && Seen(t, 3, 6) == [1, 1]
  {
    var stored := Some(Zeros(DIGEST_SIZE));
    var s0 := FirstRequest(stored);
    var s1 := EstablishedStep(s0, 0);
    var s2 := ConfirmStep(s1, 0);
    var s3 := DisconnectStep(s2, 0);
    var s4 := FinishStep(s3);
    var s5 := EstablishedStep(s4, 1);
    var s6 := ConfirmStep(s5, 1);
    var states := [s0, s1, s2, s3, s4, s5, s6];
    var events := [EEstablished(0, [], [], true), EData(0, true, CONFIRM), EComplete(0, false), EFinish,
                   EEstablished(1, [], [], true), EData(1, true, CONFIRM)];
    ChainIsRun(stored, states, events);
    t := Trace(OneServer(), Plainly(), Gullible(), stored, states, events);
  }

  // ----- server rotation -----

  /** The proxy setting does not change over the run: always one that parses, or never any. */
  ghost predicate SteadyProxy(w: World, proxy: bool) {
    forall t :: w(t).proxy == proxy && (proxy ==> w(t).proxyParses)
  }

  /** With a proxy the closed form; without one, the same server for ever. */
  ghost predicate History(servers: nat, proxy: bool, r: Rotation, attempts: seq<Attempt>) {
    if attempts == [] then r == Initial
    else if !proxy then
      && 1 <= r.index <= servers && r.tried == 0
      && forall k :: 0 <= k < |attempts| ==> attempts[k] == Attempt(r.index, false)
    else
      var first := attempts[0].server;
      && 1 <= first <= servers
      && AfterAttempts(r, |attempts|, first, servers)
      && forall k :: 0 <= k < |attempts| ==> attempts[k] == KthAttempt(k, first, servers)
  }

  ghost predicate RotationInv(c: Config, proxy: bool, s: State) {
    History(|c.servers|, proxy, s.rotation, s.attempts)
  }

  lemma HistoryGrows(servers: nat, r: Rotation, attempts: seq<Attempt>, pick: nat, accepted: bool)
    requires servers > 0 && History(servers, true, r, attempts)
    ensures var (r', attempt) := NextAttempt(r, servers, pick, accepted);
            History(servers, true, r', attempts + [attempt])
  {
    var first := if attempts == [] then pick % servers + 1 else attempts[0].server;
    AttemptFollowsClosedForm(r, |attempts|, first, servers, pick, accepted);
    var (r', attempt) := NextAttempt(r, servers, pick, accepted);
    assert (attempts + [attempt])[0].server == first;
  }

  ghost predicate Plain(c: Config) {
    Usable(c) && forall i :: 0 <= i < |c.servers| ==> c.servers[i].Remote?
  }

  lemma {:induction false} ConnectRotates(c: Config, w: World, proxy: bool, s: State, s': State)
    requires Plain(c) && SteadyProxy(w, proxy) && RotationInv(c, proxy, s) && s' == Connect(c, w, s)
    ensures RotationInv(c, proxy, s') && s.attempts <= s'.attempts
    decreases if s.retry.time == 0 then 1 else 0, 0
  {
    if s.link.state == 0 && s.retry.time == 0 {
      var random := w(s.clock).random;
      ConnectExRotates(c, w, proxy, s.(clock := s.clock + 1, retry := s.retry.(time := random % 1500 + 500)), s');
    }
  }

  lemma {:induction false} ConnectExRotates(c: Config, w: World, proxy: bool, s: State, s': State)
    requires Plain(c) && SteadyProxy(w, proxy) && RotationInv(c, proxy, s) && s' == ConnectEx(c, w, s)
    ensures RotationInv(c, proxy, s') && s.attempts <= s'.attempts
    decreases if s.retry.time == 0 then 1 else 0, 3
  {
    if s.link.state == 0 {
      var a := w(s.clock);
      var s1 := s.(clock := s.clock + 1);
      if !(c.autoproxy && !s1.autoproxyDone && a.lookupStarts) {
        TryServerRotates(c, w, proxy, s1, a, s');
      }
    }
  }

  /** What RotationInv becomes after Prepare, once the request, if any, is sent. */
  ghost predicate PrepareGoesOn(c: Config, proxy: bool, s: State, a: Answer) {
    var (s', plan) := Prepare(c, s, a);
    && s.attempts <= s'.attempts
    && RotationInv(c, proxy, if plan.Send? then Request(s', a, plan.viaProxy) else s')
  }

  lemma PrepareRotatesProxied(c: Config, s: State, a: Answer, s1: State)
    requires Plain(c) && RotationInv(c, true, s) && a.proxy && a.proxyParses
    requires s1 == s.(rotation := Rotate(s.rotation, |c.servers|, a.pick))
    ensures PrepareGoesOn(c, true, s1, a)
  {
    HistoryGrows(|c.servers|, s.rotation, s.attempts, a.pick, a.proxyAccepted);
    RotateInRange(s.rotation, |c.servers|, a.pick);
  }

  lemma PrepareRotatesDirect(c: Config, s: State, a: Answer, s1: State)
    requires Plain(c) && RotationInv(c, false, s) && !a.proxy
    requires s1 == s.(rotation := Rotate(s.rotation, |c.servers|, a.pick))
    ensures PrepareGoesOn(c, false, s1, a)
  {
    assert Prepare(c, s1, a).0.attempts == s.attempts + [Attempt(s1.rotation.index, false)];
  }

  lemma {:induction false} TryServerRotates(c: Config, w: World, proxy: bool, s: State, a: Answer, s': State)
    requires Plain(c) && SteadyProxy(w, proxy) && RotationInv(c, proxy, s) && a.proxy == proxy
        && (proxy ==> a.proxyParses)
    requires s' == TryServer(c, w, s.(rotation := Rotate(s.rotation, |c.servers|, a.pick)), a)
    ensures RotationInv(c, proxy, s') && s.attempts <= s'.attempts
    decreases if s.retry.time == 0 then 1 else 0, 1
  {
    var s1 := s.(rotation := Rotate(s.rotation, |c.servers|, a.pick));
    if proxy { PrepareRotatesProxied(c, s, a, s1); } else { PrepareRotatesDirect(c, s, a, s1); }
    var (s2, plan) := Prepare(c, s1, a);
    if plan.Unreachable? {
      ConnectRotates(c, w, proxy, s2, s');
    }
  }

  lemma FinishRotates(c: Config, w: World, proxy: bool, s: State, r: RequestId, header: bool, s': State)
    requires Plain(c) && SteadyProxy(w, proxy) && RotationInv(c, proxy, s) && s' == Finish(c, w, s, r, header)
    ensures RotationInv(c, proxy, s')
  {
    var s1 := s.(auth := NONE, link := Hangup(s.link, r), pending := Nothing);
    assert RotationInv(c, proxy, s1);
    if !header {
      ConnectRotates(c, w, proxy, s1.(autoproxyDone := false, multicastUrl := false), s');
    }
  }

  lemma TimeoutRotates(c: Config, w: World, proxy: bool, s: State, r: RequestId, notified: bool, s': State)
    requires Plain(c) && SteadyProxy(w, proxy) && RotationInv(c, proxy, s) && s' == NetworkTimeout(c, w, s, r, notified)
    ensures RotationInv(c, proxy, s')
  {
    var s1 := s.(link := s.link.(state := 0, watch := None));
    assert RotationInv(c, proxy, s1);
    if notified {
      FinishRotates(c, w, proxy, Disconnect(s1, r, false), r, false, Complete(c, w, s1, r, false));
      ConnectExRotates(c, w, proxy, Complete(c, w, s1, r, false), s');
    } else {
      ConnectExRotates(c, w, proxy, s1.(link := Hangup(s1.link, r)), s');
    }
  }

  lemma AnswerRotates(k: Crypto, s: State, e: Event)
    requires Enabled(s, e) && (e.EEstablished? || e.EData?)
    ensures var s' := if e.EEstablished? then Established(k, s, e.r, e.peer, e.nonce, e.sendOk)
                      else Data(k, s, e.r, e.switching, e.cmd);
            s'.rotation == s.rotation && s'.attempts == s.attempts
  {
  }

  lemma StepRotates(c: Config, w: World, proxy: bool, k: Crypto, s: State, e: Event, s': State)
    requires Plain(c) && SteadyProxy(w, proxy) && RotationInv(c, proxy, s) && Enabled(s, e) && s' == Step(c, w, k, s, e)
    ensures RotationInv(c, proxy, s')
  {
    match e
    case ERetryTimer => ConnectExRotates(c, w, proxy, s.(retry := s.retry.(timer := None)), s');
    case ENetworkTimeout(r, notified) => TimeoutRotates(c, w, proxy, s, r, notified, s');
    case EDiscovery =>
      if s.link.state == 0 { ConnectExRotates(c, w, proxy, s.(multicastUrl := true), s'); }
    case EAddressChanged =>
    case ELookupDone => ConnectExRotates(c, w, proxy, s.(lookups := s.lookups - 1, autoproxyDone := true), s');
    case EEstablished(_, _, _, _) => AnswerRotates(k, s, e);
    case EData(_, _, _) => AnswerRotates(k, s, e);
    case EComplete(r, header) =>
    case EAnnounce =>
    case EFinish => FinishRotates(c, w, proxy, s, s.pending.r, s.pending.header, s');
  }

  lemma {:induction false} RotationKept(t: Trace, proxy: bool, n: nat)
    requires Run(t) && n < |t.states| && Plain(t.config) && SteadyProxy(t.world, proxy)
    ensures RotationInv(t.config, proxy, t.states[n])
  {
    if n == 0 {
      ConnectRotates(t.config, t.world, proxy, Boot(t.stored), t.states[0]);
    } else {
      RotationKept(t, proxy, n - 1);
      assert Follows(t, n - 1);
      StepRotates(t.config, t.world, proxy, t.crypto, t.states[n - 1], t.events[n - 1], t.states[n]);
    }
  }

  /** With a usable proxy and no "local" entry, the attempts of any run, over any number of
      connections and failures, are the closed-form sequence of ServerRotation: the server
      picked first is tried `first` times with and without the proxy, then every server in ring
      order once with and once without. */
  lemma AttemptsFollowClosedForm(t: Trace, n: nat, k: nat)
    requires Run(t) && n < |t.states| && Plain(t.config) && SteadyProxy(t.world, true) && k < |t.states[n].attempts|
    ensures var first := t.states[n].attempts[0].server;
            1 <= first <= |t.config.servers| && t.states[n].attempts[k] == KthAttempt(k, first, |t.config.servers|)
  {
    RotationKept(t, true, n);
  }

  /** So within 2*first + 2*(servers-1) attempts every server was tried both ways. */
  lemma EveryServerIsTried(t: Trace, n: nat, server: nat) returns (k: nat)
    requires Run(t) && n < |t.states| && Plain(t.config) && SteadyProxy(t.world, true)
    requires 1 <= server <= |t.config.servers| && t.states[n].attempts != []
    requires |t.states[n].attempts| >= 2 * t.states[n].attempts[0].server + 2 * (|t.config.servers| - 1)
    ensures k + 1 < 2 * t.states[n].attempts[0].server + 2 * (|t.config.servers| - 1)
    ensures t.states[n].attempts[k] == Attempt(server, true) && t.states[n].attempts[k + 1] == Attempt(server, false)
  {
    RotationKept(t, true, n);
    k := AllServersWithinBound(t.states[n].attempts[0].server, |t.config.servers|, server);
  }

  /** Without a proxy the agent never moves on from the server it picked first, however many
      servers are configured and however often that one fails. */
  lemma WithoutProxyNeverMovesOn(t: Trace, n: nat, k: nat)
    requires Run(t) && n < |t.states| && Plain(t.config) && SteadyProxy(t.world, false) && k < |t.states[n].attempts|
    ensures t.states[n].attempts[k] == Attempt(t.states[n].attempts[0].server, false)
  {
    RotationKept(t, false, n);
  }
}
