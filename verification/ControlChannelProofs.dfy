/** What every run of the control channel keeps. */
module ControlChannelProofs {
  import opened Bytes
  import opened ServerRotation
  import opened ControlChannel

  predicate Alternating(events: seq<int>) {
    forall i :: 0 <= i < |events| ==> events[i] == if i % 2 == 0 then 1 else 0
  }

  predicate ShortDelay(ms: nat) {
    500 <= ms < 480000
  }

  /** The ServerID is the one configured for the server of the last attempt, filled up with zeros. */
  ghost predicate Selected(c: Config, s: State) {
    && s.attempts != []
    && var i := s.attempts[|s.attempts| - 1].server;
    && 1 <= i <= |c.serverIds| && |c.serverIds[i - 1]| <= |s.serverHash| == DIGEST_SIZE
    && c.serverIds[i - 1] <= s.serverHash
    && forall j :: |c.serverIds[i - 1]| <= j < DIGEST_SIZE ==> s.serverHash[j] == 0
  }

  /** No request while idle, one while connecting, the same one established while connected. */
  ghost predicate LinkInv(l: Link) {
    && l.state <= 2
    && (l.state == 0 ==> l.live == {})
    && (l.state != 0 ==> l.next > 0 && l.live == {l.next - 1})
    && l.peers.Keys == (if l.state == 2 then l.live else {})
    && (l.watch.Some? ==> l.state == 1 && l.watch.value in l.live)
  }

  ghost predicate RetryInv(r: Retry) {
    && (r.time == 0 || ShortDelay(r.time))
    && (r.timer.Some? ==> ShortDelay(r.timer.value))
  }

  /** Connected(1) is the last event emitted exactly while authentication is complete, except
      inside a handler: there it has not been emitted yet, or Connected(0) already has. */
  ghost predicate EventsInv(s: State) {
    && Alternating(s.events)
    && (|s.events| % 2 == 1 <==> s.auth == FULL && s.pending.Nothing?)
  }

  ghost predicate PendingInv(s: State) {
    match s.pending
    case Nothing => true
    case Announcing => s.link.state == 2 && s.auth.server
    case Completing(r, _) => r in s.link.live && s.link.watch.None?
  }

  ghost predicate Inv(c: Config, s: State) {
    && LinkInv(s.link)
    && RetryInv(s.retry)
    && InRange(s.rotation, |c.servers|)
    && EventsInv(s)
    && PendingInv(s)
    && (s.auth != NONE ==> s.link.state == 2)
    && (s.link.state != 0 ==> Selected(c, s))
  }

  ghost predicate Alive(s: State) {
    s.link.live != {} || s.retry.timer.Some? || s.lookups > 0
  }

  /** Fields connecting never touches. */
  ghost predicate SameSession(s: State, s': State) {
    && s'.auth == s.auth && s'.nonces == s.nonces && s'.storedHash == s.storedHash && s'.link.peers == s.link.peers
    && s'.events == s.events && s'.delivered == s.delivered && s'.pending == s.pending
  }

  lemma DelayIsShort(time: nat, random: nat)
    requires ShortDelay(time)
    ensures ShortDelay(Delay(time, random)) && Delay(time, random) >= (if time >= RETRY_CAP then RETRY_CAP else time)
  {
  }

  lemma SmallRemainder(a: nat, n: nat)
    requires a < n
    ensures a % n == a
  {
  }

  /** The delays that some random number makes: anything from the back-off so far to less than twice as
      much, and from 240000 milliseconds on anything from there to 359999. */
  lemma DelayRange(time: nat, delay: nat)
    requires time > 0
    ensures (exists random: nat :: Delay(time, random) == delay) <==>
              if time < 240000 then time <= delay < 2 * time else 240000 <= delay < 360000
  {
    if time < 240000 {
      if time <= delay < 2 * time {
        SmallRemainder(delay - time, time);
        assert Delay(time, delay - time) == delay;
      }
    } else if 240000 <= delay < 360000 {
      assert Delay(time, delay - 240000) == delay;
    }
  }

  /** Each armed timer runs for such a delay, which becomes the next back-off. */
  lemma ArmedForTheDelay(s: State, random: nat)
    requires s.retry.time > 0
    ensures ArmRetry(s, random).retry == Retry(Delay(s.retry.time, random), Some(Delay(s.retry.time, random)))
  {
  }

  /** The first back-off is anything from 500 to 1999 milliseconds, and no timer is armed for it. */
  lemma FirstBackOffRange(s: State, time: nat)
    ensures (exists random: nat :: FirstBackOff(s, random).retry == s.retry.(time := time)) <==> 500 <= time < 2000
  {
    if 500 <= time < 2000 { assert FirstBackOff(s, time - 500).retry == s.retry.(time := time); }
  }

  /** A change of the machine's addresses makes an idle agent try again in three seconds, and leaves one
      that is connecting or connected alone. */
  lemma AddressChangeRetriesSoon(s: State)
    ensures AddressChanged(s).retry == if s.link.state < 1 then Retry(3000, Some(3000)) else s.retry
    ensures AddressChanged(s) == s.(retry := AddressChanged(s).retry)
  {
  }

  /** What can come while no handler is in the script: discovery answers and address changes always, the
      armed timer, every lookup that was started, and of every live request its answers and its end. */
  lemma WhatCanCome(s: State, r: RequestId, peer: Cert, nonce: Digest, header: bool, cmd: seq<byte>)
    requires s.pending.Nothing?
    ensures Enabled(s, EDiscovery) && Enabled(s, EAddressChanged)
    ensures s.retry.timer != None ==> Enabled(s, ERetryTimer)
    ensures s.lookups != 0 ==> Enabled(s, ELookupDone)
    ensures r in s.link.live ==> Enabled(s, EComplete(r, header)) && Enabled(s, EData(r, false, cmd))
    ensures r in s.link.live && r !in s.link.peers ==> Enabled(s, EEstablished(r, peer, nonce, header))
    ensures r in s.link.live && r in s.link.peers && cmd != [] && cmd[1..] != [] ==> Enabled(s, EData(r, true, cmd))
    ensures s.link.watch == Some(r) ==> Enabled(s, ENetworkTimeout(r, header))
  {
  }

  lemma {:induction false} ConnectKeeps(c: Config, w: World, s: State, s': State)
    requires Inv(c, s) && s.pending.Nothing? && s' == Connect(c, w, s)
    ensures Inv(c, s') && SameSession(s, s') && (Usable(c) ==> Alive(s'))
    decreases if s.retry.time == 0 then 1 else 0, 0
  {
    if s.link.state == 0 {
      var random := w(s.clock).random;
      var s1 := s.(clock := s.clock + 1);
      if s.retry.time == 0 {
        ConnectExKeeps(c, w, s1.(retry := s1.retry.(time := random % 1500 + 500)), s');
      } else {
        DelayIsShort(s.retry.time, random);
      }
    }
  }

  lemma {:induction false} ConnectExKeeps(c: Config, w: World, s: State, s': State)
    requires Inv(c, s) && s.pending.Nothing? && s' == ConnectEx(c, w, s)
    ensures Inv(c, s') && SameSession(s, s') && (Usable(c) ==> Alive(s'))
    decreases if s.retry.time == 0 then 1 else 0, 3
  {
    if s.link.state == 0 && c.servers != [] {
      var a := w(s.clock);
      var s1 := s.(clock := s.clock + 1);
      if !(c.autoproxy && !s1.autoproxyDone && a.lookupStarts) {
        var s2 := s1.(rotation := Rotate(s1.rotation, |c.servers|, a.pick));
        RotateInRange(s1.rotation, |c.servers|, a.pick);
        if AwaitsDiscovery(c, s2) {
          ConnectKeeps(c, w, s2, s');
        } else {
          TryServerKeeps(c, w, s2, a, s');
        }
      }
    }
  }

  lemma PrepareKeeps(c: Config, s: State, a: Answer)
    requires Inv(c, s) && s.pending.Nothing? && s.link.state == 0 && s.rotation.index > 0
    ensures var (s', plan) := Prepare(c, s, a);
            && Inv(c, s') && SameSession(s, s') && s'.link == s.link
            && (plan.GiveUp? ==> !Usable(c)) && (!plan.GiveUp? ==> Selected(c, s'))
  {
  }

  lemma {:induction false} TryServerKeeps(c: Config, w: World, s: State, a: Answer, s': State)
    requires Inv(c, s) && s.pending.Nothing? && s.link.state == 0 && s.rotation.index > 0
    requires s' == TryServer(c, w, s, a)
    ensures Inv(c, s') && SameSession(s, s') && (Usable(c) ==> Alive(s'))
    decreases if s.retry.time == 0 then 1 else 0, 1
  {
    PrepareKeeps(c, s, a);
    match Prepare(c, s, a)
    case (_, GiveUp) =>
    case (s1, Send(viaProxy)) =>
    case (s1, Unreachable) => ConnectKeeps(c, w, s1, s');
  }

  lemma BootKeeps(c: Config, w: World, stored: Option<Digest>, s: State)
    requires s == Connect(c, w, Boot(stored))
    ensures Inv(c, s) && SameSession(Boot(stored), s) && (Usable(c) ==> Alive(s))
  {
    ConnectKeeps(c, w, Boot(stored), s);
  }

  /** What a completion leaves of the session. */
  ghost predicate Closed(s: State, s': State) {
    && s'.storedHash == s.storedHash && s'.delivered == s.delivered && s'.events == s.events
    && s'.auth == NONE && s'.link.peers == map[] && s'.pending == Nothing
  }

  lemma DisconnectKeeps(c: Config, s: State, r: RequestId, header: bool)
    requires Inv(c, s) && s.pending.Nothing? && r in s.link.live
    ensures Inv(c, Disconnect(s, r, header))
    ensures Disconnect(s, r, header).events == s.events + (if s.auth == FULL then [0] else [])
  {
  }

  lemma FinishKeeps(c: Config, w: World, s: State, r: RequestId, header: bool, s': State)
    requires Inv(c, s) && s.pending == Completing(r, header) && s' == Finish(c, w, s, r, header)
    ensures Inv(c, s') && Closed(s, s')
    ensures Usable(c) && !header ==> Alive(s')
  {
    var s1 := s.(auth := NONE, link := Hangup(s.link, r), pending := Nothing);
    assert s1.link.live == {} && s1.link.peers.Keys == {};
    if !header {
      ConnectKeeps(c, w, s1.(autoproxyDone := false, multicastUrl := false), s');
    }
  }

  /** Setting the agent bit emits Connected(1) exactly when it completes the pair. */
  lemma ConfirmKeeps(c: Config, s: State)
    requires Inv(c, s) && s.pending.Nothing? && s.link.state == 2 && s.auth != FULL
    ensures Inv(c, ServerAuthenticated(s.(auth := s.auth.(agent := true))))
  {
  }

  lemma AnnounceKeeps(c: Config, s: State)
    requires Inv(c, s) && s.pending.Announcing?
    ensures var s' := Announce(s);
            Inv(c, s') && s'.link == s.link && s'.storedHash == s.storedHash && s'.auth == s.auth
            && s'.delivered == s.delivered && s.events <= s'.events && s'.nonces == s.nonces
  {
  }

  /** Setting the server bit leaves the announcement pending. */
  lemma ProofKeeps(c: Config, s: State, h: Digest)
    requires Inv(c, s) && s.pending.Nothing? && s.link.state == 2 && s.auth != FULL
    ensures Inv(c, s.(auth := s.auth.(server := true), storedHash := Some(h), pending := Announcing))
  {
  }

  lemma RequestKeeps(c: Config, k: Crypto, s: State, peer: Cert, cmd: seq<byte>)
    requires Inv(c, s)
    ensures Inv(c, AuthRequest(k, s, peer, cmd))
  {
  }

  lemma CommandKeeps(c: Config, k: Crypto, s: State, r: RequestId, cmd: seq<byte>)
    requires Inv(c, s) && s.pending.Nothing? && r in s.link.peers && |cmd| >= 2
    ensures var s' := ProcessCommand(k, s, s.link.peers[r], cmd); Inv(c, s') && s'.link == s.link
  {
    if s.auth != FULL {
      ConfirmKeeps(c, s);
      ProofKeeps(c, s, k.certHash(s.link.peers[r]));
      RequestKeeps(c, k, s, s.link.peers[r], cmd);
    }
  }

  lemma EstablishedKeeps(c: Config, k: Crypto, s: State, r: RequestId, peer: Cert, nonce: Digest, sendOk: bool)
    requires Inv(c, s) && s.pending.Nothing? && r in s.link.live && r !in s.link.peers
    ensures var s' := Established(k, s, r, peer, nonce, sendOk); Inv(c, s') && s'.link.live == s.link.live
  {
    assert s.auth == NONE;
    assert s.link.peers[r := peer].Keys == {r};
  }

  lemma TimeoutKeeps(c: Config, w: World, s: State, r: RequestId, notified: bool, s': State)
    requires Inv(c, s) && s.pending.Nothing? && s.link.watch == Some(r) && s' == NetworkTimeout(c, w, s, r, notified)
    ensures Inv(c, s') && Closed(s, s')
    ensures Usable(c) ==> Alive(s')
  {
    var link := Hangup(s.link, r);
    assert link.live == {} && link.peers.Keys == {};
    var s2 := s.(link := link);
    if notified {
      var s3 := s2.(autoproxyDone := false, multicastUrl := false);
      ConnectKeeps(c, w, s3, Connect(c, w, s3));
      ConnectExKeeps(c, w, Connect(c, w, s3), s');
    } else {
      ConnectExKeeps(c, w, s2, s');
    }
  }

  /** Timers, discovery answers, address changes and finished lookups only start connecting. */
  predicate IsTrigger(e: Event) {
    e.ERetryTimer? || e.EDiscovery? || e.EAddressChanged? || e.ELookupDone?
  }

  lemma TriggerKeeps(c: Config, w: World, k: Crypto, s: State, e: Event, s': State)
    requires Inv(c, s) && Enabled(s, e) && IsTrigger(e) && s' == Step(c, w, k, s, e)
    ensures Inv(c, s') && SameSession(s, s')
    ensures Usable(c) && Alive(s) ==> Alive(s')
  {
    match e
    case ERetryTimer => ConnectExKeeps(c, w, s.(retry := s.retry.(timer := None)), s');
    case EDiscovery =>
      if s.link.state == 0 { ConnectExKeeps(c, w, s.(multicastUrl := true), s'); }
    case EAddressChanged =>
    case ELookupDone => ConnectExKeeps(c, w, s.(lookups := s.lookups - 1, autoproxyDone := true), s');
  }

  lemma StepKeeps(c: Config, w: World, k: Crypto, s: State, e: Event)
    requires Inv(c, s) && Enabled(s, e)
    ensures Inv(c, Step(c, w, k, s, e))
    ensures Usable(c) && Alive(s) && !(e.EFinish? && s.pending.header) ==> Alive(Step(c, w, k, s, e))
  {
    var s' := Step(c, w, k, s, e);
    if IsTrigger(e) {
      TriggerKeeps(c, w, k, s, e, s');
    } else {
      match e
      case ENetworkTimeout(r, notified) => TimeoutKeeps(c, w, s, r, notified, s');
      case EEstablished(r, peer, nonce, sendOk) => EstablishedKeeps(c, k, s, r, peer, nonce, sendOk);
      case EData(r, switching, cmd) =>
        if switching { CommandKeeps(c, k, Answered(s), r, cmd); }
      case EComplete(r, header) => DisconnectKeeps(c, s, r, header);
      case EAnnounce => AnnounceKeeps(c, s);
      case EFinish => FinishKeeps(c, w, s, s.pending.r, s.pending.header, s');
    }
  }
}
