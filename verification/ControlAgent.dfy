/** The agent's handlers as they update the container in place, each proved to do to the
    abstract state exactly what ControlChannel says. */
module ControlAgent {
  import opened Bytes
  import opened ServerRotation
  import Spec = ControlChannel

  class Agent {
    const config: Spec.Config
    const world: Spec.World
    const crypto: Spec.Crypto

    var link: Spec.Link               // serverConnectionState, controlChannelRequest, requests
    var retry: Spec.Retry             // retryTime and the retry timer
    var rotation: Rotation            // serverIndex, triedNoProxy_Index, proxyServer, proxyFailed
    var auth: Spec.Auth               // serverAuthState
    var pending: Spec.Pending         // where a handler stands that called into the script
    var nonces: Spec.Nonces
    var serverHash: Spec.Digest
    var storedHash: Option<Spec.Digest>
    var multicastUrl: bool
    var autoproxyDone: bool
    var lookups: nat
    var clock: nat
    var attempts: seq<Attempt>
    var events: seq<int>
    var delivered: seq<(Spec.Cert, seq<byte>)>

    function View(): Spec.State reads this {
      Spec.State(link, retry, rotation, auth, pending, nonces, serverHash, storedHash,
                 multicastUrl, autoproxyDone, lookups, clock, attempts, events, delivered)
    }

    constructor (config: Spec.Config, world: Spec.World, crypto: Spec.Crypto, stored: Option<Spec.Digest>)
      ensures View() == Spec.Boot(stored)
      ensures this.config == config && this.world == world && this.crypto == crypto
    {
      this.config, this.world, this.crypto := config, world, crypto;
      link, retry, rotation, auth := Spec.Link(0, {}, map[], 0, None), Spec.Retry(0, None), Initial, Spec.NONE;
      pending := Spec.Nothing;
      serverHash, storedHash := Zeros(Spec.DIGEST_SIZE), stored;
      nonces := Spec.Nonces(Zeros(Spec.DIGEST_SIZE), Zeros(Spec.DIGEST_SIZE));
      multicastUrl, autoproxyDone, lookups, clock := false, false, 0, 0;
      attempts, events, delivered := [], [], [];
    }

    method Connect()
      modifies this
      ensures View() == Spec.Connect(config, world, old(View()))
      decreases if retry.time == 0 then 1 else 0, 0
    {
      if link.state != 0 { return; }
      var timeout := world(clock).random;
      clock := clock + 1;
      if retry.time == 0 {
        FirstBackOff(timeout);
        ConnectEx();
      } else {
        ArmRetry(timeout);
      }
    }

    method FirstBackOff(timeout: nat)
      modifies this`retry
      ensures View() == Spec.FirstBackOff(old(View()), timeout)
    {
      retry := retry.(time := timeout % 1500 + 500);
    }

    /** The delay becomes the next back-off. */
    method ArmRetry(timeout: nat)
      requires retry.time > 0
      modifies this`retry
      ensures View() == Spec.ArmRetry(old(View()), timeout)
    {
      var delay;
      if retry.time >= 240000 {
        delay := 240000 + timeout % 120000;
      } else {
        delay := retry.time + timeout % retry.time;
      }
      retry := Spec.Retry(delay, Some(delay));
    }

    method ConnectEx()
      modifies this
      ensures View() == Spec.ConnectEx(config, world, old(View()))
      decreases if retry.time == 0 then 1 else 0, 3
    {
      if link.state != 0 { return; }
      if config.servers == [] { return; }
      var answer := world(clock);
      clock := clock + 1;
      BeginAttempt(answer);
    }

    method BeginAttempt(answer: Spec.Answer)
      requires config.servers != []
      modifies this
      ensures View() == Spec.BeginAttempt(config, world, old(View()), answer)
      decreases if retry.time == 0 then 1 else 0, 2
    {
      if config.autoproxy && !autoproxyDone && answer.lookupStarts {
        lookups := lookups + 1;
        return;
      }
      ghost var selected := View().(rotation := Rotate(rotation, |config.servers|, answer.pick));
      SelectServer(answer.pick);
      assert View() == selected;
      var i := rotation.index;
      if 1 <= i <= |config.servers| && config.servers[i - 1].Local? && !multicastUrl {
        Connect();
      } else {
        TryServer(answer);
      }
    }

    method SelectServer(pick: nat)
      requires config.servers != []
      modifies this`rotation
      ensures rotation == Rotate(old(rotation), |config.servers|, pick)
    {
      if rotation.index == 0 {
        rotation := rotation.(index := pick % |config.servers| + 1);
      } else if rotation.tried == rotation.index {
        rotation := rotation.(index := rotation.index % |config.servers| + 1);
        rotation := rotation.(tried := rotation.index - 1);
      }
    }

    method ChooseRoute(proxyConfigured: bool) returns (useProxy: bool)
      modifies this`rotation
      ensures (rotation, useProxy) == ServerRotation.ChooseRoute(old(rotation), proxyConfigured)
    {
      useProxy := false;
      if proxyConfigured {
        if rotation.tried < rotation.index && (rotation.proxyServer || rotation.proxyFailed) {
          rotation := rotation.(proxyFailed := false, tried := rotation.tried + 1, proxyServer := false);
        } else {
          useProxy := true;
        }
      }
    }

    method TryServer(answer: Spec.Answer)
      modifies this
      ensures View() == Spec.TryServer(config, world, old(View()), answer)
      decreases if retry.time == 0 then 1 else 0, 1
    {
      var useProxy := ChooseRoute(answer.proxy);
      attempts := attempts + [Attempt(rotation.index, useProxy)];
      if rotation.index == 0 || rotation.index > |config.serverIds| { return; }
      var id := config.serverIds[rotation.index - 1];
      if |id| > Spec.DIGEST_SIZE { return; }
      serverHash := Spec.Padded(id);
      if config.meshIdLen != 32 && config.meshIdLen != 48 { return; }
      if useProxy || answer.resolved {
        Request(answer, useProxy);
      } else {
        Connect();
      }
    }

    method Request(answer: Spec.Answer, useProxy: bool)
      modifies this
      ensures View() == Spec.Request(old(View()), answer, useProxy)
    {
      var token := link.next;
      link := link.(live := link.live + {token}, watch := Some(token), next := token + 1);
      if useProxy && answer.proxyParses {
        rotation := rotation.(proxyFailed := false, proxyServer := answer.proxyAccepted);
        if !rotation.proxyServer { rotation := rotation.(proxyFailed := true); }
      }
      link := link.(state := 1);
    }

    /** The bits are cleared before the stored hash is looked at, so none survives a connection. */
    method OnEstablished(r: Spec.RequestId, peer: Spec.Cert, nonce: Spec.Digest, sendOk: bool)
      modifies this
      ensures View() == Spec.Established(crypto, old(View()), r, peer, nonce, sendOk)
    {
      link := link.(watch := None, peers := link.peers[r := peer]);
      auth := Spec.NONE;
      link := link.(state := 2);
      if !sendOk { return; }
      var hash := crypto.certHash(peer);
      if storedHash == Some(hash) && |hash| == Spec.DIGEST_SIZE {
        auth := Spec.Auth(true, false);
      }
      nonces := nonces.(agent := nonce);
      if auth == Spec.Auth(true, false) { SendAgentInfo(); }
    }

    /** Connected(0) goes out before anything is reset: the script it runs still finds a fully
        authenticated agent. */
    method OnCompleteEmit(r: Spec.RequestId, header: bool)
      modifies this`link, this`events, this`pending
      ensures View() == Spec.Disconnect(old(View()), r, header)
    {
      link := link.(watch := None);
      if auth == Spec.FULL {
        events := events + [0];
      }
      pending := Spec.Completing(r, header);
    }

    /** The session is gone before the next attempt starts. */
    method OnCompleteReset(r: Spec.RequestId, header: bool)
      modifies this
      ensures View() == Spec.Finish(config, world, old(View()), r, header)
    {
      auth := Spec.NONE;
      link := link.(watch := None, state := 0, live := link.live - {r}, peers := link.peers - {r});
      pending := Spec.Nothing;
      if !header {
        autoproxyDone := false;
        multicastUrl := false;
        assert View() == old(View()).(auth := Spec.NONE, link := Spec.Hangup(old(link), r), pending := Spec.Nothing,
                                      autoproxyDone := false, multicastUrl := false);
        Connect();
      }
    }

    method OnComplete(r: Spec.RequestId, header: bool)
      modifies this
      ensures View() == Spec.Complete(config, world, old(View()), r, header)
    {
      OnCompleteEmit(r, header);
      OnCompleteReset(r, header);
    }

    method OnData(r: Spec.RequestId, switching: bool, cmd: seq<byte>)
      requires switching ==> r in link.peers && |cmd| >= 2
      modifies this
      ensures View() == Spec.Data(crypto, old(View()), r, switching, cmd)
    {
      link := link.(watch := None);
      if switching {
        ProcessCommand(link.peers[r], cmd);
      }
    }

    /** The announcement follows the script that SendAgentInfo runs; both bits can be set before. */
    method AnnounceAgent()
      modifies this`retry, this`events, this`pending
      ensures View() == Spec.Announce(old(View()))
    {
      pending := Spec.Nothing;
      SendAgentInfo();
    }

    method SendAgentInfo()
      modifies this`retry, this`events
      ensures View() == Spec.SendAgentInfo(old(View()))
    {
      retry := retry.(time := 0);
      if auth == Spec.FULL { ServerAuthenticated(); }
    }

    method ServerAuthenticated()
      modifies this`events
      ensures View() == Spec.ServerAuthenticated(old(View()))
    {
      if auth == Spec.FULL { events := events + [1]; }
    }

    method ProcessCommand(peer: Spec.Cert, cmd: seq<byte>)
      requires |cmd| >= 2
      modifies this
      ensures View() == Spec.ProcessCommand(crypto, old(View()), peer, cmd)
    {
      var command := Be16(cmd);
      if auth != Spec.FULL {
        if command == Spec.AUTH_REQUEST {
          AuthRequest(peer, cmd);
        } else if command == Spec.AUTH_VERIFY {
          AuthVerify(peer, cmd);
        } else if command == Spec.AUTH_CONFIRM {
          auth := auth.(agent := true);
          if auth == Spec.FULL { ServerAuthenticated(); }
        }
        return;
      }
      if command < Spec.FIRST_AGENT_COMMAND { return; }
      if cmd[0] == Spec.OPEN_BRACE || command >= Spec.FIRST_SCRIPT_COMMAND {
        delivered := delivered + [(peer, cmd)];
        return;
      }
      if |cmd| < 4 { return; }
      delivered := delivered + [(peer, cmd)];
    }

    method AuthRequest(peer: Spec.Cert, cmd: seq<byte>)
      modifies this`nonces
      ensures View() == Spec.AuthRequest(crypto, old(View()), peer, cmd)
    {
      if |cmd| == 98 {
        if crypto.certHash(peer) != cmd[2..50] {
          if crypto.keyHash(peer) != cmd[2..50] { return; }
        }
        nonces := nonces.(server := cmd[50..98]);
      }
    }

    method AuthVerify(peer: Spec.Cert, cmd: seq<byte>)
      requires auth != Spec.FULL
      modifies this
      ensures View() == if Spec.VerifiesServer(crypto, old(View()), peer, cmd)
                        then old(View()).(auth := old(auth).(server := true), storedHash := Some(crypto.certHash(peer)),
                                          pending := Spec.Announcing)
                        else old(View())
    {
      if |cmd| > 8 {
        var certLen := Be16(cmd[2..]);
        if |cmd| > 4 + certLen {
          var cert := crypto.parseCert(cmd[4..4 + certLen]);
          if cert.None? { return; }
          if crypto.keyDigest384(cert.value) != serverHash {
            if |serverHash| < Spec.SHA256_SIZE { return; }
            if crypto.keyDigest256(cert.value) != serverHash[..Spec.SHA256_SIZE] { return; }
          }
          var signed := crypto.sha384(crypto.certHash(peer) + nonces.agent + nonces.server);
          var signatureLen := (|cmd| - (4 + certLen)) % 65536;
          if crypto.verify(cert.value, signed, cmd[4 + certLen..][..signatureLen]) {
            auth := auth.(server := true);
            storedHash := Some(crypto.certHash(peer));
            pending := Spec.Announcing;
          }
        }
      }
    }

    method OnRetryTimer()
      modifies this
      ensures View() == Spec.RetryTimerFires(config, world, old(View()))
    {
      retry := retry.(timer := None);
      ConnectEx();
    }

    /** The state is idle before the request is cancelled, so the completion that cancelling runs
        finds nothing to announce and reconnects by itself. */
    method OnNetworkTimeout(r: Spec.RequestId, notified: bool)
      modifies this
      ensures View() == Spec.NetworkTimeout(config, world, old(View()), r, notified)
    {
      link := link.(watch := None, state := 0);
      if notified {
        OnComplete(r, false);
      } else {
        link := link.(live := link.live - {r}, peers := link.peers - {r});
      }
      ConnectEx();
    }

    method OnDiscovery()
      modifies this
      ensures View() == Spec.Discovery(config, world, old(View()))
    {
      multicastUrl := true;
      if link.state == 0 { ConnectEx(); }
    }

    method OnAddressChanged()
      modifies this`retry
      ensures View() == Spec.AddressChanged(old(View()))
    {
      if link.state == 0 {
        retry := Spec.Retry(3000, Some(3000));
      }
    }

    method OnLookupDone()
      requires lookups > 0
      modifies this
      ensures View() == Spec.LookupDone(config, world, old(View()))
    {
      lookups := lookups - 1;
      autoproxyDone := true;
      ConnectEx();
    }

    method AttachListener() returns (calls: seq<int>)
      ensures calls == Spec.HookCalls(View())
    {
      calls := [];
      if auth == Spec.FULL { calls := [1]; }
    }
  }
}
