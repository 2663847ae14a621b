/** Authentication over every run, told by the packets themselves: their bytes, the connections they
    came over, and the nonces sent before. */
module ControlAuth {
  import opened Bytes
  import opened ControlChannel
  import opened ControlChannelProofs
  import opened ControlChannelRuns

  // ----- packets -----

  /** Command 2, the length of a certificate in two bytes, the certificate, and the signature. */
  predicate IsAuthVerify(cmd: seq<byte>, der: seq<byte>, signature: seq<byte>) {
    && |der| < 0x1_0000 && signature != [] && |der| + |signature| > 4
    && cmd == [0, 2, |der| / 256, |der| % 256] + der + signature
  }

  /** The packet carries a certificate whose key is the one that `id` names, by its SHA-384 digest or,
      in the first 32 bytes, by its SHA-256 digest; and a signature by that key of the hash of `h`
      and the two nonces. The length of the signature is kept in 16 bits. */
  predicate SignedFor(k: Crypto, cmd: seq<byte>, der: seq<byte>, signature: seq<byte>, id: Digest, h: Digest,
                      nonces: Nonces)
    requires |id| == 48
  {
    && IsAuthVerify(cmd, der, signature)
    && k.parseCert(der).Some?
    && var cert := k.parseCert(der).value;
    && (k.keyDigest384(cert) == id || k.keyDigest256(cert) == id[..32])
    && k.verify(cert, k.sha384(h + nonces.agent + nonces.server), signature[..|signature| % 0x1_0000])
  }

  ghost predicate Proves(k: Crypto, cmd: seq<byte>, id: Digest, h: Digest, nonces: Nonces)
    requires |id| == 48
  {
    exists der, signature :: SignedFor(k, cmd, der, signature, id, h, nonces)
  }

  /** Command 1, a hash of the peer's certificate or of its key, and a nonce. */
  predicate IsAuthRequest(k: Crypto, peer: Cert, cmd: seq<byte>) {
    && |cmd| == 98 && cmd[..2] == [0, 1]
    && (cmd[2..50] == k.certHash(peer) || cmd[2..50] == k.keyHash(peer))
  }

  lemma CommandBytes(cmd: seq<byte>, command: nat)
    requires |cmd| >= 2 && command < 256
    ensures Be16(cmd) == command <==> cmd[..2] == [0, command]
  {
    if Be16(cmd) == command { assert cmd[0] == 0 && cmd[1] == command; }
    if cmd[..2] == [0, command] { assert cmd[0] == cmd[..2][0] && cmd[1] == cmd[..2][1]; }
  }

  lemma Parts(cmd: seq<byte>, der: seq<byte>, signature: seq<byte>)
    requires IsAuthVerify(cmd, der, signature)
    ensures |cmd| > 8 && |cmd| > 4 + Be16(cmd[2..]) && Be16(cmd[2..]) == |der| && cmd[..2] == [0, 2]
    ensures cmd[4..4 + |der|] == der && cmd[4 + |der|..] == signature
  {
    assert cmd[2..][0] == |der| / 256 && cmd[2..][1] == |der| % 256;
  }

  lemma Whole(cmd: seq<byte>)
    requires |cmd| > 8 && |cmd| > 4 + Be16(cmd[2..]) && cmd[..2] == [0, 2]
    ensures var n := Be16(cmd[2..]); IsAuthVerify(cmd, cmd[4..4 + n], cmd[4 + n..])
  {
    var n := Be16(cmd[2..]);
    var a: int, b: int := cmd[2..][0], cmd[2..][1];
    assert 0 <= a < 256 && 0 <= b < 256 && n == a * 256 + b && n < 0x1_0000;
    assert n / 256 == a && n % 256 == b;
    assert cmd == cmd[..2] + cmd[2..4] + cmd[4..4 + n] + cmd[4 + n..];
    assert cmd[2..4] == [cmd[2], cmd[3]] && cmd[2] == n / 256 && cmd[3] == n % 256;
  }

  /** Exactly the packets that prove it are accepted, and what accepting them does. */
  lemma VerifiesIff(k: Crypto, s: State, peer: Cert, cmd: seq<byte>)
    requires |cmd| >= 2 && Be16(cmd) == AUTH_VERIFY && |s.serverHash| == 48
    ensures VerifiesServer(k, s, peer, cmd) <==> Proves(k, cmd, s.serverHash, k.certHash(peer), s.nonces)
  {
    CommandBytes(cmd, 2);
    if VerifiesServer(k, s, peer, cmd) {
      Whole(cmd);
      var n := Be16(cmd[2..]);
      assert SignedFor(k, cmd, cmd[4..4 + n], cmd[4 + n..], s.serverHash, k.certHash(peer), s.nonces);
    }
    if der, signature :| SignedFor(k, cmd, der, signature, s.serverHash, k.certHash(peer), s.nonces) {
      Parts(cmd, der, signature);
    }
  }

  lemma OnlyAuthVerifyProves(k: Crypto, cmd: seq<byte>, id: Digest, h: Digest, nonces: Nonces)
    requires |id| == 48 && Proves(k, cmd, id, h, nonces)
    ensures |cmd| >= 2 && Be16(cmd) == AUTH_VERIFY
  {
    var der, signature :| SignedFor(k, cmd, der, signature, id, h, nonces);
    Parts(cmd, der, signature);
    CommandBytes(cmd, 2);
  }

  /** What a packet on a switched connection does, by its bytes: before full authentication, request,
      proof and confirmation; after it, everything from 10 on that is long enough. */
  lemma PacketEffects(k: Crypto, s: State, peer: Cert, cmd: seq<byte>)
    requires |cmd| >= 2 && |s.serverHash| == 48 && s.pending.Nothing?
    ensures var s', n := ProcessCommand(k, s, peer, cmd), (cmd[0] as int) * 256 + cmd[1];
            if s.auth == FULL then
              s' == s.(delivered :=
                         s.delivered + if n >= 1000 || (n >= 10 && |cmd| >= 4) then [(peer, cmd)] else [])
            else
              var proved := Proves(k, cmd, s.serverHash, k.certHash(peer), s.nonces);
              && (s'.auth.server <==> s.auth.server || proved)
              && (s'.auth.agent <==> s.auth.agent || cmd[..2] == [0, 4])
              && s'.storedHash == (if proved then Some(k.certHash(peer)) else s.storedHash)
              && (s'.pending.Announcing? <==> proved)
              && s'.nonces == s.nonces.(server := if IsAuthRequest(k, peer, cmd) then cmd[50..98] else s.nonces.server)
              && s'.delivered == s.delivered && s'.serverHash == s.serverHash
              && s'.events == s.events + (if cmd[..2] == [0, 4] && s.auth.server then [1] else [])
  {
    CommandBytes(cmd, 1);
    CommandBytes(cmd, 2);
    CommandBytes(cmd, 4);
    if Be16(cmd) == AUTH_VERIFY {
      VerifiesIff(k, s, peer, cmd);
    } else if Proves(k, cmd, s.serverHash, k.certHash(peer), s.nonces) {
      OnlyAuthVerifyProves(k, cmd, s.serverHash, k.certHash(peer), s.nonces);
    }
  }

  // ----- nonces and ServerIDs of a run -----

  /** Event i brought an AuthRequest that was accepted. */
  predicate Requested(t: Trace, i: nat)
    requires i < |t.events| && i < |t.states|
  {
    var e, s := t.events[i], t.states[i];
    && e.EData? && e.switching && e.r in s.link.peers && s.auth != FULL
    && IsAuthRequest(t.crypto, s.link.peers[e.r], e.cmd)
  }

  /** The nonce sent last: by the last connection that could send its first packet. */
  function AgentNonce(t: Trace, n: nat): Digest
    requires n <= |t.events|
  {
    if n == 0 then Zeros(48)
    else if t.events[n - 1].EEstablished? && t.events[n - 1].sendOk then t.events[n - 1].nonce
    else AgentNonce(t, n - 1)
  }

  /** The nonce received last, in whatever connection that was. */
  function ServerNonce(t: Trace, n: nat): Digest
    requires n <= |t.events| && n < |t.states|
  {
    if n == 0 then Zeros(48)
    else if Requested(t, n - 1) then t.events[n - 1].cmd[50..98]
    else ServerNonce(t, n - 1)
  }

  lemma OthersKeepNonces(c: Config, w: World, k: Crypto, s: State, e: Event, s': State)
    requires Inv(c, s) && Enabled(s, e) && !e.EEstablished? && !e.EData? && s' == Step(c, w, k, s, e)
    ensures s'.nonces == s.nonces
  {
    if IsTrigger(e) {
      TriggerKeeps(c, w, k, s, e, s');
    } else {
      match e
      case ENetworkTimeout(r, notified) => TimeoutKeepsNonces(c, w, s, r, notified, s');
      case EFinish => FinishKeepsNonces(c, w, s, s.pending.r, s.pending.header, s');
      case _ =>
    }
  }

  lemma FinishKeepsNonces(c: Config, w: World, s: State, r: RequestId, header: bool, s': State)
    requires Inv(c, s) && s.pending == Completing(r, header) && s' == Finish(c, w, s, r, header)
    ensures s'.nonces == s.nonces
  {
    var s1 := s.(auth := NONE, link := Hangup(s.link, r), pending := Nothing);
    assert s1.link.live == {} && s1.link.peers.Keys == {};
    if !header {
      ConnectKeeps(c, w, s1.(autoproxyDone := false, multicastUrl := false), s');
    }
  }

  lemma TimeoutKeepsNonces(c: Config, w: World, s: State, r: RequestId, notified: bool, s': State)
    requires Inv(c, s) && s.pending.Nothing? && s.link.watch == Some(r) && s' == NetworkTimeout(c, w, s, r, notified)
    ensures s'.nonces == s.nonces
  {
    var link := Hangup(s.link, r);
    assert link.live == {} && link.peers.Keys == {};
    var s2 := s.(link := link);
    if notified {
      var s3 := s2.(autoproxyDone := false, multicastUrl := false);
      ConnectKeeps(c, w, s3, Connect(c, w, s3));
      ConnectExKeeps(c, w, Connect(c, w, s3), s');
    } else {
      ConnectExKeeps(c, w, s2, s');
    }
  }

  /** The ServerID that is configured for the server of the last attempt, filled up with zeros. */
  function IdInUse(c: Config, s: State): (id: Digest)
    requires s.attempts != [] && 1 <= s.attempts[|s.attempts| - 1].server <= |c.serverIds|
    requires |c.serverIds[s.attempts[|s.attempts| - 1].server - 1]| <= 48
    ensures |id| == 48
  {
    var id := c.serverIds[s.attempts[|s.attempts| - 1].server - 1];
    id + Zeros(48 - |id|)
  }

  lemma IdIsInUse(c: Config, s: State)
    requires Inv(c, s) && s.link.state != 0
    ensures s.attempts != [] && 1 <= s.attempts[|s.attempts| - 1].server <= |c.serverIds|
    ensures |c.serverIds[s.attempts[|s.attempts| - 1].server - 1]| <= 48 && s.serverHash == IdInUse(c, s)
  {
    var id := c.serverIds[s.attempts[|s.attempts| - 1].server - 1];
    assert s.serverHash[..|id|] == id;
    assert s.serverHash == id + s.serverHash[|id|..];
    assert s.serverHash[|id|..] == Zeros(48 - |id|);
  }

  /** While a request is live, the ServerID is the one of the server it goes to. */
  lemma ServerIdIsOfTheAttempt(t: Trace, n: nat)
    requires Run(t) && n < |t.states| && t.states[n].link.live != {}
    ensures var s := t.states[n];
            && s.attempts != [] && 1 <= s.attempts[|s.attempts| - 1].server <= |t.config.serverIds|
            && |t.config.serverIds[s.attempts[|s.attempts| - 1].server - 1]| <= 48
            && s.serverHash == IdInUse(t.config, s)
  {
    RunKeeps(t, n);
    IdIsInUse(t.config, t.states[n]);
  }

  /** The nonces in use are those that were sent and received. */
  lemma {:induction false} NoncesAt(t: Trace, n: nat)
    requires Run(t) && n < |t.states|
    ensures t.states[n].nonces == Nonces(AgentNonce(t, n), ServerNonce(t, n))
  {
    if n == 0 {
      BootKeeps(t.config, t.world, t.stored, t.states[0]);
    } else {
      NoncesAt(t, n - 1);
      NoncesNext(t, n - 1);
    }
  }

  lemma NoncesNext(t: Trace, n: nat)
    requires Run(t) && n < |t.events|
    ensures var e, s, s' := t.events[n], t.states[n], t.states[n + 1];
            && s'.nonces.agent == (if e.EEstablished? && e.sendOk then e.nonce else s.nonces.agent)
            && s'.nonces.server == (if Requested(t, n) then e.cmd[50..98] else s.nonces.server)
  {
    var s, e := t.states[n], t.events[n];
    RunKeeps(t, n);
    assert Follows(t, n);
    if e.EData? {
      if e.switching {
        IdIsInUse(t.config, s);
        PacketEffects(t.crypto, Answered(s), s.link.peers[e.r], e.cmd);
      }
    } else if !e.EEstablished? {
      OthersKeepNonces(t.config, t.world, t.crypto, s, e, t.states[n + 1]);
    }
  }

  // ----- the server bit -----

  /** Event i brought a packet that proves, to this agent at this time, that the peer with certificate
      hash h is the server that the agent is configured for. */
  ghost predicate Certifies(t: Trace, i: nat, h: Digest)
    requires i < |t.events| && i < |t.states|
  {
    var e, s, c := t.events[i], t.states[i], t.config;
    && e.EData? && e.switching && e.r in s.link.peers && h == t.crypto.certHash(s.link.peers[e.r])
    && s.attempts != [] && 1 <= s.attempts[|s.attempts| - 1].server <= |c.serverIds|
    && |c.serverIds[s.attempts[|s.attempts| - 1].server - 1]| <= 48
    && Proves(t.crypto, e.cmd, IdInUse(c, s), h, Nonces(AgentNonce(t, i), ServerNonce(t, i)))
  }

  /** Before full authentication every packet on a switched connection that proves it is accepted, and
      no other: the bit is set, the peer's hash is stored and the agent information goes out. */
  lemma AcceptedIffProven(t: Trace, n: nat)
    requires Run(t) && n < |t.events| && t.events[n].EData? && t.events[n].switching && t.states[n].auth != FULL
    ensures t.events[n].r in t.states[n].link.peers
    ensures var s, s', h := t.states[n], t.states[n + 1], t.crypto.certHash(t.states[n].link.peers[t.events[n].r]);
            && (s'.pending.Announcing? <==> Certifies(t, n, h))
            && (s'.auth.server <==> s.auth.server || Certifies(t, n, h))
            && s'.storedHash == (if Certifies(t, n, h) then Some(h) else s.storedHash)
  {
    RunKeeps(t, n);
    assert Follows(t, n);
    var s, e := t.states[n], t.events[n];
    IdIsInUse(t.config, s);
    NoncesAt(t, n);
    PacketEffects(t.crypto, Answered(s), s.link.peers[e.r], e.cmd);
  }

  /** A connection starts with the server bit exactly if the stored hash is the peer's and the first
      packet could be sent, and without the agent bit. */
  lemma KnownFromTheStart(t: Trace, n: nat)
    requires Run(t) && n < |t.events| && t.events[n].EEstablished?
    ensures var e, s, s' := t.events[n], t.states[n], t.states[n + 1];
            var h := t.crypto.certHash(e.peer);
            && s'.auth == Auth(e.sendOk && s.storedHash == Some(h) && |h| == 48, false)
            && s'.storedHash == s.storedHash && s'.link.peers == map[e.r := e.peer]
  {
    RunKeeps(t, n);
    assert Follows(t, n);
    EstablishedPeers(t.config, t.crypto, t.states[n], t.events[n]);
  }

  /** Nothing else sets the bit or changes what is stored. */
  lemma OthersEarnNothing(t: Trace, n: nat)
    requires Run(t) && n < |t.events| && !t.events[n].EEstablished?
    requires !(t.events[n].EData? && t.events[n].switching && t.states[n].auth != FULL)
    ensures t.states[n + 1].storedHash == t.states[n].storedHash
    ensures t.states[n + 1].auth == t.states[n].auth || t.states[n + 1].auth == NONE
    ensures t.states[n + 1].auth == NONE || t.states[n + 1].link.peers == t.states[n].link.peers
  {
    RunKeeps(t, n);
    assert Follows(t, n);
    var c, w, k, s, e, s' := t.config, t.world, t.crypto, t.states[n], t.events[n], t.states[n + 1];
    if IsTrigger(e) {
      TriggerKeeps(c, w, k, s, e, s');
    } else {
      match e
      case ENetworkTimeout(r, notified) => TimeoutKeeps(c, w, s, r, notified, s');
      case EFinish => FinishKeeps(c, w, s, s.pending.r, s.pending.header, s');
      case EAnnounce => AnnounceKeeps(c, s);
      case _ =>
    }
  }

  ghost predicate Vouched(t: Trace, n: nat, h: Digest)
    requires n < |t.states| == |t.events| + 1
  {
    t.stored == Some(h) || exists i :: 0 <= i < n && Certifies(t, i, h)
  }

  /** The server bit is set only for a peer whose hash is the stored one. */
  ghost predicate BitMatchesStore(k: Crypto, s: State) {
    forall r :: r in s.link.peers && s.auth.server ==> s.storedHash == Some(k.certHash(s.link.peers[r]))
  }

  lemma {:induction false} ServerBitIsEarnedAt(t: Trace, n: nat)
    requires Run(t) && n < |t.states|
    ensures BitMatchesStore(t.crypto, t.states[n])
    ensures t.states[n].storedHash.Some? ==> Vouched(t, n, t.states[n].storedHash.value)
  {
    if n == 0 {
      BootKeeps(t.config, t.world, t.stored, t.states[0]);
    } else {
      ServerBitIsEarnedAt(t, n - 1);
      EarnedNext(t, n - 1);
      assert forall h :: Vouched(t, n - 1, h) ==> Vouched(t, n, h);
    }
  }

  lemma EarnedNext(t: Trace, n: nat)
    requires Run(t) && n < |t.events| && BitMatchesStore(t.crypto, t.states[n])
    ensures BitMatchesStore(t.crypto, t.states[n + 1])
    ensures t.states[n + 1].storedHash == t.states[n].storedHash
            || (t.states[n + 1].storedHash.Some? && Certifies(t, n, t.states[n + 1].storedHash.value))
  {
    var e, s := t.events[n], t.states[n];
    if e.EEstablished? {
      KnownFromTheStart(t, n);
    } else if e.EData? && e.switching && s.auth != FULL {
      AcceptedIffProven(t, n);
      PeersStay(t, n);
    } else {
      OthersEarnNothing(t, n);
    }
  }

  lemma PeersStay(t: Trace, n: nat)
    requires Run(t) && n < |t.events| && t.events[n].EData? && t.events[n].switching
    ensures t.states[n + 1].link.peers == t.states[n].link.peers && t.states[n].link.peers.Keys == {t.events[n].r}
  {
    RunKeeps(t, n);
    assert Follows(t, n);
  }

  /** Whenever the server bit is set, the certificate hash of every established peer was the one stored
      at start, or a packet earlier in the run proved it. */
  lemma ServerBitIsEarned(t: Trace, n: nat, r: RequestId)
    requires Run(t) && n < |t.states|
    requires t.states[n].auth.server && r in t.states[n].link.peers
    ensures var h := t.crypto.certHash(t.states[n].link.peers[r]);
            t.stored == Some(h) || exists i :: 0 <= i < n && Certifies(t, i, h)
  {
    ServerBitIsEarnedAt(t, n);
    assert Vouched(t, n, t.crypto.certHash(t.states[n].link.peers[r]));
  }

  /** The nonce a signature must cover is the one drawn for this very connection, unless the
      packet announcing the ServerID could not be sent. */
  lemma {:induction false} NonceIsOfThisConnection(t: Trace, n: nat, r: RequestId) returns (j: nat)
    requires Run(t) && n < |t.states| && r in t.states[n].link.peers
    ensures j < n && t.events[j].EEstablished? && t.events[j].r == r && t.events[j].peer == t.states[n].link.peers[r]
    ensures t.events[j].sendOk ==> t.states[n].nonces.agent == t.events[j].nonce
    decreases n
  {
    if n == 0 {
      BootKeeps(t.config, t.world, t.stored, t.states[0]);
      assert false;
    } else {
      var s, e := t.states[n - 1], t.events[n - 1];
      RunKeeps(t, n - 1);
      assert Follows(t, n - 1);
      if e.EEstablished? {
        EstablishedPeers(t.config, t.crypto, s, e);
        j := n - 1;
      } else {
        PeersPersist(t.config, t.world, t.crypto, s, e, t.states[n]);
        j := NonceIsOfThisConnection(t, n - 1, r);
      }
    }
  }

  lemma EstablishedPeers(c: Config, k: Crypto, s: State, e: Event)
    requires Inv(c, s) && Enabled(s, e) && e.EEstablished?
    ensures var s' := Established(k, s, e.r, e.peer, e.nonce, e.sendOk);
            s'.link.peers == map[e.r := e.peer] && (e.sendOk ==> s'.nonces.agent == e.nonce)
  {
  }

  lemma PeersPersist(c: Config, w: World, k: Crypto, s: State, e: Event, s': State)
    requires Inv(c, s) && Enabled(s, e) && !e.EEstablished? && s' == Step(c, w, k, s, e)
    ensures s'.link.peers == map[] || (s'.link.peers == s.link.peers && s'.nonces.agent == s.nonces.agent)
  {
    if IsTrigger(e) {
      TriggerKeeps(c, w, k, s, e, s');
    } else {
      match e
      case ENetworkTimeout(r, notified) => TimeoutKeeps(c, w, s, r, notified, s');
      case EFinish => FinishKeeps(c, w, s, s.pending.r, s.pending.header, s');
      case EAnnounce => AnnounceKeeps(c, s);
      case _ =>
    }
  }

  /** Event i of the run brought cmd from this peer to a fully authenticated, vouched-for agent. */
  ghost predicate BroughtBy(t: Trace, i: nat, peer: Cert, cmd: seq<byte>)
    requires i < |t.events| && |t.states| == |t.events| + 1
  {
    var e, s := t.events[i], t.states[i];
    && e.EData? && e.cmd == cmd && s.auth == FULL && e.r in s.link.peers && s.link.peers[e.r] == peer
    && Vouched(t, i, t.crypto.certHash(peer))
  }

  /** Every command that reached the agent or the script came in a fully authenticated state
      over a connection whose certificate is vouched for, and is not an authentication packet. */
  lemma {:induction false} DeliveredIsAuthenticated(t: Trace, n: nat, j: nat) returns (i: nat)
    requires Run(t) && n < |t.states| && j < |t.states[n].delivered|
    ensures var (peer, cmd) := t.states[n].delivered[j];
            |cmd| >= 2 && Be16(cmd) >= FIRST_AGENT_COMMAND && i < n && BroughtBy(t, i, peer, cmd)
    decreases n
  {
    if n == 0 {
      BootKeeps(t.config, t.world, t.stored, t.states[0]);
      assert false;
    } else {
      var s, e := t.states[n - 1], t.events[n - 1];
      ServerBitIsEarnedAt(t, n - 1);
      DeliveredNext(t, n - 1);
      if j < |s.delivered| {
        i := DeliveredIsAuthenticated(t, n - 1, j);
      } else {
        i := n - 1;
        assert Vouched(t, i, t.crypto.certHash(s.link.peers[e.r]));
      }
    }
  }

  lemma DeliveredNext(t: Trace, n: nat)
    requires Run(t) && n < |t.events|
    ensures var e, s, s' := t.events[n], t.states[n], t.states[n + 1];
            || s'.delivered == s.delivered
            || (e.EData? && s.auth == FULL && e.r in s.link.peers && |e.cmd| >= 2 && Be16(e.cmd) >= FIRST_AGENT_COMMAND
                && s'.delivered == s.delivered + [(s.link.peers[e.r], e.cmd)])
  {
    RunKeeps(t, n);
    assert Follows(t, n);
    var c, w, k, s, e, s' := t.config, t.world, t.crypto, t.states[n], t.events[n], t.states[n + 1];
    if IsTrigger(e) {
      TriggerKeeps(c, w, k, s, e, s');
    } else {
      match e
      case ENetworkTimeout(r, notified) => TimeoutKeeps(c, w, s, r, notified, s');
      case EFinish => FinishKeeps(c, w, s, s.pending.r, s.pending.header, s');
      case EAnnounce => AnnounceKeeps(c, s);
      case EData(r, switching, cmd) =>
        if switching {
          IdIsInUse(c, s);
          PacketEffects(k, Answered(s), s.link.peers[r], cmd);
        }
      case _ =>
    }
  }
}
