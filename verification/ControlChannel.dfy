/** The control channel: connection attempts, retry timer, server authentication and the
    Connected events handed to the core module. Every handler is a function of the agent's
    state; what the agent asks of the outside world comes from a `World`. */
module ControlChannel {
  import opened Bytes
  import opened ServerRotation

  type Digest = seq<byte>
  type Cert = seq<byte>
  type RequestId = nat

  const DIGEST_SIZE := 48       // UTIL_SHA384_HASHSIZE
  const SHA256_SIZE := 32       // UTIL_SHA256_HASHSIZE
  const AUTH_REQUEST := 1
  const AUTH_VERIFY := 2
  const AUTH_CONFIRM := 4
  const FIRST_AGENT_COMMAND := 10
  const FIRST_SCRIPT_COMMAND := 1000
  const OPEN_BRACE := 123

  /** OpenSSL and X.509, as functions. */
  datatype Crypto = Crypto(
    certHash: Cert -> Digest,
    keyHash: Cert -> Digest,
    parseCert: seq<byte> -> Option<Cert>,
    keyDigest384: Cert -> Digest,
    keyDigest256: Cert -> Digest,
    sha384: seq<byte> -> Digest,
    verify: (Cert, Digest, seq<byte>) -> bool)

  datatype Server = Local | Remote

  /** The settings store, as far as connecting reads it. */
  datatype Config = Config(servers: seq<Server>, serverIds: seq<seq<byte>>, meshIdLen: nat, autoproxy: bool)

  /** What the world answers to one run of MeshServer_Connect or MeshServer_ConnectEx. */
  datatype Answer = Answer(
    random: nat,
    pick: nat,
    lookupStarts: bool,     // the autoproxy script starts
    proxy: bool,            // a proxy is configured and not ignored
    resolved: bool,         // the host resolves, or its address was stored
    proxyParses: bool,      // the proxy address parses
    proxyAccepted: bool)    // the web client takes the proxy

  type World = nat -> Answer

  /** serverAuthState: bit 1 is `server`, bit 2 is `agent`. */
  datatype Auth = Auth(server: bool, agent: bool)

  const NONE := Auth(false, false)
  const FULL := Auth(true, true)

  /** The web client's side: requests it still owes a completion, and the established ones
      among them with the peer's certificate. `watch` is the 20 second timer of a request. */
  datatype Link = Link(
    state: nat,                       // serverConnectionState
    live: set<RequestId>,
    peers: map<RequestId, Cert>,
    next: RequestId,
    watch: Option<RequestId>)

  datatype Retry = Retry(time: nat, timer: Option<nat>)

  datatype Nonces = Nonces(agent: Digest, server: Digest)

  /** A handler that has called into the script and is not finished: the agent information is on
      its way but not announced, or Connected(0) has been emitted but nothing reset. The script
      can attach listeners then; nothing else happens before the handler goes on. */
  datatype Pending = Nothing | Announcing | Completing(r: RequestId, header: bool)

  datatype State = State(
    link: Link,
    retry: Retry,
    rotation: Rotation,
    auth: Auth,
    pending: Pending,
    nonces: Nonces,
    serverHash: Digest,
    storedHash: Option<Digest>,
    multicastUrl: bool,
    autoproxyDone: bool,
    lookups: nat,
    clock: nat,
    attempts: seq<Attempt>,           // log: servers and routes chosen
    events: seq<int>,                 // log: Connected(1) and Connected(0)
    delivered: seq<(Cert, seq<byte>)>) // log: commands handed to the agent or the script

  function Boot(storedHash: Option<Digest>): State {
    State(Link(0, {}, map[], 0, None), Retry(0, None), Initial, NONE, Nothing,
          Nonces(Zeros(DIGEST_SIZE), Zeros(DIGEST_SIZE)), Zeros(DIGEST_SIZE), storedHash,
          false, false, 0, 0, [], [], [])
  }

  // ----- connecting -----

  const RETRY_CAP := 240000

  function Delay(retryTime: nat, random: nat): nat
    requires retryTime > 0
  {
    if retryTime >= RETRY_CAP then RETRY_CAP + random % 120000 else retryTime + random % retryTime
  }

  function Connect(c: Config, w: World, s: State): State
    decreases if s.retry.time == 0 then 1 else 0, 0
  {
    if s.link.state != 0 then s
    else
      var random := w(s.clock).random;
      var s := s.(clock := s.clock + 1);
      if s.retry.time == 0 then ConnectEx(c, w, FirstBackOff(s, random)) else ArmRetry(s, random)
  }

  function FirstBackOff(s: State, random: nat): State {
    s.(retry := s.retry.(time := random % 1500 + 500))
  }

  function ArmRetry(s: State, random: nat): State
    requires s.retry.time > 0
  {
    var delay := Delay(s.retry.time, random);
    s.(retry := Retry(delay, Some(delay)))
  }

  function ConnectEx(c: Config, w: World, s: State): State
    decreases if s.retry.time == 0 then 1 else 0, 3
  {
    if s.link.state != 0 || c.servers == [] then s
    else BeginAttempt(c, w, s.(clock := s.clock + 1), w(s.clock))
  }

  /** From the proxy lookup to the choice of the server. */
  function BeginAttempt(c: Config, w: World, s: State, a: Answer): State
    requires c.servers != []
    decreases if s.retry.time == 0 then 1 else 0, 2
  {
    if c.autoproxy && !s.autoproxyDone && a.lookupStarts then
      s.(lookups := s.lookups + 1)
    else
      var s := s.(rotation := Rotate(s.rotation, |c.servers|, a.pick));
      if AwaitsDiscovery(c, s) then Connect(c, w, s) else TryServer(c, w, s, a)
  }

  /** The selected entry is "local" and no server has answered the discovery packet. */
  predicate AwaitsDiscovery(c: Config, s: State) {
    var i := s.rotation.index;
    1 <= i <= |c.servers| && c.servers[i - 1].Local? && !s.multicastUrl
  }

  datatype Plan = GiveUp | Send(viaProxy: bool) | Unreachable

  /** Chooses the route to the selected server and checks the settings the request needs. */
  function Prepare(c: Config, s: State, a: Answer): (State, Plan) {
    var i := s.rotation.index;
    var (rotation, viaProxy) := ChooseRoute(s.rotation, a.proxy);
    var s := s.(rotation := rotation, attempts := s.attempts + [Attempt(i, viaProxy)]);
    if !(1 <= i <= |c.serverIds|) || |c.serverIds[i - 1]| > DIGEST_SIZE then (s, GiveUp)
    else
      (s.(serverHash := Padded(c.serverIds[i - 1])),
       if c.meshIdLen != 32 && c.meshIdLen != 48 then GiveUp
       else if viaProxy || a.resolved then Send(viaProxy)
       else Unreachable)
  }

  /** The rest of MeshServer_ConnectEx, from the choice of the route on. */
  function TryServer(c: Config, w: World, s: State, a: Answer): State
    decreases if s.retry.time == 0 then 1 else 0, 1
  {
    match Prepare(c, s, a)
    case (s', GiveUp) => s'
    case (s', Send(viaProxy)) => Request(s', a, viaProxy)
    case (s', Unreachable) => Connect(c, w, s')
  }

  function Padded(id: seq<byte>): (r: Digest)
    requires |id| <= DIGEST_SIZE
    ensures |r| == DIGEST_SIZE && id <= r && forall i :: |id| <= i < DIGEST_SIZE ==> r[i] == 0
  {
    id + Zeros(DIGEST_SIZE - |id|)
  }

  function Request(s: State, a: Answer, viaProxy: bool): State {
    var r := s.link.next;
    s.(rotation := if viaProxy && a.proxyParses then NoteProxy(s.rotation, a.proxyAccepted) else s.rotation,
       link := s.link.(state := 1, live := s.link.live + {r}, watch := Some(r), next := r + 1))
  }

  // ----- the web client's answers -----

  /** Every answer stops the request's 20 second timer. */
  function Answered(s: State): State {
    s.(link := s.link.(watch := None))
  }

  function Established(k: Crypto, s: State, r: RequestId, peer: Cert, nonce: Digest, sendOk: bool): State {
    var s := s.(auth := NONE, link := s.link.(state := 2, peers := s.link.peers[r := peer], watch := None));
    if !sendOk then s
    else
      var known := s.storedHash == Some(k.certHash(peer)) && |k.certHash(peer)| == DIGEST_SIZE;
      var s := s.(auth := if known then Auth(true, false) else NONE, nonces := s.nonces.(agent := nonce));
      if known then SendAgentInfo(s) else s
  }

  function Hangup(link: Link, r: RequestId): Link {
    link.(state := 0, live := link.live - {r}, peers := link.peers - {r}, watch := None)
  }

  /** A completion up to the emission of Connected(0). */
  function Disconnect(s: State, r: RequestId, header: bool): State {
    s.(events := if s.auth == FULL then s.events + [0] else s.events,
       link := s.link.(watch := None), pending := Completing(r, header))
  }

  /** The rest of it, after the script has run. */
  function Finish(c: Config, w: World, s: State, r: RequestId, header: bool): State {
    var s := s.(auth := NONE, link := Hangup(s.link, r), pending := Nothing);
    if header then s else Connect(c, w, s.(autoproxyDone := false, multicastUrl := false))
  }

  function Complete(c: Config, w: World, s: State, r: RequestId, header: bool): State {
    Finish(c, w, Disconnect(s, r, header), r, header)
  }

  function Data(k: Crypto, s: State, r: RequestId, switching: bool, cmd: seq<byte>): State
    requires switching ==> r in s.link.peers && |cmd| >= 2
  {
    if switching then ProcessCommand(k, Answered(s), s.link.peers[r], cmd) else Answered(s)
  }

  /** The end of SendAgentInfo, after the script it calls. */
  function Announce(s: State): State {
    SendAgentInfo(s.(pending := Nothing))
  }

  function SendAgentInfo(s: State): State {
    ServerAuthenticated(s.(retry := s.retry.(time := 0)))
  }

  function ServerAuthenticated(s: State): State {
    if s.auth == FULL then s.(events := s.events + [1]) else s
  }

  function ProcessCommand(k: Crypto, s: State, peer: Cert, cmd: seq<byte>): State
    requires |cmd| >= 2
  {
    var command := Be16(cmd);
    if s.auth != FULL then
      if command == AUTH_REQUEST then AuthRequest(k, s, peer, cmd)
      else if command == AUTH_VERIFY then
        if VerifiesServer(k, s, peer, cmd) then
          s.(auth := s.auth.(server := true), storedHash := Some(k.certHash(peer)), pending := Announcing)
        else s
      else if command == AUTH_CONFIRM then
        ServerAuthenticated(s.(auth := s.auth.(agent := true)))
      else s
    else if command < FIRST_AGENT_COMMAND then s
    else if cmd[0] != OPEN_BRACE && command < FIRST_SCRIPT_COMMAND && |cmd| < 4 then s
    else s.(delivered := s.delivered + [(peer, cmd)])
  }

  function AuthRequest(k: Crypto, s: State, peer: Cert, cmd: seq<byte>): State {
    if |cmd| == 2 + DIGEST_SIZE + DIGEST_SIZE && (k.certHash(peer) == cmd[2..50] || k.keyHash(peer) == cmd[2..50])
    then s.(nonces := s.nonces.(server := cmd[50..98]))
    else s
  }

  /** The certificate carried by an AuthVerify packet. */
  function CarriedCert(k: Crypto, cmd: seq<byte>): Option<Cert> {
    if |cmd| > 8 && |cmd| > 4 + Be16(cmd[2..]) then k.parseCert(cmd[4..4 + Be16(cmd[2..])]) else None
  }

  /** The signature that follows it; its length is kept in 16 bits. */
  function CarriedSignature(cmd: seq<byte>): seq<byte>
    requires |cmd| > 8 && |cmd| > 4 + Be16(cmd[2..])
  {
    var rest := cmd[4 + Be16(cmd[2..])..];
    rest[..|rest| % 65536]
  }

  /** The certificate's key is the one named by the ServerID, by its SHA-384 or its SHA-256. */
  predicate MatchesServerId(k: Crypto, cert: Cert, serverHash: Digest) {
    k.keyDigest384(cert) == serverHash
    || (|serverHash| >= SHA256_SIZE && k.keyDigest256(cert) == serverHash[..SHA256_SIZE])
  }

  predicate VerifiesServer(k: Crypto, s: State, peer: Cert, cmd: seq<byte>) {
    var cert := CarriedCert(k, cmd);
    && cert.Some?
    && MatchesServerId(k, cert.value, s.serverHash)
    && k.verify(cert.value, k.sha384(k.certHash(peer) + s.nonces.agent + s.nonces.server), CarriedSignature(cmd))
  }

  // ----- timers and notifications -----

  function RetryTimerFires(c: Config, w: World, s: State): State {
    ConnectEx(c, w, s.(retry := s.retry.(timer := None)))
  }

  /** MeshServer_ConnectEx_NetworkError: the 20 second timer of request r. Cancelling runs the
      completion callback before it returns when the web client still holds the request. */
  function NetworkTimeout(c: Config, w: World, s: State, r: RequestId, notified: bool): State {
    var s := s.(link := s.link.(state := 0, watch := None));
    var s := if notified then Complete(c, w, s, r, false) else s.(link := Hangup(s.link, r));
    ConnectEx(c, w, s)
  }

  function Discovery(c: Config, w: World, s: State): State {
    var s := s.(multicastUrl := true);
    if s.link.state == 0 then ConnectEx(c, w, s) else s
  }

  function AddressChanged(s: State): State {
    if s.link.state == 0 then s.(retry := Retry(3000, Some(3000))) else s
  }

  function LookupDone(c: Config, w: World, s: State): State
    requires s.lookups > 0
  {
    ConnectEx(c, w, s.(lookups := s.lookups - 1, autoproxyDone := true))
  }

  /** ILibDuktape_MeshAgent_ConnectedHook: what a listener is called with when it is added. */
  function HookCalls(s: State): seq<int> {
    if s.auth == FULL then [1] else []
  }

  // ----- runs -----

  datatype Event =
    | ERetryTimer
    | ENetworkTimeout(r: RequestId, notified: bool)
    | EDiscovery
    | EAddressChanged
    | ELookupDone
    | EEstablished(r: RequestId, peer: Cert, nonce: Digest, sendOk: bool)
    | EData(r: RequestId, switching: bool, cmd: seq<byte>)
    | EComplete(r: RequestId, header: bool)
    | EAnnounce
    | EFinish

  predicate Enabled(s: State, e: Event) {
    (s.pending.Nothing? <==> !e.EAnnounce? && !e.EFinish?)
    && (match e
        case ERetryTimer => s.retry.timer.Some?
        case ENetworkTimeout(r, _) => s.link.watch == Some(r)
        case EDiscovery => true
        case EAddressChanged => true
        case ELookupDone => s.lookups > 0
        case EEstablished(r, _, _, _) => r in s.link.live && r !in s.link.peers
        case EData(r, switching, cmd) => r in s.link.live && (switching ==> r in s.link.peers && |cmd| >= 2)
        case EComplete(r, _) => r in s.link.live
        case EAnnounce => s.pending.Announcing?
        case EFinish => s.pending.Completing?)
  }

  function Step(c: Config, w: World, k: Crypto, s: State, e: Event): State
    requires Enabled(s, e)
  {
    match e
    case ERetryTimer => RetryTimerFires(c, w, s)
    case ENetworkTimeout(r, notified) => NetworkTimeout(c, w, s, r, notified)
    case EDiscovery => Discovery(c, w, s)
    case EAddressChanged => AddressChanged(s)
    case ELookupDone => LookupDone(c, w, s)
    case EEstablished(r, peer, nonce, sendOk) => Established(k, s, r, peer, nonce, sendOk)
    case EData(r, switching, cmd) => Data(k, s, r, switching, cmd)
    case EComplete(r, header) => Disconnect(s, r, header)
    case EAnnounce => Announce(s)
    case EFinish => Finish(c, w, s, s.pending.r, s.pending.header)
  }

  datatype Trace = Trace(
    config: Config, world: World, crypto: Crypto,
    stored: Option<Digest>,           // ServerTlsCertHash at start
    states: seq<State>, events: seq<Event>)

  /** Event i was possible in state i and led to state i + 1. */
  ghost predicate Follows(t: Trace, i: nat)
    requires i < |t.events| && |t.states| == |t.events| + 1
  {
    && Enabled(t.states[i], t.events[i])
    && t.states[i + 1] == Step(t.config, t.world, t.crypto, t.states[i], t.events[i])
  }

  /** A run from agent start: the first state is the one MeshServer_Connect leaves. */
  ghost predicate Run(t: Trace) {
    && |t.states| == |t.events| + 1
    && t.states[0] == Connect(t.config, t.world, Boot(t.stored))
    && forall i :: 0 <= i < |t.events| ==> Follows(t, i)
  }

  /** Settings under which connecting never gives up for good. */
  predicate Usable(c: Config) {
    && c.servers != [] && |c.serverIds| >= |c.servers|
    && (forall i :: 0 <= i < |c.serverIds| ==> |c.serverIds[i]| <= DIGEST_SIZE)
    && (c.meshIdLen == 32 || c.meshIdLen == 48)
  }
}
