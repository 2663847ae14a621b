/** Which server the next connection attempt goes to, and whether it goes through the proxy.
    The four fields are those MeshServer_ConnectEx keeps between attempts. */
module ServerRotation {

  /** index is 1-based, 0 before the first pick; tried is triedNoProxy_Index. */
  datatype Rotation = Rotation(index: nat, tried: nat, proxyServer: bool, proxyFailed: bool)

  datatype Attempt = Attempt(server: nat, viaProxy: bool)

  const Initial := Rotation(0, 0, false, false)

  ghost predicate InRange(r: Rotation, servers: nat) {
    r.tried <= r.index <= servers
  }

  /** Picks the server of this attempt; `pick` is the random number used the first time. */
  function Rotate(r: Rotation, servers: nat, pick: nat): Rotation
    requires servers > 0
  {
    if r.index == 0 then r.(index := pick % servers + 1)
    else if r.tried == r.index then
      var next := r.index % servers + 1;
      r.(index := next, tried := next - 1)
    else r
  }

  /** The last attempt used the proxy and this server has not been tried without it. */
  predicate DropsProxy(r: Rotation) {
    r.tried < r.index && (r.proxyServer || r.proxyFailed)
  }

  function ChooseRoute(r: Rotation, proxyConfigured: bool): (Rotation, bool) {
    if proxyConfigured && DropsProxy(r)
    then (r.(proxyFailed := false, tried := r.tried + 1, proxyServer := false), false)
    else (r, proxyConfigured)
  }

  /** Outcome of handing a well-formed proxy address to the web client. */
  function NoteProxy(r: Rotation, accepted: bool): Rotation {
    r.(proxyServer := accepted, proxyFailed := !accepted)
  }

  /** The k-th attempt (from 0) of an agent with a usable proxy that first picked `first`:
      `first` gets `first` rounds of proxied-then-direct, every later server one round. */
  function KthAttempt(k: nat, first: nat, servers: nat): Attempt
    requires 1 <= first <= servers
  {
    Attempt(if k < 2 * first then first else Ahead(first, (k - 2 * first) / 2, servers),
            k % 2 == 0)
  }

  /** What the four fields hold after k attempts, the two flags being known only together. */
  ghost predicate AfterAttempts(r: Rotation, k: nat, first: nat, servers: nat)
    requires 1 <= first <= servers
  {
    if k == 0 then r == Initial
    else
      && r.index == KthAttempt(k - 1, first, servers).server
      && (k <= 2 * first ==> r.tried == k / 2)
      && (k > 2 * first ==> r.tried == r.index - (if k % 2 == 0 then 0 else 1))
      && (r.proxyServer || r.proxyFailed <==> k % 2 == 1)
  }

  /** One attempt of an agent whose proxy is configured and parses. */
  function NextAttempt(r: Rotation, servers: nat, pick: nat, accepted: bool): (Rotation, Attempt)
    requires servers > 0
  {
    var rotated := Rotate(r, servers, pick);
    var (routed, viaProxy) := ChooseRoute(rotated, true);
    (if viaProxy then NoteProxy(routed, accepted) else routed, Attempt(routed.index, viaProxy))
  }

  lemma RotateInRange(r: Rotation, servers: nat, pick: nat)
    requires servers > 0 && InRange(r, servers)
    ensures InRange(Rotate(r, servers, pick), servers) && 1 <= Rotate(r, servers, pick).index
  {
  }

  lemma MultipleBound(d: int, n: nat)
    ensures (d >= 1 ==> d * n >= n) && (d <= -1 ==> d * n <= 0 - n)
  {
  }

  /** Quotient and remainder are unique. */
  lemma DivMod(a: int, n: int, q: int, r: int)
    requires 0 <= r < n && a == q * n + r
    ensures a / n == q && a % n == r
  {
    var q', r' := a / n, a % n;
    assert a == q' * n + r';
    assert (q - q') * n == r' - r;
    MultipleBound(q - q', n);
  }

  /** The server `steps` places after `server` in the ring 1..servers. */
  function Ahead(server: nat, steps: nat, servers: nat): nat
    requires servers > 0
  {
    (server + steps) % servers + 1
  }

  lemma AheadInRange(server: nat, steps: nat, servers: nat)
    requires servers > 0
    ensures 1 <= Ahead(server, steps, servers) <= servers
  {
  }

  lemma AheadNext(server: nat, steps: nat, servers: nat)
    requires servers > 0
    ensures Ahead(server, steps, servers) % servers + 1 == Ahead(server, steps + 1, servers)
  {
    var a := server + steps;
    var q, r := a / servers, a % servers;
    assert a == q * servers + r;
    if r + 1 == servers {
      DivMod(r + 1, servers, 1, 0);
      assert (q + 1) * servers == q * servers + servers;
      DivMod(a + 1, servers, q + 1, 0);
    } else {
      DivMod(r + 1, servers, 0, r + 1);
      DivMod(a + 1, servers, q, r + 1);
    }
  }

  lemma AheadReaches(server: nat, steps: nat, servers: nat, t: nat)
    requires 1 <= server <= servers && 1 <= t <= servers
    requires server + steps == t - 1 || server + steps == t - 1 + servers
    ensures Ahead(server, steps, servers) == t
  {
    if server + steps == t - 1 {
      DivMod(server + steps, servers, 0, t - 1);
    } else {
      DivMod(server + steps, servers, 1, t - 1);
    }
  }

  lemma AheadDistinct(server: nat, i: nat, j: nat, servers: nat)
    requires servers > 0 && i < j < i + servers
    ensures Ahead(server, i, servers) != Ahead(server, j, servers)
  {
    var a, b := server + i, server + j;
    var d := b / servers - a / servers;
    assert a == (a / servers) * servers + a % servers;
    assert b == (b / servers) * servers + b % servers;
    assert d * servers == (b - a) + (a % servers - b % servers);
    MultipleBound(d, servers);
  }

  /** The step after an odd number of attempts: the direct attempt at the same server. */
  lemma DirectAttemptNext(r: Rotation, m: nat, first: nat, servers: nat, pick: nat, accepted: bool)
    requires 1 <= first <= servers && AfterAttempts(r, 2 * m + 1, first, servers)
    ensures var (r', attempt) := NextAttempt(r, servers, pick, accepted);
            AfterAttempts(r', 2 * m + 2, first, servers) && attempt == KthAttempt(2 * m + 1, first, servers)
  {
    if m >= first {
      AheadInRange(first, m - first, servers);
    }
  }

  /** A rotated agent goes to the server `next` through the proxy. */
  lemma RotatesTo(r: Rotation, next: nat, servers: nat, pick: nat, accepted: bool)
    requires servers > 0 && 1 <= r.index == r.tried && next == r.index % servers + 1
    requires !r.proxyServer && !r.proxyFailed
    ensures NextAttempt(r, servers, pick, accepted)
         == (Rotation(next, next - 1, accepted, !accepted), Attempt(next, true))
  {
  }

  /** The first server has had its rounds: on to the next one in the ring. */
  lemma LeavesFirstServer(r: Rotation, first: nat, servers: nat, pick: nat, accepted: bool)
    requires 1 <= first <= servers && AfterAttempts(r, 2 * first, first, servers)
    ensures NextAttempt(r, servers, pick, accepted).1 == Attempt(Ahead(first, 0, servers), true)
    ensures AfterAttempts(NextAttempt(r, servers, pick, accepted).0, 2 * first + 1, first, servers)
  {
    RotatesTo(r, Ahead(first, 0, servers), servers, pick, accepted);
  }

  /** A later server has had its round. */
  lemma LeavesLaterServer(r: Rotation, j: nat, first: nat, servers: nat, pick: nat, accepted: bool)
    requires 1 <= first <= servers && r.index == r.tried == Ahead(first, j, servers)
    requires !r.proxyServer && !r.proxyFailed
    ensures var (r', attempt) := NextAttempt(r, servers, pick, accepted);
            var next := Ahead(first, j + 1, servers);
            attempt == Attempt(next, true) && r' == Rotation(next, next - 1, accepted, !accepted)
  {
    AheadNext(first, j, servers);
    RotatesTo(r, Ahead(first, j + 1, servers), servers, pick, accepted);
  }

  lemma StaysWithFirstServer(r: Rotation, m: nat, first: nat, servers: nat, pick: nat, accepted: bool)
    requires 1 <= first <= servers && m < first && AfterAttempts(r, 2 * m, first, servers)
    requires m == 0 ==> pick % servers + 1 == first
    ensures NextAttempt(r, servers, pick, accepted) == (Rotation(first, m, accepted, !accepted), Attempt(first, true))
  {
  }

  /** The step after an even number: the proxied attempt, at the same server or at the next. */
  lemma ProxiedAttemptNext(r: Rotation, m: nat, first: nat, servers: nat, pick: nat, accepted: bool)
    requires 1 <= first <= servers && AfterAttempts(r, 2 * m, first, servers)
    requires m == 0 ==> pick % servers + 1 == first
    ensures var (r', attempt) := NextAttempt(r, servers, pick, accepted);
            AfterAttempts(r', 2 * m + 1, first, servers) && attempt == KthAttempt(2 * m, first, servers)
  {
    if m < first {
      StaysWithFirstServer(r, m, first, servers, pick, accepted);
    } else if m == first {
      LeavesFirstServer(r, first, servers, pick, accepted);
    } else {
      LeavesLaterServer(r, m - 1 - first, first, servers, pick, accepted);
    }
  }

  /** One attempt moves the fields from the closed form at k to the closed form at k + 1, and
      is the attempt the closed form announces. */
  lemma AttemptFollowsClosedForm(r: Rotation, k: nat, first: nat, servers: nat, pick: nat, accepted: bool)
    requires 1 <= first <= servers
    requires AfterAttempts(r, k, first, servers)
    requires k == 0 ==> pick % servers + 1 == first
    ensures var (r', attempt) := NextAttempt(r, servers, pick, accepted);
            AfterAttempts(r', k + 1, first, servers) && attempt == KthAttempt(k, first, servers)
  {
    if k % 2 == 0 {
      ProxiedAttemptNext(r, k / 2, first, servers, pick, accepted);
    } else {
      DirectAttemptNext(r, k / 2, first, servers, pick, accepted);
    }
  }

  /** Every server is attempted through the proxy and directly, the direct attempt right after
      the proxied one, within the first 2*first + 2*(servers-1) attempts. */
  lemma AllServersWithinBound(first: nat, servers: nat, t: nat) returns (k: nat)
    requires 1 <= first <= servers && 1 <= t <= servers
    ensures k + 1 < 2 * first + 2 * (servers - 1)
    ensures KthAttempt(k, first, servers) == Attempt(t, true)
    ensures KthAttempt(k + 1, first, servers) == Attempt(t, false)
  {
    if t == first {
      k := 0;
    } else {
      var j := if t > first then t - 1 - first else t - 1 - first + servers;
      AheadReaches(first, j, servers, t);
      k := 2 * first + 2 * j;
    }
  }

  /** After the first server's rounds, `servers` consecutive rounds visit `servers` different
      servers: each gets exactly one proxied and one direct attempt per lap. */
  lemma OneRoundPerLap(first: nat, servers: nat, i: nat, j: nat)
    requires 1 <= first <= servers && i < j < i + servers
    ensures KthAttempt(2 * first + 2 * i, first, servers).server != KthAttempt(2 * first + 2 * j, first, servers).server
  {
    AheadDistinct(first, i, j, servers);
    assert (2 * i) / 2 == i && (2 * j) / 2 == j;
  }
}
