/** Start-up check of the network adapters: the node identity is reset when none of the machine's
    MAC addresses is among those remembered. Lists of addresses are strings of 19-character
    tokens, compared by index arithmetic and substring search. */
module MacCheck {
  import opened Strings

  const TOKEN := 19
  const ZERO_MAC := "[00:00:00:00:00:00]"

  predicate IsToken(t: string) {
    && |t| == TOKEN && t[0] == '[' && t[TOKEN - 1] == ']'
    && forall i :: 0 < i < TOKEN - 1 ==> t[i] != '['
  }

  function Count(list: string): nat { |list| / TOKEN }

  function Nth(list: string, k: nat): string
    requires k < Count(list)
  {
    list[TOKEN * k..TOKEN * k + TOKEN]
  }

  predicate WellFormed(list: string) {
    |list| % TOKEN == 0 && forall k :: 0 <= k < Count(list) ==> IsToken(Nth(list, k))
  }

  predicate NonZeroAt(list: string, k: nat)
    requires k < Count(list)
  {
    Nth(list, k) != ZERO_MAC
  }

  predicate HasAddress(list: string) {
    exists k :: 0 <= k < Count(list) && NonZeroAt(list, k)
  }

  predicate Has(list: string, mac: string) {
    exists k :: 0 <= k < Count(list) && Nth(list, k) == mac
  }

  /** Some address other than zeros is in both lists. */
  predicate ShareAddress(a: string, b: string) {
    exists k :: 0 <= k < Count(a) && NonZeroAt(a, k) && Has(b, Nth(a, k))
  }

  /** Inside a well-formed list a token is found only where a token starts. */
  lemma FoundOnlyAligned(list: string, t: string, p: nat)
    requires WellFormed(list) && IsToken(t) && OccursAt(list, t, p)
    ensures p % TOKEN == 0 && p / TOKEN < Count(list) && Nth(list, p / TOKEN) == t
  {
    var k, r := p / TOKEN, p % TOKEN;
    assert IsToken(Nth(list, k)) && Nth(list, k)[r] == list[p];
    assert list[p] == t[0];
  }

  lemma SearchIsMembership(list: string, t: string)
    requires WellFormed(list) && IsToken(t)
    ensures FirstFrom(list, t, 0) >= 0 <==> Has(list, t)
  {
    var p := FirstFrom(list, t, 0);
    if p >= 0 {
      FoundOnlyAligned(list, t, p);
    }
    if Has(list, t) {
      var k :| 0 <= k < Count(list) && Nth(list, k) == t;
      FirstIsLeast(list, t, 0, TOKEN * k);
    }
  }

  /** Outcome of one check: whether the identity is reset, and the list remembered afterwards
      (empty: none). */
  function Verdict(stored: string, mac: string): (bool, string) {
    if mac == "" then (false, stored)
    else if stored == "" then (false, mac)
    else if HasAddress(mac) && !ShareAddress(stored, mac) then (true, mac)
    else (false, stored)
  }

  /** The first loop: is there anything but zeros in the current list? */
  method FindAddress(mac: string) returns (found: bool)
    requires WellFormed(mac)
    ensures found <==> HasAddress(mac)
  {
    var i := 0;
    while i < |mac|
      invariant 0 <= i <= |mac| && i % TOKEN == 0
      invariant forall k :: 0 <= k < i / TOKEN ==> !NonZeroAt(mac, k)
    {
      assert mac[i..i + TOKEN] == Nth(mac, i / TOKEN);
      if mac[i..i + TOKEN] != ZERO_MAC {
        assert NonZeroAt(mac, i / TOKEN);
        return true;
      }
      i := i + TOKEN;
    }
    found := false;
  }

  /** The second loop: is some remembered address still in the current list? */
  method FindRemembered(stored: string, mac: string) returns (found: bool)
    requires WellFormed(stored) && WellFormed(mac)
    ensures found <==> ShareAddress(stored, mac)
  {
    var i := 0;
    while i < |stored|
      invariant 0 <= i <= |stored| && i % TOKEN == 0
      invariant forall k :: 0 <= k < i / TOKEN ==> !(NonZeroAt(stored, k) && Has(mac, Nth(stored, k)))
    {
      var t := stored[i..i + TOKEN];
      assert t == Nth(stored, i / TOKEN);
      if t != ZERO_MAC {
        var p := IndexOf(mac, t);
        SearchIsMembership(mac, t);
        if p >= 0 { return true; }
      }
      i := i + TOKEN;
    }
    found := false;
  }

  /** The check as the agent runs it, on the flat strings. */
  method Check(stored: string, mac: string) returns (reset: bool, stored': string)
    requires WellFormed(stored) && WellFormed(mac)
    ensures (reset, stored') == Verdict(stored, mac)
  {
    reset, stored' := false, stored;
    if |mac| >= TOKEN {
      if |stored| == 0 { return false, mac; }
      var usable := FindAddress(mac);
      if usable {
        var known := FindRemembered(stored, mac);
        if !known { return true, mac; }
      }
    }
  }

  lemma SharesWithItself(list: string)
    requires HasAddress(list)
    ensures ShareAddress(list, list)
  {
    var k :| 0 <= k < Count(list) && NonZeroAt(list, k);
    assert Has(list, Nth(list, k));
  }

  /** Checking the same adapters again never resets and changes nothing, whether the first check
      reset, stored its first list or found everything in order. */
  lemma RecheckNeverResets(stored: string, mac: string)
    ensures var stored' := Verdict(stored, mac).1; Verdict(stored', mac) == (false, stored')
  {
    if HasAddress(mac) {
      SharesWithItself(mac);
    }
  }

  /** Place k of the list holds an address other than zeros, which is this one. */
  predicate Holds(list: string, k: nat, address: string) {
    k < |list| / 19 && list[19 * k..19 * k + 19] == address && address != "[00:00:00:00:00:00]"
  }

  lemma HasAddressIff(list: string)
    ensures HasAddress(list) <==> exists k, address :: Holds(list, k, address)
  {
    if HasAddress(list) {
      var k :| 0 <= k < Count(list) && NonZeroAt(list, k);
      assert Holds(list, k, Nth(list, k));
    }
    if k, address :| Holds(list, k, address) {
      assert NonZeroAt(list, k);
    }
  }

  lemma ShareAddressIff(a: string, b: string)
    ensures ShareAddress(a, b) <==> exists i, k, address :: Holds(a, i, address) && Holds(b, k, address)
  {
    if ShareAddress(a, b) {
      var i :| 0 <= i < Count(a) && NonZeroAt(a, i) && Has(b, Nth(a, i));
      var k :| 0 <= k < Count(b) && Nth(b, k) == Nth(a, i);
      assert Holds(a, i, Nth(a, i)) && Holds(b, k, Nth(a, i));
    }
    if i, k, address :| Holds(a, i, address) && Holds(b, k, address) {
      assert Nth(b, k) == Nth(a, i) && NonZeroAt(a, i) && Has(b, Nth(a, i));
    }
  }

  /** A reset needs a remembered list, a current one that has an address other than zeros, and no
      such address in both. */
  lemma ResetsIff(stored: string, mac: string)
    ensures Verdict(stored, mac).0 <==>
              && stored != ""
              && (exists k, address :: Holds(mac, k, address))
              && !(exists i, k, address :: Holds(stored, i, address) && Holds(mac, k, address))
    ensures Verdict(stored, mac).1 == if Verdict(stored, mac).0 || stored == "" then mac else stored
  {
    HasAddressIff(mac);
    ShareAddressIff(stored, mac);
  }

  lemma HasOfConcat(z: string, b: string, a: string)
    requires |z| == TOKEN && |b| == TOKEN
    ensures Has(z + b, a) <==> z == a || b == a
  {
    NthOfConcat(z, b);
  }

  lemma BesidesZeros(z: string, a: string, b: string)
    requires |z| == TOKEN && |a| == TOKEN && |b| == TOKEN && z == ZERO_MAC && a != b && a != z && b != z
    ensures HasAddress(z + b) && !ShareAddress(z + a, z + b)
  {
    NthOfConcat(z, a);
    NthOfConcat(z, b);
    HasOfConcat(z, b, a);
    assert NonZeroAt(z + b, 1);
    forall k | 0 <= k < Count(z + a) && NonZeroAt(z + a, k) ensures Nth(z + a, k) == a { }
  }

  /** So adapters that share nothing but an address of zeros are exchanged adapters. */
  lemma ZerosAreNotShared(a: string, b: string)
    requires |a| == 19 && |b| == 19 && a != b && a != "[00:00:00:00:00:00]" && b != "[00:00:00:00:00:00]"
    ensures Verdict("[00:00:00:00:00:00]" + a, "[00:00:00:00:00:00]" + b) == (true, "[00:00:00:00:00:00]" + b)
  {
    BesidesZeros("[00:00:00:00:00:00]", a, b);
  }

  /** And zeros alone are no address at all. */
  lemma ZerosAreNoAddress(stored: string)
    requires stored != ""
    ensures Verdict(stored, "[00:00:00:00:00:00]") == (false, stored)
  {
    assert Nth("[00:00:00:00:00:00]", 0) == "[00:00:00:00:00:00]";
  }

  // ---------- the checks of many starts ----------

  function StoredAfter(lists: seq<string>): string {
    if lists == [] then "" else Verdict(StoredAfter(lists[..|lists| - 1]), lists[|lists| - 1]).1
  }

  predicate ResetAt(lists: seq<string>, n: nat)
    requires n < |lists|
  {
    Verdict(StoredAfter(lists[..n]), lists[n]).0
  }

  /** What is remembered is the list of the last reset, or the first list ever kept: the lists
      of the starts in between are not merged in. */
  lemma {:induction false} RememberedSinceLastReset(lists: seq<string>, n: nat)
    requires n < |lists| && lists[n] != "" && (StoredAfter(lists[..n]) == "" || ResetAt(lists, n))
    requires forall m :: n < m < |lists| ==> !ResetAt(lists, m)
    ensures StoredAfter(lists) == lists[n]
  {
    var last := |lists| - 1;
    if n < last {
      var front := lists[..last];
      forall m | n <= m < last ensures lists[..m] == front[..m] && ResetAt(front, m) == ResetAt(lists, m) {
        assert lists[..m] == front[..m];
      }
      assert front[n] == lists[n] && lists[..n] == front[..n];
      RememberedSinceLastReset(front, n);
      assert StoredAfter(front) == lists[n] && !ResetAt(lists, last);
    }
  }

  lemma NthOfConcat(a: string, b: string)
    requires |a| == TOKEN && |b| == TOKEN
    ensures Count(a) == 1 && Nth(a, 0) == a
    ensures Count(a + b) == 2 && Nth(a + b, 0) == a && Nth(a + b, 1) == b
  {
  }

  /** So adapters exchanged one at a time do reset in the end, although every two successive
      starts have an address in common. */
  lemma GradualExchangeResets(a: string, b: string)
    requires IsToken(a) && IsToken(b) && a != b && a != ZERO_MAC && b != ZERO_MAC
    ensures ShareAddress(a, a + b) && ShareAddress(a + b, b)
    ensures !ResetAt([a, a + b, b], 1) && ResetAt([a, a + b, b], 2)
  {
    NthOfConcat(a, b);
    NthOfConcat(b, a);
    assert Has(a + b, a) && Has(b, b) && !Has(b, a);
    assert NonZeroAt(a, 0) && NonZeroAt(a + b, 1) && NonZeroAt(b, 0);
    StoredAfterTwo(a, a + b);
    var lists := [a, a + b, b];
    assert lists[..1] == [a] && lists[..2] == [a, a + b];
  }

  lemma StoredAfterTwo(a: string, c: string)
    requires a != "" && ShareAddress(a, c)
    ensures StoredAfter([a]) == a && StoredAfter([a, c]) == a
  {
    assert [a, c][..1] == [a];
    assert StoredAfter([a][..0]) == "";
  }
}
