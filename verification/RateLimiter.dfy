/** The limiter on console text sent to the server. */
module RateLimiter {

  const WINDOW := 1000                // milliseconds

  /** stamp 0 means that nothing was offered yet. */
  datatype State = State(stamp: nat, counter: int)

  const Initial := State(0, 0)

  /** A message offered at time `now`; the flag tells whether it is sent. */
  function Offer(s: State, now: nat, maxRate: int): (State, bool) {
    if s.stamp == 0 || now - s.stamp > WINDOW then (State(now, 1), true)
    else (s.(counter := s.counter + 1), s.counter <= maxRate)
  }

  function After(times: seq<nat>, maxRate: int): State {
    if times == [] then Initial else Offer(After(times[..|times| - 1], maxRate), times[|times| - 1], maxRate).0
  }

  /** Is the last message of the trace sent? */
  predicate LastSent(times: seq<nat>, maxRate: int)
    requires times != []
  {
    Offer(After(times[..|times| - 1], maxRate), times[|times| - 1], maxRate).1
  }

  /** How many messages of the trace are sent at a time in [lo, hi]. */
  function SentBetween(times: seq<nat>, maxRate: int, lo: nat, hi: nat): nat {
    if times == [] then 0
    else SentBetween(times[..|times| - 1], maxRate, lo, hi)
         + (if lo <= times[|times| - 1] <= hi && LastSent(times, maxRate) then 1 else 0)
  }

  ghost predicate Clock(times: seq<nat>) {
    (forall i :: 0 <= i < |times| ==> times[i] > 0) && (forall i, j :: 0 <= i <= j < |times| ==> times[i] <= times[j])
  }

  function Cap(maxRate: int): nat {
    if maxRate < 0 then 0 else maxRate
  }

  /** Messages sent in the current window. */
  function SentInWindow(s: State, maxRate: int): int {
    if s.counter <= Cap(maxRate) + 1 then s.counter else Cap(maxRate) + 1
  }

  /** The window is open since its stamp, and what was sent in [lo, lo + 1000] depends on where
      the window starts. */
  ghost predicate Bounded(times: seq<nat>, maxRate: int, lo: nat) {
    var s, m := After(times, maxRate), Cap(maxRate);
    var sent := SentBetween(times, maxRate, lo, lo + WINDOW);
    if times == [] then sent == 0 && s == Initial
    else
      var last := times[|times| - 1];
      && 0 < s.stamp <= last <= s.stamp + WINDOW && s.counter >= 1
      && (last < lo ==> sent == 0)
      && (s.stamp < lo ==> sent <= SentInWindow(s, maxRate) - 1)
      && (lo <= s.stamp <= lo + WINDOW ==> sent <= m + SentInWindow(s, maxRate))
      && (s.stamp > lo + WINDOW ==> sent <= 2 * m + 1)
  }

  lemma {:induction false} TraceBounded(times: seq<nat>, maxRate: int, lo: nat)
    requires Clock(times)
    ensures Bounded(times, maxRate, lo)
  {
    if times != [] {
      var before := times[..|times| - 1];
      TraceBounded(before, maxRate, lo);
      assert before != [] ==> before[|before| - 1] <= times[|times| - 1];
    }
  }

  /** In any 1000 milliseconds, ends included, at most 2*max + 1 messages are sent. */
  lemma SlidingBound(times: seq<nat>, maxRate: int, lo: nat)
    requires Clock(times)
    ensures SentBetween(times, maxRate, lo, lo + WINDOW) <= 2 * Cap(maxRate) + 1
  {
    TraceBounded(times, maxRate, lo);
  }

  function Repeat(n: nat, t: nat): seq<nat> {
    if n == 0 then [] else Repeat(n - 1, t) + [t]
  }

  /** One more message at the end of a trace. */
  lemma OneMore(times: seq<nat>, now: nat, maxRate: int, lo: nat, hi: nat)
    ensures After(times + [now], maxRate) == Offer(After(times, maxRate), now, maxRate).0
    ensures SentBetween(times + [now], maxRate, lo, hi)
         == SentBetween(times, maxRate, lo, hi)
             + (if lo <= now <= hi && Offer(After(times, maxRate), now, maxRate).1 then 1 else 0)
  {
    var all := times + [now];
    assert all[..|all| - 1] == times;
  }

  lemma RepeatSnoc(before: seq<nat>, n: nat, t: nat)
    requires n > 0
    ensures before + Repeat(n, t) == before + Repeat(n - 1, t) + [t]
  {
    assert Repeat(n, t) == Repeat(n - 1, t) + [t];
  }

  lemma {:induction false} RepeatMessages(before: seq<nat>, s: State, n: nat, t: nat, maxRate: int, lo: nat)
    requires s == After(before, maxRate) && 0 < s.stamp <= t <= s.stamp + WINDOW && lo <= t <= lo + WINDOW
    requires s.counter + n <= maxRate + 1
    ensures After(before + Repeat(n, t), maxRate) == State(s.stamp, s.counter + n)
    ensures SentBetween(before + Repeat(n, t), maxRate, lo, lo + WINDOW)
        == SentBetween(before, maxRate, lo, lo + WINDOW) + n
  {
    if n == 0 {
      assert before + Repeat(0, t) == before;
    } else {
      RepeatMessages(before, s, n - 1, t, maxRate, lo);
      OneMore(before + Repeat(n - 1, t), t, maxRate, lo, lo + WINDOW);
      RepeatSnoc(before, n, t);
    }
  }

  lemma {:induction false} RepeatIsConstant(n: nat, t: nat)
    ensures |Repeat(n, t)| == n && forall i :: 0 <= i < n ==> Repeat(n, t)[i] == t
  {
    if n > 0 { RepeatIsConstant(n - 1, t); }
  }

  /** One early message, then the rest of its window just before the window ends. */
  function FirstWindow(maxRate: nat): seq<nat> {
    [1] + Repeat(maxRate, 1001)
  }

  lemma FirstWindowSends(maxRate: nat)
    ensures After(FirstWindow(maxRate), maxRate) == State(1, maxRate + 1)
    ensures SentBetween(FirstWindow(maxRate), maxRate, 1001, 2001) == maxRate
  {
    var first: seq<nat> := [1];
    assert first == [] + [1];
    OneMore([], 1, maxRate, 1001, 2001);
    RepeatMessages(first, State(1, 1), maxRate, 1001, maxRate, 1001);
  }

  lemma StepsAreOrdered(m: nat)
    ensures Clock(FirstWindow(m) + [1002] + Repeat(m, 1002))
  {
    RepeatIsConstant(m, 1001);
    RepeatIsConstant(m, 1002);
  }

  /** The bound is reached for every rate: that window, and then a full new one. */
  lemma SlidingBoundIsTight(maxRate: nat) returns (times: seq<nat>)
    ensures Clock(times) && SentBetween(times, maxRate, 1001, 2001) == 2 * maxRate + 1
  {
    FirstWindowSends(maxRate);
    var second := FirstWindow(maxRate);
    OneMore(second, 1002, maxRate, 1001, 2001);
    RepeatMessages(second + [1002], State(1002, 1), maxRate, 1002, maxRate, 1001);
    times := second + [1002] + Repeat(maxRate, 1002);
    StepsAreOrdered(maxRate);
  }

  // ----- windows -----

  /** Messages sent since the current window opened (those of the trace with that stamp). */
  function SentInLastWindow(times: seq<nat>, maxRate: int): nat {
    if times == [] then 0
    else
      var before := times[..|times| - 1];
      var same := before != [] && After(before, maxRate).stamp == After(times, maxRate).stamp;
      (if same then SentInLastWindow(before, maxRate) else 0) + (if LastSent(times, maxRate) then 1 else 0)
  }

  /** Each window sends its first max + 1 messages, no more and no fewer, and a new window opens
      only more than 1000 milliseconds after the previous one. */
  lemma {:induction false} WindowSendsFirst(times: seq<nat>, maxRate: int)
    requires Clock(times) && times != []
    ensures var s := After(times, maxRate);
            s.counter >= 1 && SentInLastWindow(times, maxRate) == SentInWindow(s, maxRate) <= Cap(maxRate) + 1
    ensures var before := times[..|times| - 1];
            var s, s' := After(before, maxRate), After(times, maxRate);
            s'.stamp == s.stamp || before == [] || s'.stamp > s.stamp + WINDOW
  {
    var before := times[..|times| - 1];
    if before != [] {
      WindowSendsFirst(before, maxRate);
      TraceBounded(before, maxRate, 0);
    }
  }

  /** The agent's two fields and their update in place. */
  class ConsoleText {
    var timeStamp: nat
    var counter: int
    const maxRate: int

    constructor (maxRate: int)
      ensures State(timeStamp, counter) == Initial && this.maxRate == maxRate
    {
      timeStamp, counter, this.maxRate := 0, 0, maxRate;
    }

    method Send(current: nat) returns (sent: bool)
      modifies this
      ensures (State(timeStamp, counter), sent) == Offer(old(State(timeStamp, counter)), current, maxRate)
    {
      if timeStamp == 0 || current - timeStamp > 1000 {
        timeStamp := current;
        counter := 1;
      } else {
        var previous := counter;
        counter := counter + 1;
        if previous > maxRate { return false; }
      }
      sent := true;
    }
  }
}
