/** The string helpers of the microstack parser library that the agent's loops use. */
module Strings {

  predicate OccursAt(s: string, t: string, k: nat) {
    k + |t| <= |s| && s[k..k + |t|] == t
  }

  /** Least `k >= from` where `t` occurs, or -1. */
  function FirstFrom(s: string, t: string, from: nat): (k: int)
    ensures if k < 0 then k == -1 else from <= k && OccursAt(s, t, k)
    decreases |s| - from
  {
    if from + |t| > |s| then -1 else if OccursAt(s, t, from) then from else FirstFrom(s, t, from + 1)
  }

  lemma {:induction false} FirstIsLeast(s: string, t: string, from: nat, j: nat)
    requires from <= j && OccursAt(s, t, j)
    ensures 0 <= FirstFrom(s, t, from) <= j
    decreases j - from
  {
    if from < j && !OccursAt(s, t, from) {
      FirstIsLeast(s, t, from + 1, j);
    }
  }

  /** ILibString_IndexOf */
  method IndexOf(s: string, t: string) returns (k: int)
    ensures k == FirstFrom(s, t, 0)
  {
    var index := 0;
    while |s| - index >= |t|
      invariant 0 <= index <= |s| + 1 && FirstFrom(s, t, 0) == FirstFrom(s, t, index)
      decreases |s| - index
    {
      if s[index..index + |t|] == t { return index; }
      index := index + 1;
    }
    k := -1;
  }

  predicate IsBlank(c: char) { c == ' ' || c == '\t' }

  /** The first position from `i` on that is not blank. */
  function Front(s: string, i: nat): (r: nat)
    requires i <= |s|
    ensures i <= r <= |s|
    decreases |s| - i
  {
    if i < |s| && IsBlank(s[i]) then Front(s, i + 1) else i
  }

  /** The end of what is left of s[lo..j] without the blanks at its end. */
  function Back(s: string, lo: nat, j: nat): (r: nat)
    requires lo <= j <= |s|
    ensures lo <= r <= j
    decreases j
  {
    if j > lo && IsBlank(s[j - 1]) then Back(s, lo, j - 1) else j
  }

  /** ILibTrimString: blanks and tabs off both ends. */
  function Trim(s: string): string {
    var a := Front(s, 0);
    s[a..Back(s, a, |s|)]
  }

  lemma {:induction false} FrontFacts(s: string, i: nat)
    requires i <= |s|
    ensures forall k :: i <= k < Front(s, i) ==> IsBlank(s[k])
    ensures Front(s, i) < |s| ==> !IsBlank(s[Front(s, i)])
    decreases |s| - i
  {
    if i < |s| && IsBlank(s[i]) { FrontFacts(s, i + 1); }
  }

  lemma {:induction false} BackFacts(s: string, lo: nat, j: nat)
    requires lo <= j <= |s|
    ensures forall k :: Back(s, lo, j) <= k < j ==> IsBlank(s[k])
    ensures Back(s, lo, j) > lo ==> !IsBlank(s[Back(s, lo, j) - 1])
    decreases j
  {
    if j > lo && IsBlank(s[j - 1]) { BackFacts(s, lo, j - 1); }
  }

  /** What is trimmed off is blank, and what is left does not begin or end with a blank. */
  lemma TrimRemovesExactlyTheBlanks(s: string) returns (a: nat, b: nat)
    ensures a <= b <= |s| && Trim(s) == s[a..b]
    ensures forall k :: 0 <= k < a || b <= k < |s| ==> IsBlank(s[k])
    ensures a < b ==> !IsBlank(s[a]) && !IsBlank(s[b - 1])
  {
    a := Front(s, 0);
    b := Back(s, a, |s|);
    FrontFacts(s, 0);
    BackFacts(s, a, |s|);
  }
}
