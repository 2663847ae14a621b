/** The 22 native callback slots shared by all script variables: three parallel arrays and a
    queue of free slots, taken from one end and given back at the other. */
module CallbackPool {
  import opened Bytes

  const SLOTS := 22

  type Variable = nat

  datatype State = State(
    free: seq<nat>,
    held: map<Variable, nat>,         // outstanding variables and their slot
    parms: seq<nat>,                  // ..._n
    active: seq<bool>,
    context: seq<Option<Variable>>,   // ..._nctx
    issued: seq<nat>,                 // log: slots handed out, oldest first
    released: seq<nat>)               // log: slots given back, oldest first

  function Order(): (r: seq<nat>)
    ensures |r| == SLOTS
  {
    seq(SLOTS, i => i)
  }

  function Initial(): State {
    State(Order(), map[], Zeros(SLOTS), seq(SLOTS, i => false), seq(SLOTS, i => None), [], [])
  }

  ghost predicate Shape(s: State) {
    && |s.parms| == SLOTS && |s.active| == SLOTS && |s.context| == SLOTS
    && forall k :: 0 <= k < |s.free| ==> s.free[k] < SLOTS
  }

  /** Takes the last free slot. */
  function Get(s: State, numParms: nat, v: Variable): State
    requires Shape(s) && s.free != []
  {
    var slot := s.free[|s.free| - 1];
    s.(free := s.free[..|s.free| - 1], held := s.held[v := slot],
       parms := s.parms[slot := numParms], active := s.active[slot := true], context := s.context[slot := Some(v)],
       issued := s.issued + [slot])
  }

  /** Gives the slot back at the front. */
  function Put(s: State, v: Variable): State
    requires Shape(s) && v in s.held && s.held[v] < SLOTS
  {
    var slot := s.held[v];
    s.(free := [slot] + s.free, held := s.held - {v},
       parms := s.parms[slot := 0], active := s.active[slot := false], context := s.context[slot := None],
       released := s.released + [slot])
  }

  datatype Event = EGet(numParms: nat, v: Variable) | EPut(v: Variable)

  /** A get with fewer than one parameter is refused; any other needs a free slot, and makes a new
      variable. A variable is put once. */
  predicate Enabled(s: State, e: Event) {
    match e
    case EGet(numParms, v) => numParms < 1 || (s.free != [] && v !in s.held)
    case EPut(v) => v in s.held
  }

  /** Slot i is free and blank, or its context names the variable that holds it. */
  ghost predicate SlotInv(s: State, i: nat)
    requires Shape(s) && i < SLOTS
  {
    if i in s.free then !s.active[i] && s.parms[i] == 0 && s.context[i].None?
    else
      && s.active[i] && s.parms[i] >= 1 && s.context[i].Some?
      && s.context[i].value in s.held && s.held[s.context[i].value] == i
  }

  ghost predicate Inv(s: State) {
    && Shape(s)
    && (forall i, j :: 0 <= i < j < |s.free| ==> s.free[i] != s.free[j])
    && (forall v :: v in s.held ==> s.held[v] < SLOTS && s.held[v] !in s.free)
    && (forall i :: 0 <= i < SLOTS ==> SlotInv(s, i))
    && (forall v :: v in s.held ==> s.context[s.held[v]] == Some(v))
  }

  function Step(s: State, e: Event): State
    requires Inv(s) && Enabled(s, e)
  {
    match e
    case EGet(numParms, v) => if numParms < 1 then s else Get(s, numParms, v)
    case EPut(v) => Put(s, v)
  }

  lemma GetKeeps(s: State, numParms: nat, v: Variable)
    requires Inv(s) && s.free != [] && v !in s.held && numParms >= 1
    ensures Inv(Get(s, numParms, v))
  {
    var slot, s' := s.free[|s.free| - 1], Get(s, numParms, v);
    assert s.free == s'.free + [slot];
    forall i | 0 <= i < SLOTS ensures SlotInv(s', i) {
      assert SlotInv(s, i);
    }
  }

  lemma PutKeeps(s: State, v: Variable)
    requires Inv(s) && v in s.held
    ensures Inv(Put(s, v))
  {
    var slot, s' := s.held[v], Put(s, v);
    forall i | 0 <= i < SLOTS ensures SlotInv(s', i) {
      assert SlotInv(s, i);
    }
  }

  datatype Trace = Trace(states: seq<State>, events: seq<Event>)

  ghost predicate Follows(t: Trace, i: nat)
    requires i < |t.events| && |t.states| == |t.events| + 1
  {
    Inv(t.states[i]) ==> Enabled(t.states[i], t.events[i]) && t.states[i + 1] == Step(t.states[i], t.events[i])
  }

  ghost predicate Run(t: Trace) {
    && |t.states| == |t.events| + 1
    && t.states[0] == Initial()
    && forall i :: 0 <= i < |t.events| ==> Follows(t, i)
  }

  function Reverse(s: seq<nat>): seq<nat> {
    if s == [] then [] else Reverse(s[1..]) + [s[0]]
  }

  /** What was issued, followed by the free slots in the order they will be issued, is the
      initial order followed by what was released. */
  ghost predicate QueueInv(s: State) {
    s.issued + Reverse(s.free) == Reverse(Order()) + s.released
  }

  lemma {:induction false} ReverseLast(s: seq<nat>)
    requires s != []
    ensures Reverse(s) == [s[|s| - 1]] + Reverse(s[..|s| - 1])
  {
    if |s| > 1 {
      ReverseLast(s[1..]);
      assert s[1..][..|s| - 2] == s[..|s| - 1][1..];
    }
  }

  lemma GetKeepsQueue(s: State, numParms: nat, v: Variable)
    requires Shape(s) && s.free != [] && QueueInv(s)
    ensures QueueInv(Get(s, numParms, v))
  {
    var slot, front := s.free[|s.free| - 1], s.free[..|s.free| - 1];
    ReverseLast(s.free);
    assert s.issued + ([slot] + Reverse(front)) == s.issued + [slot] + Reverse(front);
  }

  lemma PutKeepsQueue(s: State, v: Variable)
    requires Shape(s) && v in s.held && s.held[v] < SLOTS && QueueInv(s)
    ensures QueueInv(Put(s, v))
  {
    var slot := s.held[v];
    assert ([slot] + s.free)[1..] == s.free;
    assert s.issued + (Reverse(s.free) + [slot]) == s.issued + Reverse(s.free) + [slot];
  }

  lemma StepKeeps(s: State, e: Event)
    requires Inv(s) && QueueInv(s) && Enabled(s, e)
    ensures Inv(Step(s, e)) && QueueInv(Step(s, e))
  {
    match e
    case EGet(numParms, v) =>
      if numParms >= 1 {
        GetKeeps(s, numParms, v);
        GetKeepsQueue(s, numParms, v);
      }
    case EPut(v) =>
      PutKeeps(s, v);
      PutKeepsQueue(s, v);
  }

  lemma InitialInv()
    ensures Inv(Initial())
  {
    forall i | 0 <= i < SLOTS ensures SlotInv(Initial(), i) {
      assert Order()[i] == i;
    }
  }

  lemma InitialQueueInv()
    ensures QueueInv(Initial())
  {
    assert [] + Reverse(Order()) == Reverse(Order()) == Reverse(Order()) + [];
  }

  lemma {:induction false} RunKeeps(t: Trace, n: nat)
    requires Run(t) && n < |t.states|
    ensures Inv(t.states[n]) && QueueInv(t.states[n])
  {
    if n == 0 {
      InitialInv();
      InitialQueueInv();
    } else {
      RunKeeps(t, n - 1);
      assert Follows(t, n - 1);
      StepKeeps(t.states[n - 1], t.events[n - 1]);
    }
  }

  /** In every run the slots are split between the free queue and the outstanding variables, no
      two variables share one, and the three arrays agree with the split. */
  lemma SlotsArePartitioned(t: Trace, n: nat, i: nat)
    requires Run(t) && n < |t.states| && i < SLOTS
    ensures var s := t.states[n];
            && |s.active| == SLOTS && |s.parms| == SLOTS && |s.context| == SLOTS
            && (i in s.free <==> forall v :: v in s.held ==> s.held[v] != i)
            && (forall u, v :: u in s.held && v in s.held && s.held[u] == s.held[v] ==> u == v)
            && (s.active[i] <==> i !in s.free) && (s.context[i].Some? <==> i !in s.free)
            && (s.parms[i] >= 1 <==> i !in s.free)
            && (s.context[i].Some? ==> s.context[i].value in s.held && s.held[s.context[i].value] == i)
  {
    RunKeeps(t, n);
    assert SlotInv(t.states[n], i);
  }

  /** Event i asked for the slot that variable v has held since. */
  predicate HeldSince(t: Trace, i: nat, n: nat, v: Variable)
    requires i < n <= |t.events|
  {
    && t.events[i].EGet? && t.events[i].v == v && t.events[i].numParms != 0
    && forall j :: i < j < n ==> t.events[j] != EPut(v)
  }

  /** While a variable holds a slot, the slot's parameter count is the one it was asked for with. */
  lemma {:induction false} ParmsAreAskedFor(t: Trace, n: nat, v: Variable) returns (i: nat)
    requires Run(t) && n < |t.states| && v in t.states[n].held
    ensures i < n && HeldSince(t, i, n, v)
    ensures |t.states[n].parms| == 22 && t.states[n].held[v] < 22
    ensures t.states[n].parms[t.states[n].held[v]] == t.events[i].numParms
  {
    RunKeeps(t, n);
    assert n > 0;
    RunKeeps(t, n - 1);
    assert Follows(t, n - 1);
    if t.events[n - 1].EGet? && t.events[n - 1].v == v && t.events[n - 1].numParms != 0 {
      i := n - 1;
    } else {
      i := ParmsAreAskedFor(t, n - 1, v);
    }
  }

  /** A get can come while a slot is free, or without parameters at any time; and a held variable can be
      put at any time. */
  lemma WhatCanCome(s: State, numParms: nat, v: Variable)
    ensures |s.free| > 0 && v !in s.held ==> Enabled(s, EGet(numParms, v))
    ensures Enabled(s, EGet(0, v)) && (v in s.held ==> Enabled(s, EPut(v)))
  {
  }

  /** A get with parameters gives its variable a slot that was free; one without changes nothing. */
  lemma GetGivesASlot(t: Trace, n: nat)
    requires Run(t) && n < |t.events| && t.events[n].EGet?
    ensures var e, s, s' := t.events[n], t.states[n], t.states[n + 1];
            if e.numParms == 0 then s' == s
            else e.v !in s.held && e.v in s'.held && s'.held == s.held[e.v := s'.held[e.v]] && s'.held[e.v] in s.free
  {
    RunKeeps(t, n);
    assert Follows(t, n);
  }

  lemma {:induction false} ReverseAt(s: seq<nat>, k: nat)
    requires k < |s|
    ensures |Reverse(s)| == |s| && Reverse(s)[k] == s[|s| - 1 - k]
  {
    if |s| > 1 {
      ReverseAt(s[1..], if k < |s| - 1 then k else 0);
    }
  }

  /** Strict queue order, over every run: the first 22 slots handed out are 21, 20, ..., 0, and
      number 22 + r is the slot released as number r. */
  lemma IssuesFollowReleases(t: Trace, n: nat, k: nat)
    requires Run(t) && n < |t.states| && k < |t.states[n].issued|
    ensures var s := t.states[n];
            if k < SLOTS then s.issued[k] == SLOTS - 1 - k
            else k - SLOTS < |s.released| && s.issued[k] == s.released[k - SLOTS]
  {
    RunKeeps(t, n);
    QueueSays(t.states[n], k);
  }

  lemma QueueSays(s: State, k: nat)
    requires QueueInv(s) && k < |s.issued|
    ensures if k < SLOTS then s.issued[k] == SLOTS - 1 - k
            else k - SLOTS < |s.released| && s.issued[k] == s.released[k - SLOTS]
  {
    ReverseAt(Order(), if k < SLOTS then k else 0);
    SameAt(s.issued, Reverse(s.free), Reverse(Order()), s.released, k);
  }

  lemma SameAt(a: seq<nat>, x: seq<nat>, o: seq<nat>, r: seq<nat>, k: nat)
    requires a + x == o + r && k < |a|
    ensures if k < |o| then a[k] == o[k] else k - |o| < |r| && a[k] == r[k - |o|]
  {
    assert |a + x| == |o + r| && (a + x)[k] == (o + r)[k];
  }

  lemma StepGrows(t: Trace, n: nat)
    requires Run(t) && n < |t.events|
    ensures t.states[n].issued <= t.states[n + 1].issued && t.states[n].released <= t.states[n + 1].released
  {
    RunKeeps(t, n);
    assert Follows(t, n);
  }

  lemma {:induction false} LogsGrow(t: Trace, m: nat, n: nat)
    requires Run(t) && m <= n < |t.states|
    ensures t.states[m].issued <= t.states[n].issued && t.states[m].released <= t.states[n].released
  {
    if m < n {
      LogsGrow(t, m, n - 1);
      StepGrows(t, n - 1);
    }
  }

  lemma QueueAt(t: Trace, n: nat)
    requires Run(t) && n < |t.states|
    ensures QueueInv(t.states[n])
  {
    RunKeeps(t, n);
  }

  lemma PutAt(t: Trace, m: nat, v: Variable)
    requires Run(t) && m < |t.events| && t.events[m] == EPut(v)
    ensures v in t.states[m].held && t.states[m].held[v] < SLOTS && t.states[m].held[v] !in t.states[m].free
    ensures t.states[m + 1].released == t.states[m].released + [t.states[m].held[v]]
  {
    RunKeeps(t, m);
    assert Follows(t, m);
  }

  /** What is issued after a release begins with the slots that were free then, last first, and
      goes on with the released one. */
  lemma NextIssues(t: Trace, m: nat, n: nat, v: Variable)
    requires Run(t) && m < n < |t.states| && t.events[m] == EPut(v)
    ensures v in t.states[m].held && t.states[m].issued <= t.states[n].issued
    ensures var s, end := t.states[m], t.states[n];
            s.issued + (Reverse(s.free) + [s.held[v]]) <= end.issued + Reverse(end.free)
  {
    QueueAt(t, m);
    QueueAt(t, n);
    PutAt(t, m, v);
    LogsGrow(t, m, n);
    LogsGrow(t, m + 1, n);
    ReleasedComesNext(t.states[m], t.states[m].held[v], t.states[n]);
  }

  lemma ReleasedComesNext(s: State, slot: nat, end: State)
    requires QueueInv(s) && QueueInv(end) && s.released + [slot] <= end.released
    ensures s.issued + (Reverse(s.free) + [slot]) <= end.issued + Reverse(end.free)
  {
    var start := Reverse(Order());
    assert s.issued + (Reverse(s.free) + [slot]) == s.issued + Reverse(s.free) + [slot];
    assert start + s.released + [slot] == start + (s.released + [slot]) <= start + end.released;
  }

  /** A slot released by event `m` is handed out again only after every slot that was free then
      has been handed out, and those go in the order of the queue, last first. */
  lemma ReleasedSlotWaitsForTheFreeOnes(t: Trace, m: nat, n: nat, v: Variable, k: nat)
    requires Run(t) && m < n < |t.states| && t.events[m] == EPut(v)
    requires |t.states[m].issued| + k < |t.states[n].issued| && k <= |t.states[m].free|
    ensures v in t.states[m].held
    ensures var s, next := t.states[m], t.states[n].issued[|t.states[m].issued| + k];
            if k < |s.free| then next == s.free[|s.free| - 1 - k] != s.held[v] else next == s.held[v]
  {
    NextIssues(t, m, n, v);
    PutAt(t, m, v);
    var s, end := t.states[m], t.states[n];
    var order := Reverse(s.free) + [s.held[v]];
    var j := |s.issued| + k;
    assert end.issued[j] == (end.issued + Reverse(end.free))[j];
    if s.free != [] {
      ReverseAt(s.free, if k < |s.free| then k else 0);
    }
    assert (s.issued + order)[j] == order[k];
  }

  /** The same state as three arrays and a queue, updated in place. */
  class Pool {
    var free: seq<nat>
    const parms: array<nat>
    const active: array<bool>
    const context: array<Option<Variable>>
    ghost var held: map<Variable, nat>
    ghost var issued: seq<nat>
    ghost var released: seq<nat>

    ghost function View(): State
      reads this, parms, active, context
    {
      State(free, held, parms[..], active[..], context[..], issued, released)
    }

    constructor ()
      ensures View() == Initial() && fresh(parms) && fresh(active) && fresh(context)
    {
      parms := new nat[SLOTS](_ => 0);
      active := new bool[SLOTS](_ => false);
      context := new Option<Variable>[SLOTS](_ => None);
      free := seq(SLOTS, i => i);
      held, issued, released := map[], [], [];
      new;
      assert parms[..] == Initial().parms && active[..] == Initial().active && context[..] == Initial().context;
    }

    /** GetGlobalGenericCallbackEx for a new variable; None when too few arguments are asked for. */
    method Take(numParms: int, v: Variable) returns (slot: Option<nat>)
      requires Inv(View()) && free != [] && v !in held
      modifies this, parms, active, context
      ensures Inv(View())
      ensures numParms < 1 ==> slot.None? && View() == old(View())
      ensures numParms >= 1 ==> slot.Some? && View() == Get(old(View()), numParms, v) && held[v] == slot.value
    {
      if numParms < 1 { return None; }
      GetKeeps(View(), numParms, v);
      var index := free[|free| - 1];
      free := free[..|free| - 1];
      parms[index] := numParms;
      active[index] := true;
      context[index] := Some(v);
      held, issued := held[v := index], issued + [index];
      slot := Some(index);
    }

    /** PutGlobalGenericCallbackEx */
    method GiveBack(v: Variable, index: nat)
      requires Inv(View()) && v in held && held[v] == index
      modifies this, parms, active, context
      ensures Inv(View()) && View() == Put(old(View()), v)
    {
      PutKeeps(View(), v);
      free := [index] + free;
      parms[index] := 0;
      active[index] := false;
      context[index] := None;
      held, released := held - {v}, released + [index];
    }
  }
}
