/** The core module: what is stored, what the script engine runs, the 60 second start timer and
    the acknowledgements sent to the server. */
module CoreModule {
  import opened Bytes

  type Digest = seq<byte>

  const DIGEST_SIZE := 48
  const HEADER_SIZE := 52             // command, request id, hash
  const CORE_MODULE := 10
  const CORE_MODULE_HASH := 11
  const CORE_OK := 16
  const COMPRESSED_CORE_MODULE := 20

  /** The hash of the data store and ILibInflate, as functions. */
  datatype Library = Library(sha384: seq<byte> -> Digest, inflate: seq<byte> -> Option<seq<byte>>)

  /** A CoreModuleHash packet: with a hash, or only its 4 byte header. */
  datatype Ack = WithHash(request: nat, hash: Digest) | Bare(request: nat)

  /** The data store's two records of the core: one as it is, and one under the key with its
      checksum, which holds it compressed. Reading prefers the first. */
  datatype Store = Store(plain: Option<seq<byte>>, packed: Option<seq<byte>>)

  function Stored(st: Store): Option<seq<byte>> {
    if st.plain.Some? then st.plain else st.packed
  }

  /** ILibSimpleDataStore_PutCompressed removes the plain record. */
  function PutPacked(st: Store, m: seq<byte>): Store {
    Store(None, Some(m))
  }

  /** ILibSimpleDataStore_Delete removes one record, the plain one if there is one. */
  function Delete(st: Store): Store {
    if st.plain.Some? then st.(plain := None) else st.(packed := None)
  }

  datatype State = State(
    store: Store,
    launched: seq<seq<byte>>,         // code handed to the current engine, oldest first
    timer: bool,                      // the start timer lives in the current engine
    coreTimeout: bool,                // agent->coreTimeout != NULL
    localScript: bool,
    acks: seq<Ack>)

  /** The script inside a module follows a 4 byte prefix. */
  function Code(m: seq<byte>): seq<byte> {
    if |m| >= 4 then m[4..] else []
  }

  predicate Launchable(store: Option<seq<byte>>) {
    store.Some? && |store.value| > 4
  }

  /** Agent start: a stored core waits for the server, or is launched when updates are off. */
  function Start(store: Store, noUpdate: bool): State {
    if !Launchable(Stored(store)) then State(store, [], false, false, false, [])
    else if noUpdate then State(store, [Code(Stored(store).value)], false, false, true, [])
    else State(store, [], true, true, false, [])
  }

  function Core(s: State): Option<seq<byte>> {
    Stored(s.store)
  }

  /** ScriptEngine_Stop replaces the engine; timers of the old one go with it. */
  function EngineStop(s: State): State {
    s.(launched := [], timer := false)
  }

  function Launch(s: State): State {
    if Launchable(Core(s)) then s.(launched := s.launched + [Code(Core(s).value)]) else s
  }

  function Request(cmd: seq<byte>): nat
    requires |cmd| >= 4
  {
    Be16(cmd[2..])
  }

  predicate HasCore(l: Library, s: State, hash: Digest) {
    Core(s).Some? && l.sha384(Core(s).value) == hash
  }

  function Install(l: Library, s: State, cmd: seq<byte>): State
    requires |cmd| >= 4
  {
    if s.localScript then s
    else if |cmd| > HEADER_SIZE then
      var wanted := cmd[4..HEADER_SIZE];
      if HasCore(l, s, wanted) then
        s.(acks := s.acks + [WithHash(Request(cmd), wanted)])
      else
        var payload := cmd[HEADER_SIZE..];
        var received := if Be16(cmd) == COMPRESSED_CORE_MODULE then l.inflate(payload) else Some(payload);
        var s := s.(coreTimeout := false);
        match received
        case None => s
        case Some(m) =>
          if l.sha384(m) != wanted then
            EngineStop(s.(store := Delete(PutPacked(s.store, m)))).(acks := s.acks + [Bare(Request(cmd))])
          else
            EngineStop(s.(store := PutPacked(s.store, m)))
              .(launched := [Code(m)], acks := s.acks + [WithHash(Request(cmd), wanted)])
    else if |cmd| == 4 then
      EngineStop(s.(store := Delete(s.store))).(acks := s.acks + [Bare(Request(cmd))])
    else s
  }

  function HashQuery(l: Library, s: State, cmd: seq<byte>): State
    requires |cmd| >= 4
  {
    var ack :=
      if !s.localScript && Core(s).Some? then WithHash(Request(cmd), l.sha384(Core(s).value))
      else if s.localScript then WithHash(Request(cmd), Zeros(DIGEST_SIZE))
      else Bare(Request(cmd));
    s.(acks := s.acks + [ack])
  }

  /** The server confirms the stored core: cancel the start timer and launch. */
  function Confirm(s: State): State {
    if s.coreTimeout then Launch(s.(coreTimeout := false, timer := false)) else s
  }

  /** The start timer elapses. */
  function TimerFires(s: State): State {
    Launch(s.(coreTimeout := false, timer := false))
  }

  datatype Event = ETimer | ECommand(cmd: seq<byte>)

  predicate Enabled(s: State, e: Event) {
    match e
    case ETimer => s.timer
    case ECommand(cmd) => |cmd| >= 4
  }

  function Step(l: Library, s: State, e: Event): State
    requires Enabled(s, e)
  {
    match e
    case ETimer => TimerFires(s)
    case ECommand(cmd) =>
      var command := Be16(cmd);
      if command == CORE_MODULE || command == COMPRESSED_CORE_MODULE then Install(l, s, cmd)
      else if command == CORE_MODULE_HASH then HashQuery(l, s, cmd)
      else if command == CORE_OK then Confirm(s)
      else s
  }

  datatype Trace = Trace(library: Library, store: Store, noUpdate: bool, states: seq<State>, events: seq<Event>)

  ghost predicate Follows(t: Trace, i: nat)
    requires i < |t.events| && |t.states| == |t.events| + 1
  {
    Enabled(t.states[i], t.events[i]) && t.states[i + 1] == Step(t.library, t.states[i], t.events[i])
  }

  ghost predicate Run(t: Trace) {
    && |t.states| == |t.events| + 1
    && t.states[0] == Start(t.store, t.noUpdate)
    && forall i :: 0 <= i < |t.events| ==> Follows(t, i)
  }

  // ----- what every run keeps -----

  ghost predicate Inv(s: State) {
    && (s.launched == [] || (Core(s).Some? && s.launched == [Code(Core(s).value)]))
    && (s.timer ==> s.launched == [] && Launchable(Core(s)))
    && (s.coreTimeout ==> s.launched == [])
  }

  lemma StepKeeps(l: Library, s: State, e: Event)
    requires Inv(s) && Enabled(s, e)
    ensures Inv(Step(l, s, e)) && Step(l, s, e).localScript == s.localScript
  {
  }

  lemma {:induction false} RunKeeps(t: Trace, n: nat)
    requires Run(t) && n < |t.states|
    ensures Inv(t.states[n]) && t.states[n].localScript == (t.noUpdate && Launchable(Stored(t.store)))
  {
    if n > 0 {
      RunKeeps(t, n - 1);
      assert Follows(t, n - 1);
      StepKeeps(t.library, t.states[n - 1], t.events[n - 1]);
    }
  }

  // ----- the kinds of event the results speak of -----

  predicate IsInstall(s: State, e: Event) {
    e.ECommand? && |e.cmd| >= 4 && !s.localScript
        && (Be16(e.cmd) == CORE_MODULE || Be16(e.cmd) == COMPRESSED_CORE_MODULE)
  }

  predicate Removes(s: State, e: Event) {
    IsInstall(s, e) && |e.cmd| == 4
  }

  /** A removal that finds both records of the core, and removes one. */
  predicate HalfRemoves(s: State, e: Event) {
    Removes(s, e) && s.store.plain.Some? && s.store.packed.Some?
  }

  /** A core that the store does not have. */
  predicate BringsNewCore(l: Library, s: State, e: Event) {
    IsInstall(s, e) && |e.cmd| > HEADER_SIZE && !HasCore(l, s, e.cmd[4..HEADER_SIZE])
  }

  predicate FailsToInflate(l: Library, s: State, e: Event) {
    BringsNewCore(l, s, e) && Be16(e.cmd) == COMPRESSED_CORE_MODULE && l.inflate(e.cmd[HEADER_SIZE..]).None?
  }

  predicate IsCoreOk(e: Event) {
    e.ECommand? && |e.cmd| >= 4 && Be16(e.cmd) == CORE_OK
  }

  // ----- the engine and the store -----

  /** A stored core that neither runs nor waits for its start timer. */
  predicate Neglected(s: State) {
    Launchable(Core(s)) && s.launched == [] && !s.timer
  }

  /** The events after which no core is neglected any more. */
  predicate Recovers(l: Library, s: State, e: Event) {
    Removes(s, e) || (BringsNewCore(l, s, e) && !FailsToInflate(l, s, e)) || (IsCoreOk(e) && s.coreTimeout)
  }

  /** Event `i` left half a core behind, and nothing before `n` made up for it. */
  ghost predicate NeglectedSince(t: Trace, i: nat, n: nat)
    requires i < n <= |t.events| < |t.states|
  {
    && HalfRemoves(t.states[i], t.events[i]) && Launchable(Core(t.states[i + 1]))
    && forall j :: i < j < n ==> !Recovers(t.library, t.states[j], t.events[j])
  }

  lemma StepNeglects(l: Library, s: State, e: Event)
    requires Inv(s) && Enabled(s, e)
    ensures var s' := Step(l, s, e);
            Neglected(s') <==> (HalfRemoves(s, e) && Launchable(Core(s'))) || (Neglected(s) && !Recovers(l, s, e))
  {
  }

  lemma {:induction false} NeglectedIff(t: Trace, n: nat)
    requires Run(t) && n < |t.states|
    ensures Neglected(t.states[n]) <==> exists i :: 0 <= i < n && NeglectedSince(t, i, n)
  {
    if n > 0 {
      RunKeeps(t, n - 1);
      assert Follows(t, n - 1);
      StepNeglects(t.library, t.states[n - 1], t.events[n - 1]);
      NeglectedIff(t, n - 1);
      if Neglected(t.states[n]) {
        if Neglected(t.states[n - 1]) && !Recovers(t.library, t.states[n - 1], t.events[n - 1]) {
          var i :| 0 <= i < n - 1 && NeglectedSince(t, i, n - 1);
          assert NeglectedSince(t, i, n);
        } else {
          assert NeglectedSince(t, n - 1, n);
        }
      }
      if i :| 0 <= i < n && NeglectedSince(t, i, n) {
        if i < n - 1 {
          assert NeglectedSince(t, i, n - 1);
          assert !Recovers(t.library, t.states[n - 1], t.events[n - 1]);
        }
      }
    }
  }

  /** The engine runs nothing or exactly the script of the stored module, launched once. A stored
      core that is not running has its start timer pending, except exactly after a removal that
      left the second of two records behind. */
  lemma EngineMatchesStore(t: Trace, n: nat)
    requires Run(t) && n < |t.states|
    ensures var s := t.states[n];
            && |s.launched| <= 1
            && (s.launched != [] ==> Core(s).Some? && s.launched[0] == Code(Core(s).value))
            && (s.timer ==> s.launched == [])
            && ((Launchable(Core(s)) ==> s.launched != [] || s.timer) <==>
                !exists i :: 0 <= i < n && NeglectedSince(t, i, n))
  {
    RunKeeps(t, n);
    NeglectedIff(t, n);
  }

  /** Every acknowledgement sent by step n tells the truth about the state after it: a hash is
      the stored module's own, and the one the server asked to install; a bare one means that
      nothing is running, and that nothing is stored exactly unless the removal found both
      records. (With core updates off every answer is the zero hash.) */
  lemma AcksAreTrue(t: Trace, n: nat)
    requires Run(t) && n < |t.events|
    ensures var s, s', e := t.states[n], t.states[n + 1], t.events[n];
            || s'.acks == s.acks
            || (e.ECommand? && |e.cmd| >= 4 &&
                exists ack :: s'.acks == s.acks + [ack] && TrueAck(t.library, s, e.cmd, s', ack))
  {
    RunKeeps(t, n);
    assert Follows(t, n);
    AckOfStep(t.library, t.states[n], t.events[n]);
  }

  ghost predicate TrueAck(l: Library, s: State, cmd: seq<byte>, s': State, ack: Ack)
    requires |cmd| >= 4
  {
    && ack.request == Request(cmd)
    && if s'.localScript then ack == WithHash(ack.request, Zeros(DIGEST_SIZE))
       else match ack
         case Bare(_) => s'.launched == [] && (Core(s').None? <==> !HalfRemoves(s, ECommand(cmd)))
         case WithHash(_, hash) =>
           && HasCore(l, s', hash)
           && (Be16(cmd) != CORE_MODULE_HASH ==> |cmd| > HEADER_SIZE && hash == cmd[4..HEADER_SIZE])
  }

  lemma AckOfStep(l: Library, s: State, e: Event)
    requires Inv(s) && Enabled(s, e)
    ensures var s' := Step(l, s, e);
            || s'.acks == s.acks
            || (e.ECommand? && exists ack :: s'.acks == s.acks + [ack] && TrueAck(l, s, e.cmd, s', ack))
  {
    var s' := Step(l, s, e);
    if s'.acks != s.acks {
      var ack := s'.acks[|s'.acks| - 1];
      assert s'.acks == s.acks + [ack] && TrueAck(l, s, e.cmd, s', ack);
    }
  }

  lemma BothRecordsBefore(l: Library, s: State, e: Event)
    requires Enabled(s, e) && Step(l, s, e).store.plain.Some? && Step(l, s, e).store.packed.Some?
    ensures Step(l, s, e).store == s.store && !Removes(s, e)
  {
  }

  /** Two records of the core exist only as they were at the start, until the first removal or
      new core. */
  lemma {:induction false} BothRecordsOnlyFromTheStart(t: Trace, n: nat)
    requires Run(t) && n < |t.states| && t.states[n].store.plain.Some? && t.states[n].store.packed.Some?
    ensures t.states[n].store == t.store
    ensures forall i :: 0 <= i < n ==> !Removes(t.states[i], t.events[i])
  {
    if n > 0 {
      assert Follows(t, n - 1);
      BothRecordsBefore(t.library, t.states[n - 1], t.events[n - 1]);
      BothRecordsOnlyFromTheStart(t, n - 1);
    }
  }

  // ----- what a command does and how it is answered -----

  /** A request for the hash is answered once, with the core's own hash, with zeros if updates are off,
      or with the bare header if there is no core; and it changes nothing. */
  lemma HashIsAnswered(l: Library, s: State, cmd: seq<byte>)
    requires |cmd| >= 4 && cmd[0] == 0 && cmd[1] == 11
    ensures var request := (cmd[2] as int) * 256 + cmd[3];
            Step(l, s, ECommand(cmd)) ==
              s.(acks := s.acks + [if s.localScript then WithHash(request, seq(48, _ => 0))
                                   else if Core(s).Some? then WithHash(request, l.sha384(Core(s).value))
                                   else Bare(request)])
  {
    assert Zeros(48) == seq(48, _ => 0);
  }

  /** A removal is answered once. The plain record goes, or else the compressed one, and nothing runs. */
  lemma RemovalIsAnswered(l: Library, s: State, cmd: seq<byte>)
    requires |cmd| == 4 && cmd[0] == 0 && (cmd[1] == 10 || cmd[1] == 20) && !s.localScript
    ensures var s', request := Step(l, s, ECommand(cmd)), (cmd[2] as int) * 256 + cmd[3];
            && s'.acks == s.acks + [Bare(request)] && s'.launched == [] && !s'.timer
            && s'.coreTimeout == s.coreTimeout
            && s'.store == (if s.store.plain.Some? then Store(None, s.store.packed) else Store(None, None))
  {
  }

  /** The module in a command: what stands behind 52 bytes, inflated in a command 20. */
  function Received(l: Library, cmd: seq<byte>): Option<seq<byte>>
    requires |cmd| > 52
  {
    if cmd[1] == 20 then l.inflate(cmd[52..]) else Some(cmd[52..])
  }

  /** A core is answered once, unless it does not inflate: with its hash if it is the stored one, which
      changes nothing, or has the hash that the command names, in place of what was stored and run;
      and otherwise with the bare header, leaving nothing stored and nothing running. */
  lemma CoreIsAnswered(l: Library, s: State, cmd: seq<byte>)
    requires |cmd| > 52 && cmd[0] == 0 && (cmd[1] == 10 || cmd[1] == 20) && !s.localScript
    ensures var s', request := Step(l, s, ECommand(cmd)), (cmd[2] as int) * 256 + cmd[3];
            if Core(s).Some? && l.sha384(Core(s).value) == cmd[4..52] then
              s' == s.(acks := s.acks + [WithHash(request, cmd[4..52])])
            else if Received(l, cmd).None? then s' == s.(coreTimeout := false)
            else
              var m := Received(l, cmd).value;
              if l.sha384(m) == cmd[4..52] then
                && s'.acks == s.acks + [WithHash(request, cmd[4..52])] && Core(s') == Some(m)
                && s'.launched == [if |m| >= 4 then m[4..] else []] && !s'.timer && !s'.coreTimeout
              else
                && s'.acks == s.acks + [Bare(request)] && Core(s') == None
                && s'.launched == [] && !s'.timer && !s'.coreTimeout
  {
  }

  /** Confirmations are not answered, and whatever is neither of these changes nothing. */
  lemma OthersAreNotAnswered(l: Library, s: State, cmd: seq<byte>)
    requires |cmd| >= 4
    ensures cmd[0] == 0 && cmd[1] == 16 ==> Step(l, s, ECommand(cmd)).acks == s.acks
    ensures cmd[0] != 0 || cmd[1] !in {10, 11, 16, 20} ==> Step(l, s, ECommand(cmd)) == s
    ensures cmd[0] == 0 && cmd[1] in {10, 20} && (s.localScript || 4 < |cmd| <= 52) ==>
              Step(l, s, ECommand(cmd)) == s
  {
  }

  /** A stored core of more than four bytes waits for its timer or, with updates off, runs from the
      start, without its first four bytes. */
  lemma StartsWithStored(st: Store, noUpdate: bool)
    ensures var s := Start(st, noUpdate);
            && s.store == st && s.acks == []
            && var m := if st.plain.Some? then st.plain else st.packed;
            && Core(s) == m
            && if m.None? || |m.value| <= 4 then s.launched == [] && !s.timer && !s.coreTimeout && !s.localScript
               else if noUpdate then s.launched == [m.value[4..]] && !s.timer && !s.coreTimeout && s.localScript
               else s.launched == [] && s.timer && s.coreTimeout && !s.localScript
  {
  }

  // ----- the start timer -----

  lemma StepKeepsHandle(l: Library, s: State, e: Event, s': State)
    requires Inv(s) && Enabled(s, e) && s' == Step(l, s, e) && s'.timer
    ensures s.timer && (!s'.coreTimeout <==> !s.coreTimeout || FailsToInflate(l, s, e))
  {
  }

  /** While the start timer is pending, its handle is lost if and only if some compressed core
      failed to inflate. */
  lemma {:induction false} HandleLostIffFailedInflate(t: Trace, n: nat)
    requires Run(t) && n < |t.states| && t.states[n].timer
    ensures !t.states[n].coreTimeout <==> exists i :: 0 <= i < n && FailsToInflate(t.library, t.states[i], t.events[i])
  {
    if n > 0 {
      RunKeeps(t, n - 1);
      assert Follows(t, n - 1);
      StepKeepsHandle(t.library, t.states[n - 1], t.events[n - 1], t.states[n]);
      HandleLostIffFailedInflate(t, n - 1);
    }
  }

  /** So a confirmation launches the waiting core, once and instead of the timer, if and only if
      no compressed core failed to inflate before; otherwise it does nothing and the timer, which
      launches the core in any case, stays. */
  lemma ConfirmationLaunchesIffAllInflated(t: Trace, n: nat)
    requires Run(t) && n < |t.events| && t.states[n].timer && IsCoreOk(t.events[n])
    ensures Core(t.states[n]).Some?
    ensures t.states[n + 1].launched == [Code(Core(t.states[n]).value)] <==>
              !exists i :: 0 <= i < n && FailsToInflate(t.library, t.states[i], t.events[i])
    ensures t.states[n + 1].launched != [] <==> !t.states[n + 1].timer
  {
    RunKeeps(t, n);
    assert Follows(t, n);
    HandleLostIffFailedInflate(t, n);
  }

  /** The handle of a timer that went with its engine. */
  predicate DeadHandle(s: State) {
    s.coreTimeout && !s.timer
  }

  ghost predicate DeadSince(t: Trace, i: nat, n: nat)
    requires i < n <= |t.events| < |t.states|
  {
    && Removes(t.states[i], t.events[i]) && t.states[i].coreTimeout
    && forall j :: i < j < n ==> !BringsNewCore(t.library, t.states[j], t.events[j]) && !IsCoreOk(t.events[j])
  }

  lemma StepKillsHandle(l: Library, s: State, e: Event)
    requires Inv(s) && Enabled(s, e)
    ensures DeadHandle(Step(l, s, e)) <==>
              (Removes(s, e) && s.coreTimeout) || (DeadHandle(s) && !BringsNewCore(l, s, e) && !IsCoreOk(e))
  {
  }

  /** The agent holds a dead handle, which the next confirmation would use, if and only if the core
      was removed while it waited, and neither a new core nor a confirmation came since. */
  lemma {:induction false} DeadHandleIffRemovedWhileWaiting(t: Trace, n: nat)
    requires Run(t) && n < |t.states|
    ensures DeadHandle(t.states[n]) <==> exists i :: 0 <= i < n && DeadSince(t, i, n)
  {
    if n > 0 {
      RunKeeps(t, n - 1);
      assert Follows(t, n - 1);
      StepKillsHandle(t.library, t.states[n - 1], t.events[n - 1]);
      DeadHandleIffRemovedWhileWaiting(t, n - 1);
      var s, e := t.states[n - 1], t.events[n - 1];
      if DeadHandle(t.states[n]) {
        if Removes(s, e) && s.coreTimeout {
          assert DeadSince(t, n - 1, n);
        } else {
          var i :| 0 <= i < n - 1 && DeadSince(t, i, n - 1);
          assert DeadSince(t, i, n);
        }
      }
      if i :| 0 <= i < n && DeadSince(t, i, n) {
        if i < n - 1 {
          assert DeadSince(t, i, n - 1);
          assert !BringsNewCore(t.library, s, e) && !IsCoreOk(e);
        }
      }
    }
  }

  // ----- the handlers, updating the container in place -----

  class Agent {
    const library: Library
    var store: Store
    var engineRan: seq<seq<byte>>
    var engineTimer: bool
    var coreTimeout: bool
    var localScript: bool
    var acks: seq<Ack>

    function View(): State reads this {
      State(store, engineRan, engineTimer, coreTimeout, localScript, acks)
    }

    constructor (library: Library, stored: Store, noUpdate: bool)
      ensures View() == Start(stored, noUpdate) && this.library == library
    {
      this.library := library;
      store, engineRan, engineTimer, coreTimeout, localScript, acks := stored, [], false, false, false, [];
      new;
      var coreModule := Stored(store);
      if coreModule.Some? && |coreModule.value| > 4 {
        if noUpdate {
          localScript := true;
          engineRan := engineRan + [coreModule.value[4..]];
        } else {
          engineTimer := true;
          coreTimeout := true;
        }
      }
    }

    method ScriptEngineStop()
      modifies this`engineRan, this`engineTimer
      ensures View() == EngineStop(old(View()))
    {
      engineRan, engineTimer := [], false;
    }

    method LaunchStored()
      modifies this`engineRan
      ensures View() == Launch(old(View()))
    {
      var coreModule := Stored(store);
      if coreModule.Some? && |coreModule.value| > 4 {
        engineRan := engineRan + [coreModule.value[4..]];
      }
    }

    method OnCoreModule(cmd: seq<byte>)
      requires |cmd| >= 4
      modifies this
      ensures View() == Install(library, old(View()), cmd)
    {
      if localScript { return; }
      var request := Be16(cmd[2..]);
      if |cmd| > HEADER_SIZE {
        var wanted := cmd[4..HEADER_SIZE];
        var coreModule := Stored(store);
        if coreModule.None? || library.sha384(coreModule.value) != wanted {
          coreTimeout := false;
          var module' := cmd[HEADER_SIZE..];
          if Be16(cmd) == COMPRESSED_CORE_MODULE {
            var inflated := library.inflate(module');
            if inflated.None? { return; }
            module' := inflated.value;
          }
          store := PutPacked(store, module');
          if library.sha384(module') != wanted {
            store := Delete(store);
            ScriptEngineStop();
            acks := acks + [Bare(request)];
            return;
          }
          ScriptEngineStop();
          engineRan := engineRan + [Code(module')];
        }
        acks := acks + [WithHash(request, library.sha384(Stored(store).value))];
      } else if |cmd| == 4 {
        store := Delete(store);
        ScriptEngineStop();
        acks := acks + [Bare(request)];
      }
    }

    method OnCoreModuleHash(cmd: seq<byte>)
      requires |cmd| >= 4
      modifies this`acks
      ensures View() == HashQuery(library, old(View()), cmd)
    {
      var ack := if localScript then WithHash(Be16(cmd[2..]), Zeros(DIGEST_SIZE)) else Bare(Be16(cmd[2..]));
      if !localScript && Stored(store).Some? {
        ack := WithHash(Be16(cmd[2..]), library.sha384(Stored(store).value));
      }
      acks := acks + [ack];
    }

    method OnCoreOk()
      modifies this`engineRan, this`engineTimer, this`coreTimeout
      ensures View() == Confirm(old(View()))
    {
      if coreTimeout {
        engineTimer := false;
        coreTimeout := false;
        LaunchStored();
      }
    }

    method OnServerTimeout()
      requires engineTimer
      modifies this`engineRan, this`engineTimer, this`coreTimeout
      ensures View() == TimerFires(old(View()))
    {
      engineTimer := false;
      coreTimeout := false;
      LaunchStored();
    }
  }
}
