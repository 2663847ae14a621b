/** The self-update transfer: the server sends a start marker, blocks, and an end marker with the
    hash of the whole; the agent appends the blocks to a file, acknowledges each, and continues
    with the update only if the hash of what it stored is the announced one. */
module SelfUpdate {
  import opened Bytes
  import FileHash

  /** What one call of the append helper does: the open fails, the write fails after the file was
      opened (and so created), or everything is written. */
  datatype Outcome = CannotOpen | WriteFails | Written

  const TRIES := 4
  const BUFFER := 4096

  datatype Config = Config(windows: bool, disabled: bool, sha: seq<byte> -> seq<byte>)

  /** `file` is None when there is no update file. The logs are what the agent sent and did. */
  datatype State = State(file: Option<seq<byte>>, acks: seq<nat>, continued: seq<(seq<byte>, seq<byte>)>)

  datatype Event =
    | Boot
    | Start
    | Block(payload: seq<byte>, requestId: nat, outcome: nat -> Outcome)
    | End(hash: seq<byte>)

  function Contents(file: Option<seq<byte>>): seq<byte> {
    if file.Some? then file.value else []
  }

  /** The file after one append, and the count the helper returns: one element of `|payload|`
      bytes, or none. */
  function Append(file: Option<seq<byte>>, payload: seq<byte>, o: Outcome): (Option<seq<byte>>, nat) {
    match o
    case CannotOpen => (file, 0)
    case WriteFails => (Some(Contents(file)), 0)
    case Written => (Some(Contents(file) + payload), if payload == [] then 0 else 1)
  }

  /** The append calls from try `k` on: the file they leave, and whether one returned non-zero. */
  function AppendFrom(file: Option<seq<byte>>, payload: seq<byte>, outcome: nat -> Outcome, k: nat)
      : (Option<seq<byte>>, bool)
    requires k <= TRIES
    decreases TRIES - k
  {
    if k == TRIES then (file, false) else
    var (file', count) := Append(file, payload, outcome(k));
    if count > 0 then (file', true) else AppendFrom(file', payload, outcome, k + 1)
  }

  /** None when the file cannot be opened or is a malformed executable. */
  function StoredHash(cfg: Config, file: Option<seq<byte>>): Option<seq<byte>> {
    if file.None? then None
    else
      var input := FileHash.HashInput(file.value, cfg.windows);
      if input.None? then None else Some(cfg.sha(input.value))
  }

  function Step(cfg: Config, s: State, e: Event): State {
    match e
    case Boot => s.(file := None)
    case Start => if cfg.disabled then s else s.(file := None)
    case Block(payload, requestId, outcome) =>
      if cfg.disabled then s else
      var (file', ok) := AppendFrom(s.file, payload, outcome, 0);
      s.(file := file', acks := if ok then s.acks + [requestId] else s.acks)
    case End(hash) =>
      if cfg.disabled then s
      else if StoredHash(cfg, s.file) == Some(hash) then s.(continued := s.continued + [(Contents(s.file), hash)])
      else s.(file := None)
  }

  /** What the caller can tell of a block before it is sent: it is accepted exactly when it is not
      empty and one of the four tries writes it. */
  predicate Accepted(payload: seq<byte>, outcome: nat -> Outcome) {
    payload != [] && exists k :: 0 <= k < 4 && outcome(k).Written?
  }

  lemma {:induction false} AppendedOnce(file: Option<seq<byte>>, payload: seq<byte>, outcome: nat -> Outcome, k: nat)
    requires k <= TRIES
    ensures var (file', ok) := AppendFrom(file, payload, outcome, k);
            && (ok <==> payload != [] && exists j :: k <= j < 4 && outcome(j).Written?)
            && Contents(file') == Contents(file) + (if ok then payload else [])
    decreases TRIES - k
  {
    if k < TRIES {
      var (file', count) := Append(file, payload, outcome(k));
      if count == 0 {
        AppendedOnce(file', payload, outcome, k + 1);
        assert Contents(file') == Contents(file);
      }
    }
  }

  // ---------- runs ----------

  datatype Trace = Trace(states: seq<State>, events: seq<Event>)

  ghost predicate Follows(cfg: Config, t: Trace, i: nat)
    requires i < |t.events| && |t.states| == |t.events| + 1
  {
    t.states[i + 1] == Step(cfg, t.states[i], t.events[i])
  }

  ghost predicate Run(cfg: Config, t: Trace) {
    && |t.states| == |t.events| + 1
    && t.states[0] == State(None, [], [])
    && forall i :: 0 <= i < |t.events| ==> Follows(cfg, t, i)
  }

  /** Event `i` throws the update file away: a restart of the agent, a start marker, or an end
      marker whose hash is not that of the file. */
  predicate Discards(cfg: Config, t: Trace, i: nat)
    requires i < |t.events| && |t.states| == |t.events| + 1
  {
    match t.events[i]
    case Boot => true
    case Start => !cfg.disabled
    case Block(_, _, _) => false
    case End(hash) => !cfg.disabled && StoredHash(cfg, t.states[i].file) != Some(hash)
  }

  /** The payloads accepted among the first `n` events since the last discard, in order. */
  function AcceptedBlocks(cfg: Config, t: Trace, n: nat): seq<seq<byte>>
    requires n <= |t.events| && |t.states| == |t.events| + 1
  {
    if n == 0 || Discards(cfg, t, n - 1) then [] else
    var before := AcceptedBlocks(cfg, t, n - 1);
    match t.events[n - 1]
    case Block(payload, _, outcome) =>
      if !cfg.disabled && Accepted(payload, outcome) then before + [payload] else before
    case _ => before
  }

  /** The request ids of the accepted blocks among the first `n` events. */
  function AcceptedIds(cfg: Config, t: Trace, n: nat): seq<nat>
    requires n <= |t.events|
  {
    if n == 0 then [] else
    var before := AcceptedIds(cfg, t, n - 1);
    match t.events[n - 1]
    case Block(payload, id, outcome) => if !cfg.disabled && Accepted(payload, outcome) then before + [id] else before
    case _ => before
  }

  function Concat(blocks: seq<seq<byte>>): seq<byte> {
    if blocks == [] then [] else Concat(blocks[..|blocks| - 1]) + blocks[|blocks| - 1]
  }

  /** In every run the update file is the accepted blocks since the last discard, each exactly
      once and in order, and the acknowledgements are exactly those of the accepted blocks. */
  lemma {:induction false} FileIsAcceptedBlocks(cfg: Config, t: Trace, n: nat)
    requires Run(cfg, t) && n < |t.states|
    ensures Contents(t.states[n].file) == Concat(AcceptedBlocks(cfg, t, n))
    ensures t.states[n].acks == AcceptedIds(cfg, t, n)
  {
    if n > 0 {
      FileIsAcceptedBlocks(cfg, t, n - 1);
      assert Follows(cfg, t, n - 1);
      if t.events[n - 1].Block? {
        AppendedOnce(t.states[n - 1].file, t.events[n - 1].payload, t.events[n - 1].outcome, 0);
      }
    }
  }

  /** The update continues at event `i` exactly for an end marker whose hash is the digest of the
      masked bytes of the accepted blocks; otherwise nothing is started. */
  lemma ContinuesOnlyWhenVerified(cfg: Config, t: Trace, i: nat)
    requires Run(cfg, t) && i < |t.events|
    ensures var s, s' := t.states[i], t.states[i + 1];
            var whole := Concat(AcceptedBlocks(cfg, t, i));
            if t.events[i].End? && !cfg.disabled && s.file.Some?
               && FileHash.HashInput(whole, cfg.windows).Some?
               && cfg.sha(FileHash.HashInput(whole, cfg.windows).value) == t.events[i].hash
            then s'.continued == s.continued + [(whole, t.events[i].hash)] && s'.file == s.file
            else s'.continued == s.continued
  {
    FileIsAcceptedBlocks(cfg, t, i);
    assert Follows(cfg, t, i);
  }

  /** Everything ever continued with had the announced digest. */
  lemma {:induction false} AllContinuedVerified(cfg: Config, t: Trace, n: nat, k: nat)
    requires Run(cfg, t) && n < |t.states| && k < |t.states[n].continued|
    ensures var (whole, hash) := t.states[n].continued[k];
            && FileHash.HashInput(whole, cfg.windows).Some?
            && cfg.sha(FileHash.HashInput(whole, cfg.windows).value) == hash
            && exists i :: 0 <= i < n && t.events[i] == End(hash) && whole == Concat(AcceptedBlocks(cfg, t, i))
  {
    ContinuesOnlyWhenVerified(cfg, t, n - 1);
    FileIsAcceptedBlocks(cfg, t, n - 1);
    assert Follows(cfg, t, n - 1);
    if k < |t.states[n - 1].continued| {
      AllContinuedVerified(cfg, t, n - 1, k);
    } else {
      assert t.events[n - 1] == End(t.states[n].continued[k].1);
    }
  }

  /** A block without payload is never acknowledged, however often it is written. */
  lemma EmptyBlockIsNeverAcknowledged(cfg: Config, t: Trace, i: nat)
    requires Run(cfg, t) && i < |t.events| && t.events[i].Block? && t.events[i].payload == []
    ensures t.states[i + 1].acks == t.states[i].acks
    ensures Contents(t.states[i + 1].file) == Contents(t.states[i].file)
  {
    assert Follows(cfg, t, i);
    AppendedOnce(t.states[i].file, [], t.events[i].outcome, 0);
  }

  // ---------- the agent ----------

  class Agent {
    const cfg: Config
    var file: Option<seq<byte>>
    var acks: seq<nat>
    var continued: seq<(seq<byte>, seq<byte>)>

    ghost function View(): State
      reads this
    {
      State(file, acks, continued)
    }

    constructor (cfg: Config)
      ensures View() == State(None, [], []) && this.cfg == cfg
    {
      this.cfg := cfg;
      file, acks, continued := None, [], [];
    }

    method AgentUpdate(hash: Option<seq<byte>>)
      requires file.Some? ==> FileHash.Hashable(file.value, cfg.windows, BUFFER)
      modifies this
      ensures View() == Step(cfg, old(View()), if hash.None? then Start else End(hash.value))
    {
      if cfg.disabled { return; }
      if hash.None? {
        file := None;
      } else {
        var fed := None;
        if file.Some? { fed := FileHash.GenerateFileHash(file.value, cfg.windows, BUFFER); }
        if fed.Some? && cfg.sha(fed.value) == hash.value {
          continued := continued + [(Contents(file), hash.value)];
        } else {
          file := None;
        }
      }
    }

    method AgentUpdateBlock(payload: seq<byte>, requestId: nat, outcome: nat -> Outcome)
      modifies this
      ensures View() == Step(cfg, old(View()), Block(payload, requestId, outcome))
    {
      if cfg.disabled { return; }
      var retryCount := 0;
      var written := false;
      while !written && retryCount < TRIES
        invariant 0 <= retryCount <= TRIES && acks == old(acks) && continued == old(continued)
        invariant written ==> retryCount < TRIES
        invariant AppendFrom(old(file), payload, outcome, 0) ==
                    if written then (file, true) else AppendFrom(file, payload, outcome, retryCount)
        decreases !written, TRIES - retryCount
      {
        var (file', count) := Append(file, payload, outcome(retryCount));
        file := file';
        if count == 0 { retryCount := retryCount + 1; } else { written := true; }
      }
      if retryCount < TRIES { acks := acks + [requestId]; }
    }
  }
}
