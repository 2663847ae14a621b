/** The streaming decompressor: input arrives in writes, output leaves in chunks of at most 16384
    bytes, and whenever the stream behind it pauses the unread input is set aside until it resumes. */
module Decompressor {
  import opened Bytes

  const CHUNK := 16384

  datatype Code = Z_OK | Z_STREAM_END | Z_BUF_ERROR | Z_DATA_ERROR

  datatype Answer = Answer(consumed: nat, produced: nat, code: Code)

  /** The inflate library: `inflated(b)` is everything that the bytes `b` determine of the output,
      `complete(b)` says they are a whole stream, and `call` is one call, given what was consumed
      and how much was produced before, the input now, and whether it is asked to finish. */
  datatype Zlib = Zlib(
    inflated: seq<byte> -> seq<byte>,
    complete: seq<byte> -> bool,
    call: (seq<byte>, nat, seq<byte>, bool) -> Answer)

  ghost predicate MonotoneAt(z: Zlib, a: seq<byte>, b: seq<byte>) {
    a <= b ==> z.inflated(a) <= z.inflated(b)
  }

  /** What the zlib manual promises of one call: it moves forward inside its input; when it leaves
      room, input and output are exhausted and the end of a whole stream is reported, and never
      otherwise; success means progress, and a call asked to finish either ends or reports an
      error. Bytes behind the end of a stream are idealised as consumed without output. */
  ghost predicate KeepsPromise(z: Zlib, fed: seq<byte>, emitted: nat, input: seq<byte>, finish: bool) {
    var a := z.call(fed, emitted, input, finish);
    && a.consumed <= |input| && a.produced <= CHUNK
    && emitted + a.produced <= |z.inflated(fed + input[..a.consumed])|
    && (a.code != Z_DATA_ERROR && a.produced < CHUNK ==>
          a.consumed == |input| && emitted + a.produced == |z.inflated(fed + input)|)
    && (a.code == Z_OK ==> !finish && (a.consumed > 0 || a.produced > 0))
    && (a.code == Z_STREAM_END ==>
          a.consumed == |input| && z.complete(fed + input) && emitted + a.produced == |z.inflated(fed + input)|)
    && (z.complete(fed + input) ==> a.code != Z_DATA_ERROR && (a.produced < CHUNK ==> a.code == Z_STREAM_END))
    && (a.code == Z_BUF_ERROR && !finish ==> a.consumed == 0 && a.produced == 0)
  }

  ghost predicate Honest(z: Zlib) {
    && z.inflated([]) == []
    && (forall a, b :: MonotoneAt(z, a, b))
    && (forall fed, emitted: nat, input, finish :: emitted <= |z.inflated(fed)| ==>
        KeepsPromise(z, fed, emitted, input, finish))
  }

  /** The promise can be kept: bytes stored as they are, any non-empty sequence being whole. */
  lemma HonestLibraryExists() returns (z: Zlib)
    ensures Honest(z) && z.complete([1]) && z.inflated([1]) == [1]
  {
    z := Zlib(b => b, b => b != [], (fed: seq<byte>, emitted: nat, input: seq<byte>, finish: bool) =>
      var all := |fed| + |input| - (if emitted <= |fed| then emitted else |fed|);
      var produced := if all < CHUNK then all else CHUNK;
      Answer(|input|, produced,
             if produced == all && fed + input != [] then Z_STREAM_END
             else if finish || (input == [] && produced == 0) then Z_BUF_ERROR else Z_OK));
    forall fed, emitted: nat, input, finish | emitted <= |z.inflated(fed)|
      ensures KeepsPromise(z, fed, emitted, input, finish)
    {
      assert input[..|input|] == input;
    }
  }

  lemma Promise(z: Zlib, fed: seq<byte>, emitted: nat, input: seq<byte>, finish: bool)
    requires Honest(z) && emitted <= |z.inflated(fed)|
    ensures KeepsPromise(z, fed, emitted, input, finish)
    ensures var k := z.call(fed, emitted, input, finish).consumed;
            && z.inflated(fed) <= z.inflated(fed + input[..k]) <= z.inflated(fed + input)
  {
    var k := z.call(fed, emitted, input, finish).consumed;
    assert KeepsPromise(z, fed, emitted, input, finish);
    assert MonotoneAt(z, fed, fed + input[..k]) && MonotoneAt(z, fed + input[..k], fed + input);
  }

  // ---------- the loop shared by the three handlers ----------

  /** How a loop ends: an error code, the stream behind pausing, all output out (`Dry`), or the end
      of the stream reported by a call that produced nothing (`Silent`), whose return code 1 the
      handlers then mistake for a pause. */
  datatype Ending = Failed | Paused | Dry | Silent

  datatype Pumped = Pumped(fed: seq<byte>, emitted: seq<byte>, rest: seq<byte>, ending: Ending)

  /** After one call: the bytes consumed so far, the output so far, the input left. */
  function AfterCall(z: Zlib, fed: seq<byte>, emitted: seq<byte>, input: seq<byte>, a: Answer)
      : (seq<byte>, seq<byte>, seq<byte>)
    requires a.consumed <= |input| && |emitted| + a.produced <= |z.inflated(fed + input[..a.consumed])|
  {
    var fed' := fed + input[..a.consumed];
    (fed', z.inflated(fed')[..|emitted| + a.produced], input[a.consumed..])
  }

  lemma CallFacts(z: Zlib, fed: seq<byte>, emitted: seq<byte>, input: seq<byte>, finish: bool)
    requires Honest(z) && emitted <= z.inflated(fed)
    ensures KeepsPromise(z, fed, |emitted|, input, finish)
    ensures var a := z.call(fed, |emitted|, input, finish);
            var (fed', emitted', rest) := AfterCall(z, fed, emitted, input, a);
            && fed' + rest == fed + input
            && emitted <= emitted' <= z.inflated(fed') && |emitted'| == |emitted| + a.produced
            && |emitted'| <= |z.inflated(fed + input)|
            && (a.code != Z_DATA_ERROR && a.produced < CHUNK ==> rest == [] && emitted' == z.inflated(fed'))
            && (a.code == Z_STREAM_END ==> z.complete(fed + input))
  {
    Promise(z, fed, |emitted|, input, finish);
    var a := z.call(fed, |emitted|, input, finish);
    var (fed', emitted', rest) := AfterCall(z, fed, emitted, input, a);
    assert fed' + rest == fed + input;
    assert emitted <= z.inflated(fed) <= z.inflated(fed');
    if a.consumed == |input| {
      assert fed' == fed + input;
    }
  }

  /** `pauses(n)`: what the stream behind answers to the write that brings the output to `n` bytes. */
  ghost function Pump(z: Zlib, fed: seq<byte>, emitted: seq<byte>, input: seq<byte>, finish: bool,
                      pauses: nat -> bool): Pumped
    requires Honest(z) && emitted <= z.inflated(fed)
    decreases |z.inflated(fed + input)| - |emitted|
  {
    CallFacts(z, fed, emitted, input, finish);
    var a := z.call(fed, |emitted|, input, finish);
    var (fed', emitted', rest) := AfterCall(z, fed, emitted, input, a);
    if a.code != Z_OK && a.code != Z_STREAM_END then Pumped(fed', emitted, rest, Failed)
    else if a.produced > 0 && pauses(|emitted'|) then Pumped(fed', emitted', rest, Paused)
    else if a.produced == CHUNK then Pump(z, fed', emitted', rest, finish, pauses)
    else Pumped(fed', emitted', rest, if a.produced == 0 && a.code == Z_STREAM_END then Silent else Dry)
  }

  lemma {:induction false} PumpFacts(z: Zlib, fed: seq<byte>, emitted: seq<byte>, input: seq<byte>, finish: bool,
                                     pauses: nat -> bool)
    requires Honest(z) && emitted <= z.inflated(fed)
    ensures var p := Pump(z, fed, emitted, input, finish, pauses);
            && p.fed + p.rest == fed + input
            && emitted <= p.emitted <= z.inflated(p.fed)
            && (p.ending.Dry? || p.ending.Silent? ==> p.rest == [] && p.emitted == z.inflated(p.fed))
            && (finish && (p.ending.Dry? || p.ending.Silent?) ==> z.complete(fed + input))
            && (p.ending.Paused? ==> exists n :: pauses(n))
    decreases |z.inflated(fed + input)| - |emitted|
  {
    CallFacts(z, fed, emitted, input, finish);
    var a := z.call(fed, |emitted|, input, finish);
    var (fed', emitted', rest) := AfterCall(z, fed, emitted, input, a);
    if a.code == Z_OK || a.code == Z_STREAM_END {
      if !(a.produced > 0 && pauses(|emitted'|)) && a.produced == CHUNK {
        PumpFacts(z, fed', emitted', rest, finish, pauses);
      }
    } else {
      assert emitted <= z.inflated(fed');
    }
  }

  // ---------- the stream's state ----------

  /** `accepted`: bytes the writer has handed over. `waiting`: the writer was told INCOMPLETE and
      has not been released. `mistaken`: some loop ended silently. */
  datatype State = State(
    accepted: seq<byte>, fed: seq<byte>, emitted: seq<byte>, saved: Option<seq<byte>>,
    waiting: bool, paused: bool, failed: bool, ended: bool, mistaken: bool)

  const INITIAL := State([], [], [], None, false, false, false, false, false)

  function Saved(s: State): seq<byte> {
    if s.saved.Some? then s.saved.value else []
  }

  /** What the resume buffer holds after a pause: a property that is deleted when nothing is left. */
  function SetAside(rest: seq<byte>): Option<seq<byte>> {
    if rest == [] then None else Some(rest)
  }

  ghost function Write(z: Zlib, s: State, input: seq<byte>, pauses: nat -> bool): State
    requires Honest(z) && s.emitted <= z.inflated(s.fed)
  {
    var p := Pump(z, s.fed, s.emitted, input, false, pauses);
    var s' := s.(accepted := s.accepted + input, fed := p.fed, emitted := p.emitted);
    match p.ending
    case Failed => s'.(failed := true)
    case Paused => s'.(saved := SetAside(p.rest), waiting := true, paused := true)
    case Dry => s'.(saved := None)
    case Silent => s'.(waiting := true, mistaken := true)
  }

  ghost function Resume(z: Zlib, s: State, pauses: nat -> bool): State
    requires Honest(z) && s.emitted <= z.inflated(s.fed)
  {
    if s.saved.None? then s.(waiting := false, paused := false) else
    var p := Pump(z, s.fed, s.emitted, s.saved.value, false, pauses);
    var s' := s.(fed := p.fed, emitted := p.emitted, paused := false);
    match p.ending
    case Failed => s'.(failed := true)
    case Paused => s'.(saved := SetAside(p.rest), paused := true)
    case Dry => s'.(saved := None, waiting := false)
    case Silent => s'.(mistaken := true)
  }

  /** At the end nobody asks the stream behind. */
  const NEVER: nat -> bool := n => false

  ghost function End(z: Zlib, s: State): State
    requires Honest(z) && s.emitted <= z.inflated(s.fed)
  {
    var p := Pump(z, s.fed, s.emitted, [], true, NEVER);
    s.(fed := p.fed, emitted := p.emitted, ended := true, failed := s.failed || p.ending.Failed?)
  }

  // ---------- runs ----------

  datatype Event = EWrite(input: seq<byte>, pauses: nat -> bool) | EResume(pauses: nat -> bool) | EEnd

  /** The writer waits after INCOMPLETE; the stream behind resumes what it paused. */
  predicate Enabled(s: State, e: Event) {
    && !s.failed && !s.ended
    && match e
       case EWrite(_, _) => !s.waiting
       case EResume(_) => s.paused
       case EEnd => !s.waiting
  }

  ghost function Step(z: Zlib, s: State, e: Event): State
    requires Honest(z) && s.emitted <= z.inflated(s.fed)
  {
    match e
    case EWrite(input, pauses) => Write(z, s, input, pauses)
    case EResume(pauses) => Resume(z, s, pauses)
    case EEnd => End(z, s)
  }

  datatype Trace = Trace(states: seq<State>, events: seq<Event>)

  ghost predicate Follows(z: Zlib, t: Trace, i: nat)
    requires Honest(z) && i < |t.events| && |t.states| == |t.events| + 1
  {
    var s := t.states[i];
    s.emitted <= z.inflated(s.fed) ==> Enabled(s, t.events[i]) && t.states[i + 1] == Step(z, s, t.events[i])
  }

  ghost predicate Run(z: Zlib, t: Trace) {
    && Honest(z) && |t.states| == |t.events| + 1 && t.states[0] == INITIAL
    && forall i :: 0 <= i < |t.events| ==> Follows(z, t, i)
  }

  /** A loop ended silently while input that had been set aside was being read: the resume buffer
      still holds bytes that went through. */
  predicate Stale(s: State) {
    s.mistaken && s.saved.Some?
  }

  ghost predicate Inv(z: Zlib, s: State) {
    && s.emitted <= z.inflated(s.fed)
    && (!s.failed && !Stale(s) ==> s.accepted == s.fed + Saved(s))
    && (!s.failed && Stale(s) ==> s.accepted == s.fed)
    && (!s.failed && !s.waiting ==> s.saved.None?)
    && (s.saved.Some? ==> s.saved.value != [])
    && (!s.failed ==> (s.mistaken <==> s.waiting && !s.paused))
    && (!s.failed && s.mistaken ==> s.emitted == z.inflated(s.accepted))
    && (!s.failed && s.paused ==> s.waiting)
    && (!s.failed && s.ended ==> !s.waiting && z.complete(s.accepted) && s.emitted == z.inflated(s.accepted))
  }

  lemma WriteKeeps(z: Zlib, s: State, input: seq<byte>, pauses: nat -> bool)
    requires Honest(z) && Inv(z, s) && Enabled(s, EWrite(input, pauses))
    ensures Inv(z, Write(z, s, input, pauses))
  {
    PumpFacts(z, s.fed, s.emitted, input, false, pauses);
    assert s.accepted == s.fed + Saved(s) == s.fed;
    var p := Pump(z, s.fed, s.emitted, input, false, pauses);
    assert p.rest == [] ==> p.fed + p.rest == p.fed;
  }

  lemma ResumeKeeps(z: Zlib, s: State, pauses: nat -> bool)
    requires Honest(z) && Inv(z, s) && Enabled(s, EResume(pauses))
    ensures Inv(z, Resume(z, s, pauses))
  {
    if s.saved.Some? {
      PumpFacts(z, s.fed, s.emitted, s.saved.value, false, pauses);
    }
  }

  lemma EndKeeps(z: Zlib, s: State)
    requires Honest(z) && Inv(z, s) && Enabled(s, EEnd)
    ensures Inv(z, End(z, s))
  {
    PumpFacts(z, s.fed, s.emitted, [], true, NEVER);
    assert s.accepted == s.fed + Saved(s) == s.fed;
    var p := Pump(z, s.fed, s.emitted, [], true, NEVER);
    assert s.fed + [] == s.fed && (p.rest == [] ==> p.fed + p.rest == p.fed);
  }

  lemma {:induction false} RunKeeps(z: Zlib, t: Trace, n: nat)
    requires Run(z, t) && n < |t.states|
    ensures Inv(z, t.states[n])
  {
    if n > 0 {
      RunKeeps(z, t, n - 1);
      assert Follows(z, t, n - 1);
      match t.events[n - 1]
      case EWrite(input, pauses) => WriteKeeps(z, t.states[n - 1], input, pauses);
      case EResume(pauses) => ResumeKeeps(z, t.states[n - 1], pauses);
      case EEnd => EndKeeps(z, t.states[n - 1]);
    }
  }

  /** For every pattern of writes, pauses and resumes: the output is at any time an in-order prefix
      of the inflation of what was fed, and after an end without error it is the inflation of all
      that was accepted, which is then a whole stream. */
  lemma OutputIsInflation(z: Zlib, t: Trace, n: nat)
    requires Run(z, t) && n < |t.states|
    ensures var s := t.states[n];
            && s.emitted <= z.inflated(s.fed)
            && (s.ended && !s.failed ==> z.complete(s.accepted) && s.emitted == z.inflated(s.accepted))
  {
    RunKeeps(z, t, n);
  }

  // ---------- loops that end in the library's end code, or in a spurious error ----------

  /** The stream behind pauses at one of the full chunks that bring the output from `from` bytes
      to at most `to`. */
  ghost predicate PausesInside(pauses: nat -> bool, from: nat, to: nat) {
    exists n: nat :: from < n <= to && (n - from) % 16384 == 0 && pauses(n)
  }

  lemma OneChunkLess(k: nat)
    ensures k % CHUNK == (k - CHUNK) % CHUNK
    ensures 0 < k && k % CHUNK == 0 ==> k >= CHUNK
  {
  }

  lemma PausesInsideStep(pauses: nat -> bool, from: nat, to: nat)
    requires from + CHUNK <= to
    ensures PausesInside(pauses, from, to) <==> pauses(from + CHUNK) || PausesInside(pauses, from + CHUNK, to)
  {
    if PausesInside(pauses, from, to) && !pauses(from + CHUNK) {
      var n: nat :| from < n <= to && (n - from) % CHUNK == 0 && pauses(n);
      OneChunkLess(n - from);
      assert n - (from + CHUNK) == n - from - CHUNK;
      assert from + CHUNK < n && (n - (from + CHUNK)) % CHUNK == 0;
    }
    if PausesInside(pauses, from + CHUNK, to) {
      var n: nat :| from + CHUNK < n <= to && (n - (from + CHUNK)) % CHUNK == 0 && pauses(n);
      OneChunkLess(n - from);
      assert n - (from + CHUNK) == n - from - CHUNK;
      assert (n - from) % CHUNK == 0;
    }
  }

  /** The input completes the stream, the output still inside is a multiple of the chunk size (or
      nothing), and the stream behind takes all of it without pausing. */
  ghost predicate CompletesInFullChunks(z: Zlib, fed: seq<byte>, emitted: seq<byte>, input: seq<byte>,
                                        pauses: nat -> bool) {
    && z.complete(fed + input)
    && (|z.inflated(fed + input)| - |emitted|) % 16384 == 0
    && !PausesInside(pauses, |emitted|, |z.inflated(fed + input)|)
  }

  /** For every pattern of pauses, a loop ends silently exactly on such an input. */
  lemma {:induction false} SilentExactlyOnFullChunks(z: Zlib, fed: seq<byte>, emitted: seq<byte>, input: seq<byte>,
                                                     pauses: nat -> bool)
    requires Honest(z) && emitted <= z.inflated(fed)
    ensures Pump(z, fed, emitted, input, false, pauses).ending.Silent? <==>
              CompletesInFullChunks(z, fed, emitted, input, pauses)
    decreases |z.inflated(fed + input)| - |emitted|
  {
    Promise(z, fed, |emitted|, input, false);
    CallFacts(z, fed, emitted, input, false);
    var a := z.call(fed, |emitted|, input, false);
    var (fed', emitted', rest) := AfterCall(z, fed, emitted, input, a);
    if a.produced == CHUNK {
      PausesInsideStep(pauses, |emitted|, |z.inflated(fed + input)|);
      OneChunkLess(|z.inflated(fed + input)| - |emitted|);
      if (a.code == Z_OK || a.code == Z_STREAM_END) && !pauses(|emitted'|) {
        SilentExactlyOnFullChunks(z, fed', emitted', rest, pauses);
      }
    }
  }

  /** The input not yet taken when the library, having filled its chunks, is called for less than
      a chunk of output. */
  ghost function Unread(z: Zlib, fed: seq<byte>, emitted: seq<byte>, input: seq<byte>): seq<byte>
    requires Honest(z) && emitted <= z.inflated(fed)
    decreases |z.inflated(fed + input)| - |emitted|
  {
    CallFacts(z, fed, emitted, input, false);
    var a := z.call(fed, |emitted|, input, false);
    var (fed', emitted', rest) := AfterCall(z, fed, emitted, input, a);
    if a.produced == CHUNK then Unread(z, fed', emitted', rest) else input
  }

  /** In the middle of the stream the output still inside fills its chunks exactly, is taken
      without a pause, and the last chunk has used up the input. */
  ghost predicate EndsOnAChunk(z: Zlib, fed: seq<byte>, emitted: seq<byte>, input: seq<byte>, pauses: nat -> bool)
    requires Honest(z) && emitted <= z.inflated(fed)
  {
    && !z.complete(fed + input)
    && (|z.inflated(fed + input)| - |emitted|) % 16384 == 0
    && !PausesInside(pauses, |emitted|, |z.inflated(fed + input)|)
    && Unread(z, fed, emitted, input) == []
  }

  /** The library never reports corrupt data. */
  ghost predicate Sound(z: Zlib) {
    forall fed, emitted, input :: z.call(fed, emitted, input, false).code != Z_DATA_ERROR
  }

  /** For every pattern of pauses, a loop over sound data fails exactly on such an input. */
  lemma {:induction false} SpuriousErrorExactlyOnAChunk(z: Zlib, fed: seq<byte>, emitted: seq<byte>,
                                                        input: seq<byte>, pauses: nat -> bool)
    requires Honest(z) && Sound(z) && emitted <= z.inflated(fed)
    ensures Pump(z, fed, emitted, input, false, pauses).ending.Failed? <==> EndsOnAChunk(z, fed, emitted, input, pauses)
    decreases |z.inflated(fed + input)| - |emitted|
  {
    CallFacts(z, fed, emitted, input, false);
    var a := z.call(fed, |emitted|, input, false);
    var (fed', emitted', rest) := AfterCall(z, fed, emitted, input, a);
    if a.produced == CHUNK {
      PausesInsideStep(pauses, |emitted|, |z.inflated(fed + input)|);
      OneChunkLess(|z.inflated(fed + input)| - |emitted|);
      if !pauses(|emitted'|) {
        SpuriousErrorExactlyOnAChunk(z, fed', emitted', rest, pauses);
      }
    }
  }

  /** A run begins with nothing accepted, fed, delivered or set aside, and the first write can come. */
  lemma FreshStream(z: Zlib, t: Trace, input: seq<byte>, pauses: nat -> bool)
    requires Run(z, t)
    ensures var s := t.states[0];
            && s.accepted == [] && s.fed == [] && s.emitted == [] && s.saved == None
            && !s.waiting && !s.paused && !s.failed && !s.ended && Enabled(s, EWrite(input, pauses))
  {
  }

  // ---------- pauses ----------

  /** A position strictly between the two that is full chunks behind the first. */
  predicate ChunkBetween(from: nat, to: nat, n: nat) {
    from < n < to && (n - from) % 16384 == 0
  }

  lemma NoChunkBetween(from: nat, to: nat)
    requires to <= from + CHUNK
    ensures forall n: nat :: !ChunkBetween(from, to, n)
  {
    forall n: nat ensures !ChunkBetween(from, to, n) {
      if from < n { OneChunkLess(n - from); }
    }
  }

  lemma ChunkLater(from: nat, to: nat, n: nat)
    requires ChunkBetween(from, to, n)
    ensures n == from + CHUNK || ChunkBetween(from + CHUNK, to, n)
  {
    OneChunkLess(n - from);
    assert n - (from + CHUNK) == n - from - CHUNK;
  }

  /** The last output was answered by a pause. */
  predicate PausedAtLast(pauses: nat -> bool, before: seq<byte>, after: seq<byte>) {
    |after| > |before| && pauses(|after|)
  }

  /** A loop that does not fail stops for a pause exactly when the stream behind answers the last output
      of it with one, whether that fills a chunk or not; and it goes on past no earlier pause. */
  lemma {:induction false} StopsAtThePause(z: Zlib, fed: seq<byte>, emitted: seq<byte>, input: seq<byte>,
                                           pauses: nat -> bool)
    requires Honest(z) && emitted <= z.inflated(fed)
    ensures var p := Pump(z, fed, emitted, input, false, pauses);
            && |p.emitted| >= |emitted|
            && (!p.ending.Failed? ==> (p.ending.Paused? <==> PausedAtLast(pauses, emitted, p.emitted)))
            && forall n: nat :: ChunkBetween(|emitted|, |p.emitted|, n) ==> !pauses(n)
    decreases |z.inflated(fed + input)| - |emitted|
  {
    CallFacts(z, fed, emitted, input, false);
    var a := z.call(fed, |emitted|, input, false);
    var (fed', emitted', rest) := AfterCall(z, fed, emitted, input, a);
    if a.produced == CHUNK && (a.code == Z_OK || a.code == Z_STREAM_END) && !pauses(|emitted'|) {
      StopsAtThePause(z, fed', emitted', rest, pauses);
      var p := Pump(z, fed', emitted', rest, false, pauses);
      forall n: nat | ChunkBetween(|emitted|, |p.emitted|, n) ensures !pauses(n) {
        ChunkLater(|emitted|, |p.emitted|, n);
      }
    } else {
      NoChunkBetween(|emitted|, |emitted| + a.produced);
    }
  }

  /** After a write, or a resume with saved input, that did not fail, the stream is paused exactly when
      the stream behind has answered the last output with a pause. */
  lemma PausedExactly(z: Zlib, s: State, e: Event)
    requires Honest(z) && Inv(z, s) && Enabled(s, e) && LoopInput(s, e).Some?
    ensures var s' := Step(z, s, e);
            && (!s'.failed ==> (s'.paused <==> PausedAtLast(e.pauses, s.emitted, s'.emitted)))
            && (forall n: nat :: ChunkBetween(|s.emitted|, |s'.emitted|, n) ==> !e.pauses(n))
  {
    StopsAtThePause(z, s.fed, s.emitted, LoopInput(s, e).value.0, e.pauses);
  }

  /** A resume with nothing saved only lets the writer go on. */
  lemma NothingToResume(z: Zlib, s: State, e: Event)
    requires Honest(z) && Inv(z, s) && Enabled(s, e) && e.EResume? && s.saved.None?
    ensures Step(z, s, e) == s.(waiting := false, paused := false)
  {
  }

  /** The writer is told, or left, to wait exactly after such a pause, or when the stream is completed
      in full chunks past all pauses. */
  lemma WaitsExactly(z: Zlib, s: State, e: Event)
    requires Honest(z) && Inv(z, s) && Enabled(s, e) && LoopInput(s, e).Some? && !Step(z, s, e).failed
    ensures Step(z, s, e).waiting <==>
              PausedAtLast(e.pauses, s.emitted, Step(z, s, e).emitted) || StopsTheStream(z, s, e)
  {
    PausedExactly(z, s, e);
    MistakenNext(z, s, e);
  }

  // ---------- the same over runs ----------

  /** The input that the loop of an event reads, and how the stream behind answers. */
  function LoopInput(s: State, e: Event): Option<(seq<byte>, nat -> bool)> {
    match e
    case EWrite(input, pauses) => Some((input, pauses))
    case EResume(pauses) => if s.saved.Some? then Some((s.saved.value, pauses)) else None
    case EEnd => None
  }

  ghost predicate StopsTheStream(z: Zlib, s: State, e: Event) {
    var l := LoopInput(s, e);
    l.Some? && CompletesInFullChunks(z, s.fed, s.emitted, l.value.0, l.value.1)
  }

  ghost predicate FailsTheStream(z: Zlib, s: State, e: Event)
    requires Honest(z) && s.emitted <= z.inflated(s.fed)
  {
    var l := LoopInput(s, e);
    l.Some? && EndsOnAChunk(z, s.fed, s.emitted, l.value.0, l.value.1)
  }

  lemma MistakenNext(z: Zlib, s: State, e: Event)
    requires Honest(z) && Inv(z, s) && Enabled(s, e)
    ensures !s.mistaken && (Step(z, s, e).mistaken <==> StopsTheStream(z, s, e))
  {
    var l := LoopInput(s, e);
    if l.Some? {
      SilentExactlyOnFullChunks(z, s.fed, s.emitted, l.value.0, l.value.1);
    }
  }

  /** Event number `n` makes the stream come to a stop, or fail, or neither. */
  ghost predicate StoppedBy(z: Zlib, t: Trace, n: nat)
    requires n < |t.events| && n < |t.states|
  {
    StopsTheStream(z, t.states[n], t.events[n])
  }

  lemma MistakenAt(z: Zlib, t: Trace, n: nat)
    requires Run(z, t) && n < |t.states|
    ensures t.states[n].mistaken <==> n > 0 && StoppedBy(z, t, n - 1)
  {
    if n > 0 {
      RunKeeps(z, t, n - 1);
      assert Follows(z, t, n - 1);
      MistakenNext(z, t.states[n - 1], t.events[n - 1]);
    }
  }

  /** Nothing can happen any more exactly after an error, after the end, or after a write or resume
      that completed the stream in full chunks: the writer was told to wait, and the stream behind,
      which did not pause, has nothing to resume. */
  lemma StuckExactlyAfterFullChunks(z: Zlib, t: Trace, n: nat)
    requires Run(z, t) && n < |t.states|
    ensures var s := t.states[n];
            (forall e :: !Enabled(s, e)) <==> s.failed || s.ended || (n > 0 && StoppedBy(z, t, n - 1))
  {
    RunKeeps(z, t, n);
    MistakenAt(z, t, n);
    var s := t.states[n];
    if !s.failed && !s.ended {
      if !s.waiting {
        assert Enabled(s, EEnd);
      } else if s.paused {
        assert Enabled(s, EResume(n => false));
      }
    }
  }

  /** On sound data a write or a resume fails exactly when it ends on a chunk in mid-stream. */
  lemma FailsExactlyOnAChunk(z: Zlib, t: Trace, n: nat)
    requires Run(z, t) && Sound(z) && n < |t.events| && !t.events[n].EEnd?
    ensures t.states[n].emitted <= z.inflated(t.states[n].fed)
    ensures t.states[n + 1].failed <==> FailsTheStream(z, t.states[n], t.events[n])
  {
    RunKeeps(z, t, n);
    assert Follows(z, t, n);
    var s := t.states[n];
    var l := LoopInput(s, t.events[n]);
    if l.Some? {
      SpuriousErrorExactlyOnAChunk(z, s.fed, s.emitted, l.value.0, l.value.1);
    }
  }

  /** While no call fails, what was accepted is what was fed followed by what is set aside, except
      exactly after a resume that completed the stream in full chunks: nothing is lost then, but
      the bytes set aside have been fed and are still there. */
  lemma AcceptedIsFedAndSaved(z: Zlib, t: Trace, n: nat)
    requires Run(z, t) && n < |t.states| && !t.states[n].failed
    ensures var s := t.states[n];
            && (s.accepted == s.fed + Saved(s) <==> !(n > 0 && t.events[n - 1].EResume? && StoppedBy(z, t, n - 1)))
            && (s.accepted != s.fed + Saved(s) ==> s.accepted == s.fed && s.saved == t.states[n - 1].saved)
  {
    RunKeeps(z, t, n);
    MistakenAt(z, t, n);
    var s := t.states[n];
    if n > 0 {
      RunKeeps(z, t, n - 1);
      assert Follows(z, t, n - 1);
      MistakenNext(z, t.states[n - 1], t.events[n - 1]);
    }
    if Stale(s) {
      assert |s.fed + Saved(s)| > |s.fed|;
    }
  }

  /** The end delivers all that is still inside a whole stream when it is less than a chunk, and none
      of it when it is more: asked to finish, a call that cannot reach the end reports an error, and
      the output of that call is dropped. A rest of exactly one chunk is delivered if and only if the
      library reports the end together with its last byte. */
  lemma EndDeliversAtMostAChunk(z: Zlib, s: State)
    requires Honest(z) && Inv(z, s) && Enabled(s, EEnd)
    ensures var inside, s' := |z.inflated(s.fed)| - |s.emitted|, End(z, s);
            s'.ended &&
            if z.complete(s.fed) &&
               (inside < CHUNK || (inside == CHUNK && z.call(s.fed, |s.emitted|, [], true).code.Z_STREAM_END?))
            then !s'.failed && s'.emitted == z.inflated(s.fed)
            else s'.failed && s'.emitted == s.emitted
  {
    Promise(z, s.fed, |s.emitted|, [], true);
    assert s.fed + [] == s.fed;
    var a := z.call(s.fed, |s.emitted|, [], true);
    var (fed', emitted', rest) := AfterCall(z, s.fed, s.emitted, [], a);
    assert fed' == s.fed && rest == [];
    if a.produced == CHUNK && a.code.Z_STREAM_END? {
      Promise(z, s.fed, |emitted'|, [], true);
      assert Pump(z, s.fed, s.emitted, [], true, NEVER) == Pump(z, s.fed, emitted', [], true, NEVER);
    }
  }

  // ---------- the handlers ----------

  datatype DoneState = COMPLETE | INCOMPLETE | ERROR

  class Stream {
    const z: Zlib
    var fed: seq<byte>                    // what the library has consumed
    var emitted: seq<byte>                // what was written to the stream behind
    var resumeBuffer: Option<seq<byte>>
    ghost var accepted: seq<byte>
    ghost var waiting: bool
    ghost var paused: bool
    ghost var failed: bool
    ghost var ended: bool
    ghost var mistaken: bool

    ghost function View(): State
      reads this
    {
      State(accepted, fed, emitted, resumeBuffer, waiting, paused, failed, ended, mistaken)
    }

    constructor (z: Zlib)
      ensures View() == INITIAL && this.z == z
    {
      this.z := z;
      accepted, fed, emitted, resumeBuffer := [], [], [], None;
      waiting, paused, failed, ended, mistaken := false, false, false, false, false;
    }

    ghost function Code(ending: Ending): int {
      match ending case Failed => -1 case Paused => 1 case Dry => 0 case Silent => 1
    }

    /** The loop of a handler: repeats while the output chunk was filled. `ret` is the last return
        code seen, of inflate or of the write behind it; a pause sets the unread input aside. */
    method Loop(input: seq<byte>, finish: bool, pauses: nat -> bool) returns (ret: int, ghost p: Pumped)
      requires Honest(z) && emitted <= z.inflated(fed)
      modifies this`fed, this`emitted, this`resumeBuffer
      ensures p == Pump(z, old(fed), old(emitted), input, finish, pauses)
      ensures fed == p.fed && emitted == p.emitted && ret == Code(p.ending)
      ensures resumeBuffer == if p.ending.Paused? then SetAside(p.rest) else old(resumeBuffer)
    {
      var nextIn, more := input, true;
      ret := 0;
      p := Pump(z, fed, emitted, input, finish, pauses);
      assert MonotoneAt(z, fed, fed + nextIn);
      while more
        invariant more ==> emitted <= z.inflated(fed) && resumeBuffer == old(resumeBuffer)
        invariant more ==> |emitted| <= |z.inflated(fed + nextIn)|
        invariant more ==> p == Pump(z, fed, emitted, nextIn, finish, pauses)
        invariant !more ==> fed == p.fed && emitted == p.emitted && ret == Code(p.ending)
        invariant !more ==> resumeBuffer == if p.ending.Paused? then SetAside(p.rest) else old(resumeBuffer)
        decreases more, |z.inflated(fed + nextIn)| - |emitted|
      {
        nextIn, more, ret := Round(nextIn, finish, pauses);
      }
    }

    /** One round of the loop, and whether another follows. */
    method Round(input: seq<byte>, finish: bool, pauses: nat -> bool) returns (nextIn: seq<byte>, more: bool, ret: int)
      requires Honest(z) && emitted <= z.inflated(fed)
      modifies this`fed, this`emitted, this`resumeBuffer
      ensures var p := Pump(z, old(fed), old(emitted), input, finish, pauses);
              if more then
                && resumeBuffer == old(resumeBuffer) && emitted <= z.inflated(fed)
                && p == Pump(z, fed, emitted, nextIn, finish, pauses)
                && |z.inflated(fed + nextIn)| - |emitted|
                    == |z.inflated(old(fed) + input)| - |old(emitted)| - CHUNK >= 0
              else
                && fed == p.fed && emitted == p.emitted && ret == Code(p.ending)
                && resumeBuffer == if p.ending.Paused? then SetAside(p.rest) else old(resumeBuffer)
    {
      CallFacts(z, fed, emitted, input, finish);
      var a := z.call(fed, |emitted|, input, finish);
      fed, nextIn := fed + input[..a.consumed], input[a.consumed..];
      if a.code != Z_OK && a.code != Z_STREAM_END { return nextIn, false, -1; }
      ret := if a.code == Z_OK then 0 else 1;
      more := a.produced == CHUNK;
      if a.produced > 0 {
        emitted := z.inflated(fed)[..|emitted| + a.produced];
        ret := if pauses(|emitted|) then 1 else 0;
        if ret == 1 {
          resumeBuffer := SetAside(nextIn);
          more := false;
        }
      }
    }

    method OnWrite(input: seq<byte>, pauses: nat -> bool) returns (done: DoneState)
      requires Honest(z) && Inv(z, View()) && Enabled(View(), EWrite(input, pauses))
      modifies this
      ensures View() == Write(z, old(View()), input, pauses) && Inv(z, View())
      ensures done == if failed then ERROR else if waiting then INCOMPLETE else COMPLETE
    {
      WriteKeeps(z, View(), input, pauses);
      accepted := accepted + input;
      var ret, p := Loop(input, false, pauses);
      failed := p.ending.Failed?;
      if ret < 0 { return ERROR; }
      waiting, paused, mistaken := ret == 1, p.ending.Paused?, p.ending.Silent?;
      if ret == 0 { resumeBuffer := None; }
      done := if ret == 1 then INCOMPLETE else COMPLETE;
    }

    /** `ready`: the writer is released. */
    method OnResume(pauses: nat -> bool) returns (ready: bool)
      requires Honest(z) && Inv(z, View()) && Enabled(View(), EResume(pauses))
      modifies this
      ensures View() == Resume(z, old(View()), pauses) && Inv(z, View())
      ensures !failed ==> ready == !waiting
    {
      ResumeKeeps(z, View(), pauses);
      paused := false;
      if resumeBuffer.None? {
        waiting := false;
        return true;
      }
      var ret, p := Loop(resumeBuffer.value, false, pauses);
      if ret < 0 { failed := true; return false; }
      if ret == 0 { resumeBuffer, waiting := None, false; }
      paused, mistaken := p.ending.Paused?, mistaken || p.ending.Silent?;
      ready := ret == 0;
    }

    /** What the stream behind answers is ignored here. */
    method OnEnd()
      requires Honest(z) && Inv(z, View()) && Enabled(View(), EEnd)
      modifies this
      ensures View() == End(z, old(View())) && Inv(z, View())
    {
      EndKeeps(z, View());
      var ret, p := Loop([], true, NEVER);
      PumpFacts(z, old(fed), old(emitted), [], true, NEVER);
      failed, ended := failed || ret < 0, true;
    }
  }
}
