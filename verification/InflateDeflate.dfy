/** Whole-buffer compression and decompression: called once without an output buffer to learn the
    length and once with one to fill it. */
module InflateDeflate {
  import opened Bytes

  const CHUNK := 16384

  /** A compressor or decompressor: `whole(b)` is all its output for input `b`, and `take` is how
      many bytes one call delivers when `emitted` have been delivered, before and after the
      request to finish. */
  datatype Coder = Coder(whole: seq<byte> -> seq<byte>, take: (seq<byte>, nat, bool) -> nat)

  /** A call delivers at most a chunk, never more than there is; asked to finish, it leaves room
      only when everything is out. */
  ghost predicate CallHonest(z: Coder, input: seq<byte>, emitted: nat, finish: bool) {
    emitted <= |z.whole(input)| ==>
      var n := z.take(input, emitted, finish);
      && n <= 16384 && emitted + n <= |z.whole(input)|
      && (finish && n < 16384 ==> emitted + n == |z.whole(input)|)
  }

  ghost predicate Honest(z: Coder) {
    forall input, emitted: nat, finish :: CallHonest(z, input, emitted, finish)
  }

  ghost predicate CrcJoins(crc: (nat, seq<byte>) -> nat, a: seq<byte>, b: seq<byte>) {
    crc(crc(0, a), b) == crc(0, a + b)
  }

  /** A running checksum over pieces is the checksum of their concatenation. */
  ghost predicate RunningCrc(crc: (nat, seq<byte>) -> nat) {
    crc(0, []) == 0 && forall a, b :: CrcJoins(crc, a, b)
  }

  /** How much of `whole` the first loop delivers before a call leaves room. */
  ghost function FirstPhase(z: Coder, input: seq<byte>, emitted: nat): (r: nat)
    requires Honest(z) && emitted <= |z.whole(input)|
    ensures emitted <= r <= |z.whole(input)|
    decreases |z.whole(input)| - emitted
  {
    assert CallHonest(z, input, emitted, false);
    var n := z.take(input, emitted, false);
    if n == CHUNK then FirstPhase(z, input, emitted + n) else emitted + n
  }

  lemma SumOfNext(crc: (nat, seq<byte>) -> nat, all: seq<byte>, pos: nat, n: nat)
    requires RunningCrc(crc) && pos + n <= |all|
    ensures crc(crc(0, all[..pos]), all[pos..pos + n]) == crc(0, all[..pos + n])
    ensures crc(0, all[..0]) == 0
  {
    assert CrcJoins(crc, all[..pos], all[pos..pos + n]);
    assert all[..pos] + all[pos..pos + n] == all[..pos + n];
    assert all[..0] == [];
  }

  /** The buffer holds the first `pos` bytes of the output, and what it held before behind them. */
  ghost predicate Filled(now: seq<byte>, before: seq<byte>, all: seq<byte>, pos: nat) {
    && pos <= |now| == |before| && pos <= |all|
    && now[..pos] == all[..pos] && now[pos..] == before[pos..]
  }

  /** Puts the next bytes of the output into the buffer. */
  method Deliver(out: array<byte>, pos: nat, n: nat, ghost all: seq<byte>, tmp: seq<byte>, ghost before: seq<byte>)
    requires pos + n <= out.Length && pos + n <= |all| && tmp == all[pos..pos + n] && Filled(out[..], before, all, pos)
    modifies out
    ensures Filled(out[..], before, all, pos + n)
  {
    forall i | 0 <= i < n {
      out[pos + i] := tmp[i];
    }
    forall i | 0 <= i < pos + n ensures out[..][i] == all[i] {
      if i < pos {
        assert old(out[..])[..pos][i] == all[..pos][i];
      } else {
        assert out[pos + (i - pos)] == tmp[i - pos];
      }
    }
    assert old(out[..])[pos..][n..] == before[pos..][n..];
  }

  /** One loop: delivers chunks into `out` from `pos` on, or only counts when there is no buffer.
      It stops with 1 at a chunk that does not fit. */
  method Phase(z: Coder, crc: (nat, seq<byte>) -> nat, input: seq<byte>, out: array?<byte>, finish: bool,
               start: nat, sum: nat, ghost before: seq<byte>)
    returns (pos: nat, sum': nat, ret: int)
    requires Honest(z) && RunningCrc(crc) && start <= |z.whole(input)| && sum == crc(0, z.whole(input)[..start])
    requires out != null ==> Filled(out[..], before, z.whole(input), start)
    modifies out
    ensures start <= pos <= |z.whole(input)| && (ret == 0 || ret == 1)
    ensures out != null ==> Filled(out[..], before, z.whole(input), pos)
    ensures ret == 0 ==> sum' == crc(0, z.whole(input)[..pos])
    ensures ret == 0 ==> pos == if finish then |z.whole(input)| else FirstPhase(z, input, start)
    ensures ret == 1 ==> out != null && out.Length < |z.whole(input)|
  {
    var all := z.whole(input);
    pos, sum', ret := start, sum, 0;
    var more := true;
    while more
      invariant start <= pos <= |all| && (ret == 0 || ret == 1)
      invariant out != null ==> Filled(out[..], before, all, pos)
      invariant ret == 0 ==> sum' == crc(0, all[..pos])
      invariant more ==> ret == 0 && (!finish ==> FirstPhase(z, input, start) == FirstPhase(z, input, pos))
      invariant !more && ret == 0 ==> pos == if finish then |all| else FirstPhase(z, input, start)
      invariant ret == 1 ==> out != null && out.Length < |all|
      decreases more, |all| - pos
    {
      assert CallHonest(z, input, pos, finish);
      var avail := z.take(input, pos, finish);
      more := avail == CHUNK;
      if avail > 0 {
        var tmp := all[pos..pos + avail];
        SumOfNext(crc, all, pos, avail);
        sum' := crc(sum', tmp);
        if out != null && out.Length - pos < avail {
          ret, more := 1, false;
        } else {
          if out != null { Deliver(out, pos, avail, all, tmp, before); }
          pos := pos + avail;
        }
      }
    }
  }

  /** ILibDeflate. Without a buffer: the length and checksum of the compressed data. With one: the
      data in full exactly when it fits, else its beginning; nothing is written behind it. */
  method Deflate(z: Coder, crc: (nat, seq<byte>) -> nat, input: seq<byte>, compressed: array?<byte>)
    returns (ret: int, compressedLen: nat, sum: nat)
    requires Honest(z) && RunningCrc(crc)
    modifies compressed
    ensures ret == if compressed == null || |z.whole(input)| <= compressed.Length then 0 else 1
    ensures ret == 0 ==> compressedLen == |z.whole(input)| && sum == crc(0, z.whole(input))
    ensures compressed != null ==>
              Filled(compressed[..], old(compressed[..]), z.whole(input), compressedLen)
  {
    ghost var before := if compressed == null then [] else compressed[..];
    SumOfNext(crc, z.whole(input), 0, 0);
    compressedLen, sum, ret := Phase(z, crc, input, compressed, false, 0, 0, before);
    if ret == 0 {
      compressedLen, sum, ret := Phase(z, crc, input, compressed, true, compressedLen, sum, before);
    }
    assert z.whole(input)[..|z.whole(input)|] == z.whole(input);
  }

  /** ILibInflate. `initial` is what the length held before the call: with a buffer it is its
      capacity, without one the length found is added to it. A checksum that is not zero must be
      that of the output; a wrong one overrides the overflow code. */
  method Inflate(z: Coder, crc: (nat, seq<byte>) -> nat, input: seq<byte>, decompressed: array?<byte>, initial: nat,
                 expected: nat)
    returns (ret: int, decompressedLen: nat)
    requires Honest(z) && RunningCrc(crc)
    modifies decompressed
    ensures decompressed == null ==> decompressedLen == initial + |z.whole(input)|
    ensures decompressed != null ==>
              Filled(decompressed[..], old(decompressed[..]), z.whole(input), decompressedLen)
    ensures decompressed == null || |z.whole(input)| <= decompressed.Length ==>
              && (decompressed != null ==> decompressedLen == |z.whole(input)|)
              && ret == if expected == 0 || expected == crc(0, z.whole(input)) then 0 else 2
    ensures decompressed != null && |z.whole(input)| > decompressed.Length ==> ret == 1 || (ret == 2 && expected != 0)
  {
    ghost var before := if decompressed == null then [] else decompressed[..];
    SumOfNext(crc, z.whole(input), 0, 0);
    var sum: nat;
    decompressedLen, sum, ret := Phase(z, crc, input, decompressed, false, 0, 0, before);
    if ret == 0 {
      decompressedLen, sum, ret := Phase(z, crc, input, decompressed, true, decompressedLen, sum, before);
    }
    assert z.whole(input)[..|z.whole(input)|] == z.whole(input);
    if expected != 0 && expected != sum { ret := 2; }
    if decompressed == null { decompressedLen := initial + decompressedLen; }
  }

  /** Deflating and inflating again, each with a sizing call and a filling call, as the data store
      does: every call succeeds and the input comes back, for every length and every way the
      library cuts its output into chunks. */
  method RoundTrip(d: Coder, i: Coder, crc: (nat, seq<byte>) -> nat, input: seq<byte>)
      returns (ok: bool, output: seq<byte>)
    requires Honest(d) && Honest(i) && RunningCrc(crc)
    requires i.whole(d.whole(input)) == input
    ensures ok && output == input
  {
    var ret, len, sum := Deflate(d, crc, input, null);
    ok := ret == 0;
    var compressed := new byte[len];
    ret, len, sum := Deflate(d, crc, input, compressed);
    ok := ok && ret == 0;
    var packed := compressed[..len];
    assert packed == d.whole(input);
    ret, len := Inflate(i, crc, packed, null, 0, 0);
    ok := ok && ret == 0;
    var buffer := new byte[len];
    ret, len := Inflate(i, crc, packed, buffer, len, 0);
    ok := ok && ret == 0;
    output := buffer[..len];
    assert i.whole(packed)[..len] == i.whole(packed);
  }
}
