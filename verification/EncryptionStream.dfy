/** Counter-mode encryption in 4096-byte pieces: how the data is cut makes no difference. */
module EncryptionStream {

  const PIECE := 4096
  const BLOCK := 16
  const COUNTERS := 0x1_0000_0000_0000_0000_0000_0000_0000_0000

  /** The forward cipher under the stream's key on a counter block, and the initial counter. */
  datatype Key = Key(cipher: nat -> seq<bv8>, iv: nat) {
    ghost predicate Valid() {
      forall c :: |cipher(c)| == BLOCK
    }

    /** Byte `i` of the key stream (section 6.5 of NIST SP 800-38A, counter incremented by one). */
    ghost function Stream(i: nat): bv8
      requires Valid()
    {
      cipher((iv + i / BLOCK) % COUNTERS)[i % BLOCK]
    }
  }

  /** The data combined with the key stream from position `pos` on. */
  ghost function Ctr(k: Key, pos: nat, data: seq<bv8>): (r: seq<bv8>)
    requires k.Valid()
    ensures |r| == |data|
  {
    seq(|data|, i requires 0 <= i < |data| => data[i] ^ k.Stream(pos + i))
  }

  lemma CtrSplits(k: Key, pos: nat, a: seq<bv8>, b: seq<bv8>)
    requires k.Valid()
    ensures Ctr(k, pos, a + b) == Ctr(k, pos, a) + Ctr(k, pos + |a|, b)
  {
  }

  /** Byte j of block b of a pass from the start is combined with byte j of the cipher of the counter
      that is b more than the initial one, modulo its 128 bits. */
  lemma CtrIsCounterMode(k: Key, data: seq<bv8>, b: nat, j: nat)
    requires k.Valid() && j < 16 && 16 * b + j < |data|
    ensures Ctr(k, 0, data)[16 * b + j] ==
              data[16 * b + j] ^ k.cipher((k.iv + b) % 0x1_0000_0000_0000_0000_0000_0000_0000_0000)[j]
  {
    assert (16 * b + j) / 16 == b && (16 * b + j) % 16 == j;
  }

  lemma XorCancels(a: bv8, b: bv8)
    ensures (a ^ b) ^ b == a
  {
  }

  lemma CtrInverts(k: Key, pos: nat, data: seq<bv8>)
    requires k.Valid()
    ensures Ctr(k, pos, Ctr(k, pos, data)) == data
  {
    forall i | 0 <= i < |data| ensures Ctr(k, pos, Ctr(k, pos, data))[i] == data[i] {
      XorCancels(data[i], k.Stream(pos + i));
    }
  }

  function Concat(pieces: seq<seq<bv8>>): seq<bv8> {
    if pieces == [] then [] else Concat(pieces[..|pieces| - 1]) + pieces[|pieces| - 1]
  }

  lemma ConcatSnoc(pieces: seq<seq<bv8>>, p: seq<bv8>)
    ensures Concat(pieces + [p]) == Concat(pieces) + p
  {
    assert (pieces + [p])[..|pieces|] == pieces;
  }

  /** One more piece of the buffer behind the first `i` bytes. */
  lemma PieceAppended(k: Key, pos: nat, start: seq<bv8>, pieces: seq<seq<bv8>>, buffer: seq<bv8>, i: nat, j: nat,
                      out: seq<bv8>)
    requires k.Valid() && i <= j <= |buffer| && out == Ctr(k, pos + i, buffer[i..j])
    requires Concat(pieces) == start + Ctr(k, pos, buffer[..i])
    ensures Concat(pieces + [out]) == start + Ctr(k, pos, buffer[..j])
  {
    ConcatSnoc(pieces, out);
    CtrSplits(k, pos, buffer[..i], buffer[i..j]);
    assert buffer[..j] == buffer[..i] + buffer[i..j];
    assert start + Ctr(k, pos, buffer[..i]) + out == start + (Ctr(k, pos, buffer[..i]) + out);
  }

  lemma WriteAppended(k: Key, pos: nat, start: seq<bv8>, writes: seq<seq<bv8>>, n: nat)
    requires k.Valid() && n < |writes|
    ensures var before := Concat(writes[..n]);
            && |Concat(writes[..n + 1])| == |before| + |writes[n]|
            && start + Ctr(k, pos, before) + Ctr(k, pos + |before|, writes[n])
               == start + Ctr(k, pos, Concat(writes[..n + 1]))
  {
    assert writes[..n + 1] == writes[..n] + [writes[n]];
    ConcatSnoc(writes[..n], writes[n]);
    CtrSplits(k, pos, Concat(writes[..n]), writes[n]);
    assert forall a: seq<bv8>, b: seq<bv8> :: start + a + b == start + (a + b);
  }

  /** Every piece from number `from` on fits the buffer it is made in. */
  predicate PiecesFit(pieces: seq<seq<bv8>>, from: nat) {
    forall n :: from <= n < |pieces| ==> 0 < |pieces[n]| <= 4096
  }

  datatype DoneState = COMPLETE | INCOMPLETE

  /** One direction of the stream: a cipher context that remembers its position, and the pieces
      handed to the stream on the other side. */
  class Side {
    const key: Key
    var position: nat
    var pieces: seq<seq<bv8>>

    constructor (key: Key)
      ensures this.key == key && position == 0 && pieces == []
    {
      this.key := key;
      position, pieces := 0, [];
    }

    /** EVP_EncryptUpdate and EVP_DecryptUpdate: the key stream, byte by byte. */
    method Update(piece: seq<bv8>) returns (out: seq<bv8>)
      requires key.Valid()
      modifies this`position
      ensures out == Ctr(key, old(position), piece) && position == old(position) + |piece|
    {
      out := [];
      var i := 0;
      while i < |piece|
        invariant 0 <= i <= |piece| && |out| == i && position == old(position) + i
        invariant forall j :: 0 <= j < i ==> out[j] == piece[j] ^ key.Stream(old(position) + j)
      {
        var block := key.cipher((key.iv + position / BLOCK) % COUNTERS);
        out := out + [piece[i] ^ block[position % BLOCK]];
        position := position + 1;
        i := i + 1;
      }
    }

    /** A write sink: `downstream(n)` is what the stream on the other side returns for piece
        number `n`; the last answer decides. */
    method WriteSink(buffer: seq<bv8>, downstream: nat -> int) returns (done: DoneState)
      requires key.Valid()
      modifies this`position, this`pieces
      ensures position == old(position) + |buffer|
      ensures Concat(pieces) == old(Concat(pieces)) + Ctr(key, old(position), buffer)
      ensures old(pieces) <= pieces && PiecesFit(pieces, |old(pieces)|)
      ensures done == if |buffer| == 0 || downstream(|pieces| - 1) == 0 then COMPLETE else INCOMPLETE
    {
      var i, result := 0, 0;
      ghost var sent := 0;   // bytes of the buffer that went through
      while i < |buffer|
        invariant 0 <= i && (i > 0 ==> |buffer| > 0) && sent == (if i < |buffer| then i else |buffer|)
        invariant position == old(position) + sent
        invariant Concat(pieces) == old(Concat(pieces)) + Ctr(key, old(position), buffer[..sent])
        invariant old(pieces) <= pieces && (i > 0 <==> |pieces| > |old(pieces)|)
        invariant PiecesFit(pieces, |old(pieces)|)
        invariant result == if i == 0 then 0 else downstream(|pieces| - 1)
      {
        var take := if |buffer| - i > PIECE then PIECE else |buffer| - i;
        var out := Update(buffer[i..i + take]);
        PieceAppended(key, old(position), old(Concat(pieces)), pieces, buffer, i, i + take, out);
        result := downstream(|pieces|);
        ghost var before := pieces;
        pieces := pieces + [out];
        assert before <= pieces && pieces[..|before|] == before;
        sent := i + take;
        i := i + PIECE;
      }
      assert sent == |buffer| && buffer[..sent] == buffer;
      done := if result == 0 then COMPLETE else INCOMPLETE;
    }

    /** Any sequence of writes is one pass of counter mode over their concatenation. */
    method WriteAll(writes: seq<seq<bv8>>, downstream: nat -> int)
      requires key.Valid()
      modifies this
      ensures position == old(position) + |Concat(writes)|
      ensures Concat(pieces) == old(Concat(pieces)) + Ctr(key, old(position), Concat(writes))
    {
      var n := 0;
      while n < |writes|
        invariant 0 <= n <= |writes| && position == old(position) + |Concat(writes[..n])|
        invariant Concat(pieces) == old(Concat(pieces)) + Ctr(key, old(position), Concat(writes[..n]))
      {
        var _ := WriteSink(writes[n], downstream);
        WriteAppended(key, old(position), old(Concat(pieces)), writes, n);
        n := n + 1;
      }
      assert writes[..n] == writes;
    }
  }

  /** Both ends of a link with the same key: for any split of the plaintext into writes and any
      split `received` of its ciphertext, what the sender emits is what the receiver is given, and
      the receiver gives back the plaintext. */
  method Transfer(key: Key, writes: seq<seq<bv8>>, received: seq<seq<bv8>>, downstream: nat -> int)
    returns (cipherText: seq<bv8>, clear: seq<bv8>)
    requires key.Valid() && Concat(received) == Ctr(key, 0, Concat(writes))
    ensures cipherText == Concat(received) && clear == Concat(writes)
  {
    var sender := new Side(key);
    var receiver := new Side(key);
    sender.WriteAll(writes, downstream);
    receiver.WriteAll(received, downstream);
    CtrInverts(key, 0, Concat(writes));
    cipherText, clear := Concat(sender.pieces), Concat(receiver.pieces);
  }
}
