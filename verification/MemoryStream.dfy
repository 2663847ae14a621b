/** A growable byte accumulator: the content is what was written, and growth is amortised. */
module MemoryStream {
  import opened Bytes

  datatype Op =
    | WriteBytes(data: seq<byte>)
    | WriteUInt8(value: int)
    | WriteUInt16BE(value: int)
    | WriteUInt32BE(value: int)

  /** The bytes an operation writes: a number is cut to its width and put in network byte order. */
  function Encode(op: Op): seq<byte> {
    match op
    case WriteBytes(data) => data
    case WriteUInt8(value) => [value % 0x100]
    case WriteUInt16BE(value) => [value / 0x100 % 0x100, value % 0x100]
    case WriteUInt32BE(value) => [value / 0x100_0000 % 0x100, value / 0x1_0000 % 0x100, value / 0x100 % 0x100,
                                  value % 0x100]
  }

  lemma TwoDigits(v: int)
    ensures v % 0x1_0000 == (v / 0x100 % 0x100) * 0x100 + v % 0x100
  {
  }

  lemma TwoWords(v: int)
    ensures v % 0x1_0000_0000 == (v / 0x1_0000 % 0x1_0000) * 0x1_0000 + v % 0x1_0000
    ensures v / 0x100_0000 == v / 0x1_0000 / 0x100
  {
  }

  /** Reading a written number back gives it modulo its width, for negative numbers too. */
  lemma NumbersReadBack(value: int)
    ensures Be16(Encode(WriteUInt16BE(value))) == value % 0x1_0000
    ensures Be32(Encode(WriteUInt32BE(value))) == value % 0x1_0000_0000
  {
    TwoWords(value);
    TwoDigits(value);
    TwoDigits(value / 0x1_0000);
  }

  // ---------- growth ----------

  /** Size of the buffer, bytes of content, bytes moved by all resizes so far, and their number. */
  datatype Room = Room(capacity: nat, len: nat, copied: nat, growths: nat)

  function Write(r: Room, n: nat): Room
    requires r.len <= r.capacity
  {
    var r' := r.(len := r.len + n);
    if r.capacity - r.len >= n then r'
    else r'.(capacity := r.capacity + (if n > r.capacity then n else r.capacity),
             copied := r.copied + r.capacity, growths := r.growths + 1)
  }

  function Max(a: nat, b: nat): nat { if a > b then a else b }

  ghost predicate Amortised(initial: nat, r: Room) {
    && r.len <= r.capacity <= Max(initial, 2 * r.len)
    && r.copied <= r.capacity
    && initial * Pow2(r.growths) <= r.capacity
  }

  /** Every resize but the first has at least doubled a buffer that was not empty. */
  ghost predicate Logarithmic(r: Room) {
    r.growths > 0 ==> Pow2(r.growths - 1) <= r.capacity
  }

  lemma WriteKeepsLogarithmic(r: Room, n: nat)
    requires r.len <= r.capacity && Logarithmic(r)
    ensures Logarithmic(Write(r, n))
  {
  }

  function Pow2(n: nat): nat {
    if n == 0 then 1 else 2 * Pow2(n - 1)
  }

  /** A write that does not fit is one growth, which moves the whole buffer; any other moves nothing. */
  lemma GrowthsAreCounted(r: Room, n: nat)
    requires r.len <= r.capacity
    ensures r.len + n <= r.capacity ==> Write(r, n) == Room(r.capacity, r.len + n, r.copied, r.growths)
    ensures r.len + n > r.capacity ==>
              Write(r, n).copied == r.copied + r.capacity && Write(r, n).growths == r.growths + 1
  {
  }

  lemma TwiceAsOften(initial: nat, growths: nat)
    ensures initial * Pow2(growths + 1) == 2 * (initial * Pow2(growths))
  {
  }

  lemma WriteFits(initial: nat, r: Room, n: nat)
    requires r.len <= r.capacity <= Max(initial, 2 * r.len) && r.copied <= r.capacity
    ensures var r' := Write(r, n);
            && r'.len <= r'.capacity <= Max(initial, 2 * r'.len) && r'.copied <= r'.capacity
            && (r'.capacity == r.capacity || r'.capacity >= 2 * r.capacity)
  {
  }

  lemma WriteKeepsAmortised(initial: nat, r: Room, n: nat)
    requires Amortised(initial, r)
    ensures Amortised(initial, Write(r, n))
    ensures Write(r, n).capacity == r.capacity || Write(r, n).capacity >= 2 * r.capacity
  {
    WriteFits(initial, r, n);
    TwiceAsOften(initial, r.growths);
  }

  function RoomAfter(initial: nat, ops: seq<Op>): (r: Room)
    ensures r.len <= r.capacity
  {
    if ops == [] then Room(initial, 0, 0, 0)
    else Write(RoomAfter(initial, ops[..|ops| - 1]), |Encode(ops[|ops| - 1])|)
  }

  function Written(ops: seq<Op>): seq<byte> {
    if ops == [] then [] else Written(ops[..|ops| - 1]) + Encode(ops[|ops| - 1])
  }

  /** After any operations: the length is that of everything written, the capacity is at most the
      larger of the initial size and twice the content, all the growing together has moved no more
      bytes than the buffer now holds, and the number of resizes is logarithmic in the content, also
      for a buffer that starts with nothing. */
  lemma {:induction false} GrowthIsAmortised(initial: nat, ops: seq<Op>)
    ensures var r := RoomAfter(initial, ops);
            && r.len == |Written(ops)|
            && r.len <= r.capacity <= Max(initial, 2 * r.len)
            && r.copied <= r.capacity
            && initial * Pow2(r.growths) <= Max(initial, 2 * r.len)
            && (r.growths > 0 ==> Pow2(r.growths - 1) <= Max(initial, 2 * r.len))
  {
    AmortisedAfter(initial, ops);
  }

  lemma {:induction false} AmortisedAfter(initial: nat, ops: seq<Op>)
    ensures Amortised(initial, RoomAfter(initial, ops)) && RoomAfter(initial, ops).len == |Written(ops)|
    ensures Logarithmic(RoomAfter(initial, ops))
  {
    if ops == [] {
      assert initial * Pow2(0) == initial;
    } else {
      AmortisedAfter(initial, ops[..|ops| - 1]);
      WriteKeepsAmortised(initial, RoomAfter(initial, ops[..|ops| - 1]), |Encode(ops[|ops| - 1])|);
      WriteKeepsLogarithmic(RoomAfter(initial, ops[..|ops| - 1]), |Encode(ops[|ops| - 1])|);
    }
  }

  // ---------- the stream ----------

  class Stream {
    ghost const initial: nat
    var buffer: array<byte>
    var bufferLen: nat
    ghost var copied: nat
    ghost var growths: nat

    ghost predicate Valid()
      reads this
    {
      bufferLen <= buffer.Length && Amortised(initial, Size())
    }

    ghost function Size(): Room
      reads this
    {
      Room(buffer.Length, bufferLen, copied, growths)
    }

    ghost function Contents(): seq<byte>
      reads this, buffer
      requires bufferLen <= buffer.Length
    {
      buffer[..bufferLen]
    }

    constructor (initial: nat)
      ensures Valid() && fresh(buffer) && this.initial == initial
      ensures Contents() == [] && Size() == RoomAfter(initial, [])
    {
      this.initial := initial;
      buffer := new byte[initial](_ => 0);
      bufferLen, copied, growths := 0, 0, 0;
      new;
      assert initial * Pow2(0) == initial;
    }

    /** The dynamic buffer's resize: the old bytes stay where they were. */
    method Resize(capacity: nat)
      requires capacity >= buffer.Length
      modifies this`buffer, this`copied, this`growths
      ensures fresh(buffer) && buffer.Length == capacity
      ensures buffer[..old(buffer.Length)] == old(buffer[..])
      ensures copied == old(copied) + old(buffer.Length) && growths == old(growths) + 1
    {
      var bigger := new byte[capacity](_ => 0);
      var i := 0;
      while i < buffer.Length
        invariant 0 <= i <= buffer.Length && buffer == old(buffer) && fresh(bigger)
        invariant bigger[..i] == buffer[..i]
        invariant unchanged(this) && unchanged(buffer)
      {
        bigger[i] := buffer[i];
        i := i + 1;
      }
      copied, growths := copied + buffer.Length, growths + 1;
      buffer := bigger;
    }

    method OnWrite(data: seq<byte>)
      requires Valid()
      modifies this, buffer
      ensures Valid() && (buffer == old(buffer) || fresh(buffer))
      ensures Contents() == old(Contents()) + data
      ensures Size() == Write(old(Size()), |data|)
    {
      WriteKeepsAmortised(initial, Size(), |data|);
      if buffer.Length - bufferLen < |data| {
        if |data| > buffer.Length {
          Resize(buffer.Length + |data|);
        } else {
          Resize(2 * buffer.Length);
        }
      }
      assert buffer[..bufferLen] == old(Contents());
      CopyIn(data);
      bufferLen := bufferLen + |data|;
    }

    method CopyIn(data: seq<byte>)
      requires bufferLen + |data| <= buffer.Length
      modifies buffer
      ensures buffer[..bufferLen + |data|] == old(buffer[..bufferLen]) + data
    {
      var i := 0;
      while i < |data|
        invariant 0 <= i <= |data|
        invariant buffer[..bufferLen + i] == old(buffer[..bufferLen]) + data[..i]
      {
        buffer[bufferLen + i] := data[i];
        i := i + 1;
      }
    }

    method WriteOp(op: Op)
      requires Valid()
      modifies this, buffer
      ensures Valid() && (buffer == old(buffer) || fresh(buffer))
      ensures Contents() == old(Contents()) + Encode(op)
      ensures Size() == Write(old(Size()), |Encode(op)|)
    {
      OnWrite(Encode(op));
    }
  }

  /** Any sequence of writes leaves exactly their concatenation in the stream. */
  method WriteAll(initial: nat, ops: seq<Op>) returns (s: Stream)
    ensures fresh(s) && s.Valid() && s.Contents() == Written(ops) && s.Size() == RoomAfter(initial, ops)
  {
    s := new Stream(initial);
    var i := 0;
    while i < |ops|
      invariant 0 <= i <= |ops| && fresh(s) && fresh(s.buffer) && s.Valid()
      invariant s.Contents() == Written(ops[..i]) && s.Size() == RoomAfter(initial, ops[..i])
    {
      s.WriteOp(ops[i]);
      assert ops[..i + 1][..i] == ops[..i];
      i := i + 1;
    }
    assert ops[..i] == ops;
  }
}
