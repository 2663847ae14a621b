/** The hash of an agent executable: which bytes of the file are hashed, where an embedded
    settings trailer starts, and the extractor that reads that trailer back. A file is its bytes;
    the digest is a function of the bytes fed to it, so the model says which bytes are fed. */
module FileHash {
  import opened Bytes

  const WORD := 0x1_0000_0000
  const MAX_FILE := 0x8000_0000   // file positions are signed 32-bit numbers

  const MESH_POLICY_GUID: seq<byte> :=
    [0xB9, 0x96, 0x01, 0x58, 0x80, 0x54, 0x4A, 0x19, 0xB7, 0xF7, 0xE9, 0xBE, 0x44, 0x91, 0x4C, 0x19]

  /** Offsets of the checksum and of the certificate table entry (0: nothing to mask), and the end
      index (0: not known). */
  datatype Layout = Layout(checkSum: nat, table: nat, end: nat)

  /** Subtraction of unsigned 32-bit numbers. */
  function Sub32(a: nat, b: nat): nat
    requires b <= WORD
  {
    if a >= b then a - b else a + WORD - b
  }

  function Min(a: nat, b: nat): nat { if a < b then a else b }

  /** `fread` of at most `n` bytes at `pos`. */
  function Read(f: seq<byte>, pos: nat, n: nat): (r: seq<byte>)
    ensures |r| <= n
    ensures pos + n <= |f| ==> r == f[pos..pos + n]
    ensures pos >= |f| ==> r == []
  {
    if pos >= |f| then [] else f[pos..Min(pos + n, |f|)]
  }

  /** The same into a cleared buffer of `n` bytes. */
  function Fill(f: seq<byte>, pos: nat, n: nat): (r: seq<byte>)
    ensures |r| == n
    ensures pos + n <= |f| ==> r == f[pos..pos + n]
  {
    Read(f, pos, n) + Zeros(n - |Read(f, pos, n)|)
  }

  // ---------- where the hashed part ends ----------

  function NtOffset(f: seq<byte>): nat {
    Le32(Fill(f, 60, 4))
  }

  function FixedHeader(f: seq<byte>): (r: seq<byte>)
    ensures |r| == 24
  {
    Fill(f, NtOffset(f), 24)
  }

  function OptionalSize(f: seq<byte>): nat {
    Le16(FixedHeader(f)[20..])
  }

  /** Portable Executable headers: None when the file claims to be one and is not well formed. */
  function PeLayout(f: seq<byte>): Option<Layout> {
    HeaderLayout(NtOffset(f), FixedHeader(f), Fill(f, NtOffset(f) + 24, OptionalSize(f)))
  }

  /** From the offset of the headers, the fixed header and the optional header. */
  function HeaderLayout(nt: nat, head: seq<byte>, opt: seq<byte>): Option<Layout>
    requires |head| == 24
  {
    if Le32(head) != 17744 || |opt| <= 4 then None
    else if Le16(opt) == 0x10B && |opt| >= 132 then Some(Layout(nt + 24 + 64, nt + 24 + 128, Le32(opt[128..])))
    else if Le16(opt) == 0x20B && |opt| >= 148 then Some(Layout(nt + 24 + 64, nt + 24 + 144, Le32(opt[144..])))
    else None
  }

  predicate EndsWithGuid(f: seq<byte>) {
    |f| >= 16 && f[|f| - 16..] == MESH_POLICY_GUID
  }

  /** Length field of the trailer; it is not read when the file has no room for it. */
  function DeclaredLength(f: seq<byte>): nat {
    if |f| >= 20 then Be32(f[|f| - 20..]) else 0
  }

  function TrailerEnd(f: seq<byte>): nat {
    if !EndsWithGuid(f) then |f|
    else
      var told := if |f| >= 20 then |f| - 16 else |f|;
      Sub32(told - 4, DeclaredLength(f))
  }

  function Locate(f: seq<byte>, windows: bool): Option<Layout> {
    var headers := if windows && Read(f, 0, 2) == [0x4D, 0x5A] then PeLayout(f) else Some(Layout(0, 0, 0));
    match headers
    case None => None
    case Some(l) => Some(if l.end == 0 then l.(end := TrailerEnd(f)) else l)
  }

  // ---------- which bytes are hashed ----------

  predicate IsMasked(l: Layout, k: nat) {
    l.checkSum != 0 && (l.checkSum <= k < l.checkSum + 4 || l.table <= k < l.table + 8)
  }

  /** The first `e` bytes with the checksum and the certificate table entry zeroed. */
  function Masked(f: seq<byte>, l: Layout, e: nat): (r: seq<byte>)
    requires e <= |f|
    ensures |r| == e && forall k :: 0 <= k < e ==> r[k] == if IsMasked(l, k) then 0 else f[k]
  {
    seq(e, k requires 0 <= k < e => if IsMasked(l, k) then 0 else f[k])
  }

  /** What is masked lies inside the buffer it is read into, at both ends. */
  predicate HeadersFit(f: seq<byte>, l: Layout, buffer: nat) {
    l.checkSum != 0 ==>
      && l.checkSum + 4 <= l.table && l.checkSum + 12 <= |f|
      && l.checkSum + 4 <= buffer && l.table + 8 - (l.checkSum + 4) <= buffer
  }

  /** The last 8 bytes of the second header read are masked; if the file ends before the
      certificate table entry does, they are not that entry. */
  function Cut(f: seq<byte>, l: Layout): (c: Layout)
    ensures l.checkSum != 0 && l.table + 8 <= |f| ==> c == l
  {
    if l.checkSum != 0 && 8 <= |f| < l.table + 8 then l.(table := |f| - 8) else l
  }

  /** How much of the file is hashed: all of it if no end is known or the end lies inside the
      masked headers (the count of bytes left wraps around), else what the end index allows. */
  function HashedLength(f: seq<byte>, l: Layout): (e: nat)
    ensures e <= |f|
  {
    if l.end == 0 || (l.checkSum != 0 && l.end < l.table + 8) then |f| else Min(l.end, |f|)
  }

  function Fed(f: seq<byte>, l: Layout): seq<byte> {
    Masked(f, Cut(f, l), HashedLength(f, Cut(f, l)))
  }

  function HashInput(f: seq<byte>, windows: bool): Option<seq<byte>> {
    match Locate(f, windows)
    case None => None
    case Some(l) => Some(Fed(f, l))
  }

  predicate Hashable(f: seq<byte>, windows: bool, buffer: nat) {
    |f| < MAX_FILE && (Locate(f, windows).Some? ==> HeadersFit(f, Locate(f, windows).value, buffer))
  }

  /** The two header reads: each masks what it has just read. */
  method ReadHeaders(f: seq<byte>, l: Layout, buffer: nat) returns (fed: seq<byte>)
    requires l.checkSum != 0 && HeadersFit(f, l, buffer)
    ensures var c := Cut(f, l); c.table + 8 <= |f| && fed == Masked(f, c, c.table + 8)
  {
    var read := Read(f, 0, l.checkSum + 4);
    fed := read[..l.checkSum] + Zeros(4);
    read := Read(f, l.checkSum + 4, l.table + 8 - (l.checkSum + 4));
    fed := fed + (read[..|read| - 8] + Zeros(8));
  }

  lemma MaskedExtends(f: seq<byte>, l: Layout, a: nat, b: nat)
    requires a <= b <= |f| && (l.checkSum != 0 ==> l.checkSum + 4 <= a && l.table + 8 <= a)
    ensures Masked(f, l, a) + f[a..b] == Masked(f, l, b)
  {
  }

  /** The reading loop, from `start` on. */
  method StreamRest(f: seq<byte>, l: Layout, buffer: nat, start: nat, left: nat, head: seq<byte>)
      returns (fed: seq<byte>)
    requires buffer > 0 && |f| < MAX_FILE && l.end < WORD && start <= HashedLength(f, l)
    requires l.checkSum != 0 ==> l.checkSum + 4 <= start && l.table + 8 <= start
    requires (l.end > 0 ==> left == Sub32(l.end, start)) && head == Masked(f, l, start)
    ensures fed == Masked(f, l, HashedLength(f, l))
  {
    var bytesLeft, pos := left, start;
    fed := head;
    ghost var e := HashedLength(f, l);
    var done := false;
    while !done
      invariant start <= pos <= e && fed == Masked(f, l, pos)
      invariant l.end > 0 ==> bytesLeft == Sub32(l.end, pos)
      invariant done ==> pos == e
      decreases !done, |f| - pos
    {
      var read := Read(f, pos, if l.end == 0 then buffer else Min(bytesLeft, buffer));
      if read == [] {
        done := true;
      } else {
        MaskedExtends(f, l, pos, pos + |read|);
        fed := fed + read;
        pos := pos + |read|;
        if l.end > 0 {
          bytesLeft := Sub32(bytesLeft, |read|);
          if bytesLeft == 0 { done := true; }
        }
      }
    }
  }

  /** The streaming feeds the digest exactly the masked prefix, for every buffer size. */
  method StreamHash(f: seq<byte>, l: Layout, buffer: nat) returns (fed: seq<byte>)
    requires buffer > 0 && |f| < MAX_FILE && l.end < WORD && HeadersFit(f, l, buffer)
    ensures fed == Fed(f, l)
  {
    var bytesLeft: nat := l.end;
    fed := [];
    if l.checkSum != 0 {
      fed := ReadHeaders(f, l, buffer);
      if l.end > 0 { bytesLeft := Sub32(bytesLeft, |fed|); }
    }
    fed := StreamRest(f, Cut(f, l), buffer, |fed|, bytesLeft, fed);
  }

  /** GenerateSHA384FileHash: None for a malformed executable, else the bytes fed to the digest. */
  method GenerateFileHash(f: seq<byte>, windows: bool, buffer: nat) returns (fed: Option<seq<byte>>)
    requires buffer > 0 && Hashable(f, windows, buffer)
    ensures fed == HashInput(f, windows)
  {
    var l := Locate(f, windows);
    if l.None? { return None; }
    var bytes := StreamHash(f, l.value, buffer);
    fed := Some(bytes);
  }

  // ---------- the embedded trailer ----------

  /** checkForEmbeddedMSH_ex: the settings at the end of the file, if they can be read in full. */
  function Extract(f: seq<byte>): Option<seq<byte>> {
    var len := DeclaredLength(f);
    if !EndsWithGuid(f) || |f| < 20 || len >= MAX_FILE then None
    else
      var start := if len + 20 <= |f| then |f| - 20 - len else |f| - 16;   // a failed seek stays put
      if |Read(f, start, len)| == len then Some(Read(f, start, len)) else None
  }

  function Be32Bytes(n: nat): (r: seq<byte>)
    requires n < WORD
    ensures |r| == 4 && Be32(r) == n
  {
    var high, low := n / 0x1_0000, n % 0x1_0000;
    [high / 0x100, high % 0x100, low / 0x100, low % 0x100]
  }

  /** An executable with settings appended: the settings, their length, the marker. */
  function Embed(f: seq<byte>, msh: seq<byte>): seq<byte>
    requires |msh| < WORD
  {
    f + msh + Be32Bytes(|msh|) + MESH_POLICY_GUID
  }

  lemma EmbedShape(f: seq<byte>, msh: seq<byte>)
    requires |msh| < WORD
    ensures var g := Embed(f, msh);
            && |g| == |f| + |msh| + 20 && EndsWithGuid(g) && DeclaredLength(g) == |msh|
            && g[..|f|] == f && g[|f|..|f| + |msh|] == msh
  {
    var g := Embed(f, msh);
    assert g[|g| - 16..] == MESH_POLICY_GUID;
    var field := g[|g| - 20..];
    assert field[0] == Be32Bytes(|msh|)[0] && field[1] == Be32Bytes(|msh|)[1] && field[2] == Be32Bytes(|msh|)[2]
        && field[3] == Be32Bytes(|msh|)[3];
  }

  /** What is embedded is what is extracted, and what is hashed stops where it starts. */
  lemma ExtractReadsWhatWasEmbedded(f: seq<byte>, msh: seq<byte>)
    requires |f| + |msh| + 20 < MAX_FILE
    ensures Extract(Embed(f, msh)) == Some(msh)
    ensures TrailerEnd(Embed(f, msh)) == |f|
    ensures Embed(f, msh)[|f| + |msh| + 4..] ==
              [0xB9, 0x96, 0x01, 0x58, 0x80, 0x54, 0x4A, 0x19, 0xB7, 0xF7, 0xE9, 0xBE, 0x44, 0x91, 0x4C, 0x19]
  {
    EmbedShape(f, msh);
  }

  /** On any file with a readable trailer the two readers agree: the file is the part before the
      trailer end, the extracted settings, and the 20 bytes of the trailer. They agree exactly
      when the declared length fits in front of the trailer. */
  lemma ReadersAgree(f: seq<byte>)
    requires EndsWithGuid(f) && 20 <= |f| < MAX_FILE && DeclaredLength(f) < MAX_FILE
    ensures DeclaredLength(f) + 20 <= |f| <==>
              (TrailerEnd(f) <= |f| - 20
               && Extract(f) == Some(f[TrailerEnd(f)..|f| - 20]))
  {
    if DeclaredLength(f) + 20 > |f| {
      assert TrailerEnd(f) == |f| - 20 - DeclaredLength(f) + WORD;
    }
  }

  /** No trailer cuts off a part of the file: it does not end in the marker, or the declared length
      reaches just to its beginning or so far that the subtraction wraps around behind its end. */
  predicate NothingCutOff(f: seq<byte>) {
    EndsWithGuid(f) ==> |f| >= 20 && |f| <= DeclaredLength(f) + 20 <= WORD
  }

  lemma NothingCutOffMeaning(f: seq<byte>)
    requires |f| < MAX_FILE
    ensures NothingCutOff(f) <==> HashedLength(f, Layout(0, 0, TrailerEnd(f))) == |f|
  {
  }

  /** Outside Portable Executables, for every file: a trailer leaves the hashed bytes unchanged
      exactly when there is something in front of it and all of that was hashed before. */
  lemma TrailerDoesNotChangeHash(f: seq<byte>, msh: seq<byte>)
    requires |f| + |msh| + 20 < MAX_FILE
    ensures HashInput(Embed(f, msh), false) == HashInput(f, false) <==> f != [] && NothingCutOff(f)
  {
    EmbedShape(f, msh);
    NothingCutOffMeaning(f);
    var g, none := Embed(f, msh), Layout(0, 0, |f|);
    assert Locate(g, false) == Some(none);
    var before := Layout(0, 0, TrailerEnd(f));
    assert Locate(f, false) == Some(before);
    if f == [] {
      assert |Fed(g, none)| != |Fed(f, before)|;
    } else {
      SamePrefixFedAlike(f, g, none);
      assert |Fed(f, before)| == HashedLength(f, before);
      if NothingCutOff(f) {
        assert Fed(f, before) == Fed(f, none);
      }
    }
  }

  /** The headers of a Portable Executable lie inside the file. */
  predicate HeadersComplete(f: seq<byte>) {
    64 <= |f| && NtOffset(f) + 24 + OptionalSize(f) <= |f|
  }

  lemma FillOfPrefix(f: seq<byte>, g: seq<byte>, pos: nat, n: nat)
    requires f <= g && pos + n <= |f|
    ensures Fill(g, pos, n) == Fill(f, pos, n)
  {
    assert g[pos..pos + n] == f[pos..pos + n];
  }

  lemma PeLayoutOfPrefix(f: seq<byte>, g: seq<byte>)
    requires f <= g && HeadersComplete(f)
    ensures PeLayout(g) == PeLayout(f)
  {
    FillOfPrefix(f, g, 60, 4);
    FillOfPrefix(f, g, NtOffset(f), 24);
    FillOfPrefix(f, g, NtOffset(f) + 24, OptionalSize(f));
  }

  lemma ExecutableHashInput(f: seq<byte>, l: Layout, end: nat)
    requires |f| >= 2 && f[..2] == [0x4D, 0x5A] && PeLayout(f) == Some(l)
    requires end == if l.end == 0 then TrailerEnd(f) else l.end
    ensures HashInput(f, true) == Some(Fed(f, l.(end := end)))
  {
    assert Read(f, 0, 2) == f[0..2] == f[..2];
  }

  lemma SamePrefixFedAlike(f: seq<byte>, g: seq<byte>, l: Layout)
    requires f <= g && 0 < l.end <= |f| && (l.checkSum != 0 ==> l.table + 8 <= l.end)
    ensures Fed(g, l) == Fed(f, l) && |Fed(f, l)| == l.end
  {
    assert HashedLength(f, l) == l.end == HashedLength(g, l);
    assert Masked(g, l, l.end) == Masked(f, l, l.end);
  }

  /** Two executables, one the beginning of the other, that are hashed up to the same place. */
  lemma PrefixHashedAlike(f: seq<byte>, g: seq<byte>, l: Layout, end: nat)
    requires f <= g && HeadersComplete(f) && f[..2] == [0x4D, 0x5A] && PeLayout(f) == Some(l)
    requires l.table + 8 <= end <= |f|
    requires if l.end == 0 then TrailerEnd(f) == end == TrailerEnd(g) else l.end == end
    ensures HashInput(g, true) == HashInput(f, true) == Some(Fed(f, l.(end := end)))
    ensures |Fed(f, l.(end := end))| == end
  {
    assert g[..2] == f[..2];
    PeLayoutOfPrefix(f, g);
    ExecutableHashInput(f, l, end);
    ExecutableHashInput(g, l, end);
    SamePrefixFedAlike(f, g, l.(end := end));
  }

  lemma ExecutableHashInputs(f: seq<byte>, msh: seq<byte>, l: Layout)
    requires |f| + |msh| + 20 < MAX_FILE && HeadersComplete(f)
    requires f[..2] == [0x4D, 0x5A] && PeLayout(f) == Some(l) && l.end == 0 && l.table + 8 <= |f|
    ensures HashInput(f, true) == Some(Fed(f, l.(end := TrailerEnd(f))))
    ensures HashInput(Embed(f, msh), true) == Some(Fed(f, l.(end := |f|))) && |Fed(f, l.(end := |f|))| == |f|
  {
    EmbedShape(f, msh);
    var g := Embed(f, msh);
    assert f <= g && g[..2] == f[..2];
    PeLayoutOfPrefix(f, g);
    ExecutableHashInput(f, l, TrailerEnd(f));
    ExecutableHashInput(g, l, |f|);
    SamePrefixFedAlike(f, g, l.(end := |f|));
  }

  /** A Portable Executable whose certificate table is empty, any trailer it may have included: a
      further trailer leaves the hashed bytes unchanged exactly when they were the whole file. */
  lemma TrailerDoesNotChangeExecutableHash(f: seq<byte>, msh: seq<byte>, l: Layout)
    requires |f| + |msh| + 20 < MAX_FILE && HeadersComplete(f)
    requires f[..2] == [0x4D, 0x5A] && PeLayout(f) == Some(l) && l.end == 0 && l.table + 8 <= |f|
    ensures HashInput(Embed(f, msh), true) == Some(Fed(f, l.(end := |f|))) && |Fed(f, l.(end := |f|))| == |f|
    ensures HashInput(Embed(f, msh), true) == HashInput(f, true) <==> HashedLength(f, l.(end := TrailerEnd(f))) == |f|
  {
    ExecutableHashInputs(f, msh, l);
    FedByLength(f, l, TrailerEnd(f));
  }

  lemma FedByLength(f: seq<byte>, l: Layout, end: nat)
    requires l.table + 8 <= |f| && 0 < |f|
    ensures Fed(f, l.(end := |f|)) == Fed(f, l.(end := end)) <==> HashedLength(f, l.(end := end)) == |f|
  {
    var whole, part := l.(end := |f|), l.(end := end);
    assert HashedLength(f, whole) == |f|;
    if HashedLength(f, part) == |f| {
      assert forall k :: IsMasked(whole, k) == IsMasked(part, k);
      assert Masked(f, whole, |f|) == Masked(f, part, |f|);
    } else {
      assert |Fed(f, part)| == HashedLength(f, part);
    }
  }

  /** With a certificate table the end index comes from it: whatever is appended behind the
      headers, a trailer or not, is hashed only as far as that index. */
  lemma CertificateTableFixesTheEnd(f: seq<byte>, g: seq<byte>, l: Layout)
    requires f <= g && HeadersComplete(f) && f[..2] == [0x4D, 0x5A]
    requires PeLayout(f) == Some(l) && l.table + 8 <= l.end <= |f|
    ensures HashInput(g, true) == HashInput(f, true) == Some(Fed(f, l)) && |Fed(f, l)| == l.end
  {
    PrefixHashedAlike(f, g, l, l.end);
  }

  // ---------- the hashed bytes, by the bytes of the file alone ----------

  /** The 32-bit number at a position, its low byte first. */
  function WordAt(f: seq<byte>, p: nat): nat
    requires p + 4 <= |f|
  {
    (f[p] as int) + 0x100 * (f[p + 1] as int) + 0x1_0000 * (f[p + 2] as int) + 0x100_0000 * (f[p + 3] as int)
  }

  /** Where the certificate table's entry is, behind headers at `nt`; it is 16 bytes farther in the
      64-bit form. */
  function TableAt(nt: nat, plus: bool): nat {
    nt + (if plus then 168 else 152)
  }

  /** A Portable Executable with its headers inside the file: MZ, the offset of the headers at 60,
      PE and two zeros there, and an optional header of this form that reaches the table's entry. */
  predicate IsExecutable(f: seq<byte>, nt: nat, plus: bool) {
    && |f| >= 64 && f[0] == 0x4D && f[1] == 0x5A && nt == WordAt(f, 60)
    && TableAt(nt, plus) + 8 <= |f|
    && f[nt] == 0x50 && f[nt + 1] == 0x45 && f[nt + 2] == 0 && f[nt + 3] == 0
    && f[nt + 24] == 0x0B && f[nt + 25] == (if plus then 2 else 1)
    && var size := (f[nt + 20] as int) + 0x100 * (f[nt + 21] as int);
    && size >= (if plus then 148 else 132) && nt + 24 + size <= |f|
  }

  /** How much of an executable is hashed: up to the position that its certificate table's entry
      names, or else to its trailer; all of it if that is 0 or inside the headers. */
  function HashedPart(f: seq<byte>, table: nat): (e: nat)
    requires table + 8 <= |f|
    ensures e <= |f|
  {
    var end := if WordAt(f, table) != 0 then WordAt(f, table) else TrailerEnd(f);
    if end == 0 || end < table + 8 then |f| else Min(end, |f|)
  }

  lemma FillIs(f: seq<byte>, pos: nat, n: nat)
    requires pos + n <= |f|
    ensures Fill(f, pos, n) == f[pos..pos + n]
  {
  }

  lemma NtOffsetIs(f: seq<byte>)
    requires |f| >= 64
    ensures NtOffset(f) == WordAt(f, 60)
  {
    FillIs(f, 60, 4);
    assert f[60..64][0] == f[60] && f[60..64][1] == f[61] && f[60..64][2] == f[62] && f[60..64][3] == f[63];
  }

  lemma FixedHeaderIs(f: seq<byte>, nt: nat, plus: bool)
    requires IsExecutable(f, nt, plus)
    ensures NtOffset(f) == nt && FixedHeader(f) == f[nt..nt + 24]
  {
    NtOffsetIs(f);
    FillIs(f, nt, 24);
  }

  lemma SliceAt(f: seq<byte>, a: nat, b: nat, k: nat)
    requires a <= b <= |f| && k < b - a
    ensures f[a..b][k] == f[a + k] && f[a..b][k..][0] == f[a + k]
    ensures k + 1 < b - a ==> f[a..b][k..][1] == f[a + k + 1]
    ensures k + 3 < b - a ==> f[a..b][k..][2] == f[a + k + 2] && f[a..b][k..][3] == f[a + k + 3]
  {
  }

  lemma Le16From(f: seq<byte>, a: nat, b: nat, k: nat)
    requires a <= b <= |f| && k + 2 <= b - a
    ensures Le16(f[a..b][k..]) == (f[a + k] as int) + 0x100 * (f[a + k + 1] as int)
  {
    SliceAt(f, a, b, k);
  }

  lemma OptionalSizeIs(f: seq<byte>, nt: nat, plus: bool)
    requires IsExecutable(f, nt, plus)
    ensures OptionalSize(f) == (f[nt + 20] as int) + 0x100 * (f[nt + 21] as int)
  {
    FixedHeaderIs(f, nt, plus);
    Le16From(f, nt, nt + 24, 20);
  }

  lemma HeadersAt(f: seq<byte>, nt: nat, plus: bool)
    requires IsExecutable(f, nt, plus)
    ensures NtOffset(f) == nt && FixedHeader(f) == f[nt..nt + 24]
    ensures OptionalSize(f) == (f[nt + 20] as int) + 0x100 * (f[nt + 21] as int)
    ensures Fill(f, nt + 24, OptionalSize(f)) == f[nt + 24..nt + 24 + OptionalSize(f)]
  {
    FixedHeaderIs(f, nt, plus);
    OptionalSizeIs(f, nt, plus);
    FillIs(f, nt + 24, OptionalSize(f));
  }

  lemma Le32At(f: seq<byte>, a: nat, b: nat, k: nat)
    requires a <= b <= |f| && k + 4 <= b - a
    ensures Le32(f[a..b][k..]) == WordAt(f, a + k)
  {
    SliceAt(f, a, b, k);
  }

  lemma Le16At(f: seq<byte>, a: nat, b: nat)
    requires a + 2 <= b <= |f|
    ensures Le16(f[a..b]) == (f[a] as int) + 0x100 * (f[a + 1] as int)
  {
  }

  lemma SignatureIs(f: seq<byte>, nt: nat, plus: bool)
    requires IsExecutable(f, nt, plus)
    ensures Le32(f[nt..nt + 24]) == 17744
  {
    Le32At(f, nt, nt + 24, 0);
    assert f[nt..nt + 24][0..] == f[nt..nt + 24];
  }

  lemma OptionalHeaderIs(f: seq<byte>, nt: nat, plus: bool, size: nat)
    requires IsExecutable(f, nt, plus) && size == (f[nt + 20] as int) + 0x100 * (f[nt + 21] as int)
    ensures Le16(f[nt + 24..nt + 24 + size]) == (if plus then 0x20B else 0x10B)
    ensures Le32(f[nt + 24..nt + 24 + size][if plus then 144 else 128..]) == WordAt(f, TableAt(nt, plus))
  {
    Le16At(f, nt + 24, nt + 24 + size);
    if plus {
      Le32At(f, nt + 24, nt + 24 + size, 144);
    } else {
      Le32At(f, nt + 24, nt + 24 + size, 128);
    }
  }

  lemma ExecutableLayout(f: seq<byte>, nt: nat, plus: bool)
    requires IsExecutable(f, nt, plus)
    ensures PeLayout(f) == Some(Layout(nt + 88, TableAt(nt, plus), WordAt(f, TableAt(nt, plus))))
  {
    var size := (f[nt + 20] as int) + 0x100 * (f[nt + 21] as int);
    var head, opt := f[nt..nt + 24], f[nt + 24..nt + 24 + size];
    HeadersAt(f, nt, plus);
    LayoutReads(f, nt, head, opt);
    SignatureIs(f, nt, plus);
    OptionalHeaderIs(f, nt, plus, size);
    LayoutFrom(nt, head, opt, plus);
  }

  lemma LayoutReads(f: seq<byte>, nt: nat, head: seq<byte>, opt: seq<byte>)
    requires NtOffset(f) == nt && FixedHeader(f) == head && Fill(f, nt + 24, OptionalSize(f)) == opt
    ensures |head| == 24 && PeLayout(f) == HeaderLayout(nt, head, opt)
  {
  }

  lemma LayoutFrom(nt: nat, head: seq<byte>, opt: seq<byte>, plus: bool)
    requires |head| == 24 && Le32(head) == 17744 && |opt| >= (if plus then 148 else 132)
    requires Le16(opt) == (if plus then 0x20B else 0x10B)
    ensures HeaderLayout(nt, head, opt) ==
              Some(Layout(nt + 88, TableAt(nt, plus), Le32(opt[if plus then 144 else 128..])))
  {
  }

  /** What is fed to the digest of an executable: its bytes up to the end, with the four of the
      checksum, 88 behind the headers' offset, and the eight of the certificate table's entry zeroed. */
  lemma HashOfExecutable(f: seq<byte>, nt: nat, plus: bool)
    requires IsExecutable(f, nt, plus)
    ensures HashInput(f, true).Some?
    ensures var fed, table := HashInput(f, true).value, TableAt(nt, plus);
            && |fed| == HashedPart(f, table)
            && forall k :: 0 <= k < |fed| ==>
                 fed[k] == if nt + 88 <= k < nt + 92 || table <= k < table + 8 then 0 else f[k]
  {
    var l := LayoutInUse(f, nt, plus);
    FedAt(f, l);
  }

  lemma LayoutInUse(f: seq<byte>, nt: nat, plus: bool) returns (l: Layout)
    requires IsExecutable(f, nt, plus)
    ensures l.checkSum == nt + 88 && l.table == TableAt(nt, plus)
    ensures l.end == if WordAt(f, l.table) != 0 then WordAt(f, l.table) else TrailerEnd(f)
    ensures HashInput(f, true) == Some(Fed(f, l))
  {
    ExecutableLayout(f, nt, plus);
    BeginsWithMz(f);
    var table := TableAt(nt, plus);
    var word := WordAt(f, table);
    var found := Layout(nt + 88, table, word);
    l := found.(end := if word == 0 then TrailerEnd(f) else word);
    ExecutableHashInput(f, found, l.end);
  }

  lemma BeginsWithMz(f: seq<byte>)
    requires |f| >= 2 && f[0] == 0x4D && f[1] == 0x5A
    ensures f[..2] == [0x4D, 0x5A]
  {
  }

  lemma FedAt(f: seq<byte>, l: Layout)
    requires l.checkSum != 0 && l.table + 8 <= |f|
    ensures |Fed(f, l)| == if l.end == 0 || l.end < l.table + 8 then |f| else Min(l.end, |f|)
    ensures forall k :: 0 <= k < |Fed(f, l)| ==>
              Fed(f, l)[k] == if l.checkSum <= k < l.checkSum + 4 || l.table <= k < l.table + 8 then 0 else f[k]
  {
  }

  /** Two executables of one form and length, hashed up to the same place, are fed alike exactly if
      they agree there outside the checksum and the certificate table's entry. */
  lemma OnlySignatureFieldsDoNotCount(f: seq<byte>, g: seq<byte>, nt: nat, plus: bool)
    requires IsExecutable(f, nt, plus) && IsExecutable(g, nt, plus) && |f| == |g|
    requires HashedPart(f, TableAt(nt, plus)) == HashedPart(g, TableAt(nt, plus))
    ensures var table, e := TableAt(nt, plus), HashedPart(f, TableAt(nt, plus));
            HashInput(f, true) == HashInput(g, true) <==>
              forall k :: 0 <= k < e && !(nt + 88 <= k < nt + 92) && !(table <= k < table + 8) ==> f[k] == g[k]
  {
    HashOfExecutable(f, nt, plus);
    HashOfExecutable(g, nt, plus);
    var table, e := TableAt(nt, plus), HashedPart(f, TableAt(nt, plus));
    var a, b := HashInput(f, true).value, HashInput(g, true).value;
    if a == b {
      forall k | 0 <= k < e && !(nt + 88 <= k < nt + 92) && !(table <= k < table + 8) ensures f[k] == g[k] {
        assert a[k] == b[k];
      }
    } else {
      var k :| 0 <= k < e && a[k] != b[k];
    }
  }

  /** If the file ends before the certificate table's entry does, all of it is fed, with the checksum and
      the last eight bytes zeroed. */
  lemma HashOfCutHeaders(f: seq<byte>, l: Layout)
    requires l.checkSum != 0 && l.checkSum + 12 <= |f| < l.table + 8
    ensures |Fed(f, l)| == |f|
    ensures forall k :: 0 <= k < |f| ==>
              Fed(f, l)[k] == if l.checkSum <= k < l.checkSum + 4 || |f| - 8 <= k then 0 else f[k]
  {
  }

  /** Where the trailer begins, for every file: at its end without the marker; with it, the declared
      length before the last 20 bytes, modulo 32 bits, or 4 before the end if there are no 20. */
  lemma TrailerEndIs(f: seq<byte>)
    requires |f| < MAX_FILE
    ensures TrailerEnd(f) ==
              if |f| < 16 || f[|f| - 16..] != MESH_POLICY_GUID then |f|
              else if |f| < 20 then |f| - 4
              else
                var n := |f| - 20;
                var length := (((f[n] as int) * 0x100 + f[n + 1]) * 0x100 + f[n + 2]) * 0x100 + f[n + 3];
                (n - length) % 0x1_0000_0000
  {
    if |f| >= 20 {
      var field := f[|f| - 20..];
      assert field[0] == f[|f| - 20] && field[1] == f[|f| - 19] && field[2] == f[|f| - 18] && field[3] == f[|f| - 17];
    }
  }

  /** What the extractor gives, for every file: the declared number of bytes before the trailer; or, if
      there are not so many, that many from the marker on, if there are. */
  lemma ExtractIs(f: seq<byte>)
    ensures Extract(f) ==
              if |f| < 20 || f[|f| - 16..] != MESH_POLICY_GUID then None
              else
                var n := |f| - 20;
                var length := (((f[n] as int) * 0x100 + f[n + 1]) * 0x100 + f[n + 2]) * 0x100 + f[n + 3];
                if length >= 0x8000_0000 then None
                else if length <= n then Some(f[n - length..n])
                else if length <= 16 then Some(f[|f| - 16..][..length]) else None
  {
    if |f| >= 20 {
      var field := f[|f| - 20..];
      assert field[0] == f[|f| - 20] && field[1] == f[|f| - 19] && field[2] == f[|f| - 18] && field[3] == f[|f| - 17];
      var length := DeclaredLength(f);
      assert length <= 16 ==> f[|f| - 16..][..length] == f[|f| - 16..|f| - 16 + length];
    }
  }

  /** Any other file is hashed as it is, up to its trailer, or whole if that is all of it. */
  lemma HashOfOtherFile(f: seq<byte>, windows: bool)
    requires windows ==> |f| < 2 || f[0] != 0x4D || f[1] != 0x5A
    ensures HashInput(f, windows) == Some(if TrailerEnd(f) == 0 then f else f[..Min(TrailerEnd(f), |f|)])
  {
    if windows {
      assert |f| >= 2 ==> Read(f, 0, 2)[0] == f[0] && Read(f, 0, 2)[1] == f[1];
      assert Read(f, 0, 2) != [0x4D, 0x5A];
    }
    var l := Layout(0, 0, TrailerEnd(f));
    assert Locate(f, windows) == Some(l);
    assert Fed(f, l) == f[..HashedLength(f, l)] && f[..|f|] == f;
  }

  /** The hash sees every unmasked byte in front of the end and no other: two files with the same
      bytes masked and the same end are fed alike exactly when they agree there. */
  lemma HashSeesUnmaskedPrefix(f: seq<byte>, g: seq<byte>, windows: bool)
    requires Locate(f, windows).Some? && Locate(g, windows).Some?
    requires Cut(f, Locate(f, windows).value) == Cut(g, Locate(g, windows).value)
    requires HashedLength(f, Cut(f, Locate(f, windows).value)) == HashedLength(g, Cut(f, Locate(f, windows).value))
    ensures var l := Cut(f, Locate(f, windows).value);
            HashInput(f, windows) == HashInput(g, windows) <==>
              forall k :: 0 <= k < HashedLength(f, l) && !IsMasked(l, k) ==> f[k] == g[k]
  {
    var l := Cut(f, Locate(f, windows).value);
    var e := HashedLength(f, l);
    if forall k :: 0 <= k < e && !IsMasked(l, k) ==> f[k] == g[k] {
      assert Masked(f, l, e) == Masked(g, l, e);
    } else {
      var k :| 0 <= k < e && !IsMasked(l, k) && f[k] != g[k];
      assert Masked(f, l, e)[k] != Masked(g, l, e)[k];
    }
  }
}
