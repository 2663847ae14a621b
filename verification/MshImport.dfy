/** The settings importer: reads key=value lines and puts them into, or deletes them from, the
    data store, working in place on the file's buffer. */
module MshImport {
  import opened Strings
  import opened DataStore

  const CORE := "CoreModule"

  datatype Action = Skip | Delete(key: string) | Put(key: string, value: string)

  function Apply(store: Store, crc: Checksum, a: Action): Store {
    match a
    case Skip => store
    case Delete(key) => DataStore.Delete(store, crc, key)
    case Put(key, value) => DataStore.Put(store, key, value)
  }

  /** The value of a line: what follows the equals sign, without a carriage return and blanks. */
  function ValueOf(rest: string): string {
    Trim(if rest != "" && rest[|rest| - 1] == '\r' then rest[..|rest| - 1] else rest)
  }

  /** What one line asks for; `unhex` decodes the digits of a hexadecimal value. */
  function ParseLine(line: string, unhex: string -> string): Action {
    ParseTrimmed(Trim(line), unhex)
  }

  function ParseTrimmed(t: string, unhex: string -> string): Action {
    var eq := FirstFrom(t, "=", 0);
    if eq <= 0 || t[0] == '#' then Skip else
    ActionFor(t[..eq], ValueOf(t[eq + 1..]), unhex)
  }

  function ActionFor(key: string, val: string, unhex: string -> string): Action {
    if key == CORE then Skip
    else if val == "" then Delete(key)
    else if |val| > 2 && val[..2] == "0x" then Put(key, unhex(val[2..]))
    else Put(key, val + "\0")
  }

  /** Start and length of the lines that end within the first `i` characters, and the start of
      the line after them. */
  function Cut(s: string, i: nat): (r: (seq<(nat, nat)>, nat))
    requires i <= |s|
    ensures r.1 <= i
  {
    if i == 0 then ([], 0) else
    var (spans, token) := Cut(s, i - 1);
    if s[i - 1] == '\n' then (spans + [(token, i - 1 - token)], i) else (spans, token)
  }

  /** Start and length of every line; the last one need not end in a newline. */
  function Spans(s: string): (r: seq<(nat, nat)>)
    ensures |r| > 0
  {
    var (spans, token) := Cut(s, |s|);
    spans + [(token, |s| - token)]
  }

  function Slice(s: string, span: (nat, nat)): string {
    if span.0 + span.1 <= |s| then s[span.0..span.0 + span.1] else ""
  }

  function Lines(s: string): (r: seq<string>)
    ensures |r| == |Spans(s)|
  {
    var spans := Spans(s);
    seq(|spans|, i requires 0 <= i < |spans| => Slice(s, spans[i]))
  }

  function Actions(lines: seq<string>, unhex: string -> string): (r: seq<Action>)
    ensures |r| == |lines| && forall i :: 0 <= i < |r| ==> r[i] == ParseLine(lines[i], unhex)
  {
    seq(|lines|, i requires 0 <= i < |lines| => ParseLine(lines[i], unhex))
  }

  function Fold(store: Store, crc: Checksum, actions: seq<Action>): Store {
    if actions == [] then store else Apply(Fold(store, crc, actions[..|actions| - 1]), crc, actions[|actions| - 1])
  }

  /** A NUL at the very end of the file is not part of the text. */
  function Text(file: string): string {
    if file != "" && file[|file| - 1] == '\0' then file[..|file| - 1] else file
  }

  function FileActions(file: string, unhex: string -> string): seq<Action> {
    if file == "" then [] else Actions(Lines(Text(file)), unhex)
  }

  function Import(store: Store, crc: Checksum, file: string, unhex: string -> string): Store {
    Fold(store, crc, FileActions(file, unhex))
  }

  lemma FoldNext(store: Store, crc: Checksum, actions: seq<Action>, i: nat)
    requires i < |actions|
    ensures Fold(store, crc, actions[..i + 1]) == Apply(Fold(store, crc, actions[..i]), crc, actions[i])
  {
    assert actions[..i + 1][..i] == actions[..i];
  }

  // ---------- the importer on its buffer ----------

  /** ILibParseString */
  method ParseLines(s: string) returns (fields: seq<(nat, nat)>)
    ensures fields == Spans(s)
  {
    var token: nat, i: nat := 0, 0;
    fields := [];
    while i < |s|
      invariant 0 <= token <= i <= |s| && (fields, token) == Cut(s, i)
    {
      if s[i] == '\n' {
        fields := fields + [(token, i - token)];
        token := i + 1;
      }
      i := i + 1;
    }
    fields := fields + [(token, |s| - token)];
  }

  lemma {:induction false} CutAtNewlines(s: string, i: nat, n: nat)
    requires i <= |s| && n <= |Cut(s, i).0|
    ensures var (spans, token) := Cut(s, i);
            && (n == 0 ==> (if |spans| == 0 then token else spans[0].0) == 0)
            && (if n == |spans| then '\n' !in s[token..i]
                else
                  var end := spans[n].0 + spans[n].1;
                  && end < i && s[end] == '\n' && '\n' !in s[spans[n].0..end]
                  && (if n + 1 == |spans| then token else spans[n + 1].0) == end + 1)
    decreases i
  {
    if i > 0 {
      var before := Cut(s, i - 1);
      if n <= |before.0| {
        CutAtNewlines(s, i - 1, n);
      }
      if s[i - 1] != '\n' {
        assert s[before.1..i] == s[before.1..i - 1] + [s[i - 1]];
      }
    }
  }

  /** The lines are the text cut at its newlines: the first starts the text, no line holds a
      newline, each but the last ends at one with the next line right behind it, and the last
      line ends the text. */
  lemma SpansCutAtNewlines(s: string, n: nat)
    requires n < |Spans(s)|
    ensures var r := Spans(s);
            var end := r[n].0 + r[n].1;
            && r[0].0 == 0 && end <= |s| && '\n' !in Slice(s, r[n])
            && if n == |r| - 1 then end == |s| else end < |s| && s[end] == '\n' && r[n + 1].0 == end + 1
  {
    CutAtNewlines(s, |s|, 0);
    CutAtNewlines(s, |s|, n);
  }

  /** ILibTrimString on a stretch of the buffer. */
  method TrimRange(buffer: array<char>, start: nat, len: nat) returns (start': nat, len': nat)
    requires start + len <= buffer.Length
    ensures start <= start' && start' + len' <= start + len
    ensures buffer[start'..start' + len'] == Trim(buffer[start..start + len])
  {
    var all := buffer[start..start + len];
    var a, b := 0, len;
    while b > a && IsBlank(all[a])
      invariant 0 <= a <= b == len && Front(all, a) == Front(all, 0)
    {
      a := a + 1;
    }
    while b > a && IsBlank(all[b - 1])
      invariant 0 <= a <= b <= len && Back(all, a, b) == Back(all, a, len)
    {
      b := b - 1;
    }
    forall i | 0 <= i < b - a ensures buffer[start + a..start + b][i] == all[a..b][i] {
      assert all[a + i] == buffer[start + (a + i)];
    }
    start', len' := start + a, b - a;
  }

  /** The value's carriage return and blanks; the byte in front of it is never a carriage return. */
  method TrimValue(buffer: array<char>, start: nat, len: nat) returns (v: nat, m: nat)
    requires 0 < start && start + len <= buffer.Length && buffer[start - 1] == '\0'
    ensures start <= v && v + m <= start + len && buffer[v..v + m] == ValueOf(buffer[start..start + len])
  {
    ghost var rest := buffer[start..start + len];
    var n := len;
    if buffer[start + n - 1] == '\r' { n := n - 1; }
    assert buffer[start..start + n] == if rest != "" && rest[|rest| - 1] == '\r' then rest[..|rest| - 1] else rest;
    v, m := TrimRange(buffer, start, n);
  }

  /** Stores or deletes; a string value is terminated in the buffer and stored with its NUL. */
  method StoreValue(buffer: array<char>, key: string, v: nat, m: nat, store: Store, crc: Checksum,
                    unhex: string -> string)
    returns (store': Store)
    requires v + m < buffer.Length
    modifies buffer
    ensures store' == Apply(store, crc, ActionFor(key, old(buffer[v..v + m]), unhex))
    ensures forall i :: 0 <= i < buffer.Length && i != v + m ==> buffer[i] == old(buffer[i])
  {
    ghost var val := buffer[v..v + m];
    store' := store;
    if key != CORE {
      if m == 0 {
        store' := DataStore.Delete(store, crc, key);
      } else if m > 2 && buffer[v] == '0' && buffer[v + 1] == 'x' {
        assert val[2..] == buffer[v + 2..v + m] && val[..2] == "0x";
        store' := DataStore.Put(store, key, unhex(buffer[v + 2..v + m]));
      } else {
        assert m > 2 ==> val[0] == buffer[v] && val[1] == buffer[v + 1];
        buffer[v + m] := '\0';
        assert buffer[v..v + m + 1] == val + "\0";
        store' := DataStore.Put(store, key, buffer[v..v + m + 1]);
      }
    }
  }

  /** Takes the key off a line and terminates it in the buffer. */
  method TakeKey(buffer: array<char>, s: nat, n: nat, eq: nat) returns (key: string)
    requires eq < n && s + n <= buffer.Length
    modifies buffer
    ensures key == old(buffer[s..s + n])[..eq] && buffer[s + eq] == '\0'
    ensures buffer[s + eq + 1..s + n] == old(buffer[s..s + n])[eq + 1..]
    ensures forall i :: 0 <= i < buffer.Length && i != s + eq ==> buffer[i] == old(buffer[i])
  {
    key := buffer[s..s + eq];
    buffer[s + eq] := '\0';
  }

  /** A trimmed line `t` with an equals sign at `eq`: key and value are terminated in the buffer. */
  method ImportPair(buffer: array<char>, s: nat, n: nat, ghost t: string, eq: nat, store: Store, crc: Checksum,
                    unhex: string -> string)
    returns (store': Store)
    requires eq < n && s + n < buffer.Length && buffer[s..s + n] == t
    modifies buffer
    ensures store' == Apply(store, crc, ActionFor(t[..eq], ValueOf(t[eq + 1..]), unhex))
    ensures forall i :: s + n < i < buffer.Length ==> buffer[i] == old(buffer[i])
  {
    ghost var rest := t[eq + 1..];
    var key, v, m := TakePair(buffer, s, n, t, eq);
    assert buffer[v..v + m] == ValueOf(rest);
    store' := StoreValue(buffer, key, v, m, store, crc, unhex);
  }

  method TakePair(buffer: array<char>, s: nat, n: nat, ghost t: string, eq: nat) returns (key: string, v: nat, m: nat)
    requires eq < n && s + n < buffer.Length && buffer[s..s + n] == t
    modifies buffer
    ensures key == t[..eq] && v + m <= s + n && buffer[v..v + m] == ValueOf(t[eq + 1..])
    ensures forall i :: s + n < i < buffer.Length ==> buffer[i] == old(buffer[i])
  {
    key := TakeKey(buffer, s, n, eq);
    var start, len := s + eq + 1, n - eq - 1;
    assert buffer[start..start + len] == t[eq + 1..];
    v, m := TrimValue(buffer, start, len);
  }

  method ImportTrimmed(buffer: array<char>, s: nat, n: nat, store: Store, crc: Checksum, unhex: string -> string)
    returns (store': Store)
    requires s + n < buffer.Length
    modifies buffer
    ensures store' == Apply(store, crc, ParseTrimmed(old(buffer[s..s + n]), unhex))
    ensures forall i :: s + n < i < buffer.Length ==> buffer[i] == old(buffer[i])
  {
    store' := store;
    var t := buffer[s..s + n];
    if buffer[s] != '#' {
      var eq := IndexOf(t, "=");
      if eq > 0 { store' := ImportPair(buffer, s, n, t, eq, store, crc, unhex); }
    }
  }

  /** One line of the loop; the lines behind it are left as they are. */
  method ImportLine(buffer: array<char>, start: nat, len: nat, store: Store, crc: Checksum, unhex: string -> string)
    returns (store': Store)
    requires start + len < buffer.Length
    modifies buffer
    ensures store' == Apply(store, crc, ParseLine(old(buffer[start..start + len]), unhex))
    ensures forall i :: start + len < i < buffer.Length ==> buffer[i] == old(buffer[i])
  {
    var s, n := TrimRange(buffer, start, len);
    store' := ImportTrimmed(buffer, s, n, store, crc, unhex);
  }

  /** importSettings: the file is in the buffer, with one NUL behind it. */
  method ImportSettings(buffer: array<char>, store: Store, crc: Checksum, unhex: string -> string)
      returns (store': Store)
    requires buffer.Length > 0 && buffer[buffer.Length - 1] == '\0'
    modifies buffer
    ensures store' == Import(store, crc, old(buffer[..buffer.Length - 1]), unhex)
  {
    var len := buffer.Length - 1;
    ghost var file := buffer[..len];
    if len == 0 { return store; }
    if buffer[len - 1] == '\0' { len := len - 1; }
    ghost var text := buffer[..len];
    assert text == Text(file);
    var fields := ParseLines(buffer[..len]);
    ghost var actions := Actions(Lines(text), unhex);
    assert actions == FileActions(file, unhex);
    store' := ImportFields(buffer, text, fields, store, crc, unhex);
    assert actions[..|fields|] == actions;
  }

  /** One turn of the loop: line `i` is still as it was in the file, and so is what comes behind. */
  method ImportField(buffer: array<char>, ghost text: string, i: nat, field: (nat, nat), store: Store, crc: Checksum,
                     unhex: string -> string) returns (store': Store)
    requires |text| < buffer.Length && i < |Spans(text)| && field == Spans(text)[i]
    requires forall k :: field.0 <= k < |text| ==> buffer[k] == text[k]
    modifies buffer
    ensures store' == Apply(store, crc, ParseLine(Lines(text)[i], unhex))
    ensures i + 1 < |Spans(text)| ==> forall k :: Spans(text)[i + 1].0 <= k < |text| ==> buffer[k] == text[k]
  {
    SpansCutAtNewlines(text, i);
    var (start, n) := field;
    assert Lines(text)[i] == Slice(text, field) == text[start..start + n];
    assert buffer[start..start + n] == text[start..start + n];
    store' := ImportLine(buffer, start, n, store, crc, unhex);
  }

  method ImportFields(buffer: array<char>, ghost text: string, fields: seq<(nat, nat)>, store: Store, crc: Checksum,
                      unhex: string -> string) returns (store': Store)
    requires |text| < buffer.Length && fields == Spans(text) && forall k :: 0 <= k < |text| ==> buffer[k] == text[k]
    modifies buffer
    ensures store' == Fold(store, crc, Actions(Lines(text), unhex)[..|fields|])
  {
    ghost var actions := Actions(Lines(text), unhex);
    store' := store;
    var i := 0;
    while i < |fields|
      invariant 0 <= i <= |fields| && store' == Fold(store, crc, actions[..i])
      invariant i < |fields| ==> forall k :: fields[i].0 <= k < |text| ==> buffer[k] == text[k]
    {
      FoldNext(store, crc, actions, i);
      store' := ImportField(buffer, text, i, fields[i], store', crc, unhex);
      i := i + 1;
    }
  }
}
