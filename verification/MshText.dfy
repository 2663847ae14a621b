/** What a settings file says, told by its text: the lines, the blanks around keys and values, the
    comments, and the three kinds of value. */
module MshText {
  import opened Bytes
  import opened Strings
  import opened DataStore
  import opened MshImport
  import opened MshImportResults

  // ---------- lines ----------

  /** Lines joined by newlines. */
  function Join(lines: seq<string>): string
    requires lines != []
  {
    if |lines| == 1 then lines[0] else Join(lines[..|lines| - 1]) + "\n" + lines[|lines| - 1]
  }

  lemma {:induction false} CutOfLonger(s: string, more: string, i: nat)
    requires i <= |s|
    ensures Cut(s + more, i) == Cut(s, i)
  {
    if i > 0 {
      CutOfLonger(s, more, i - 1);
      assert (s + more)[i - 1] == s[i - 1];
    }
  }

  lemma {:induction false} CutSameLine(s: string, i: nat, j: nat)
    requires i <= j <= |s| && '\n' !in s[i..j]
    ensures Cut(s, j) == Cut(s, i)
  {
    if i < j {
      assert s[i..j - 1] <= s[i..j];
      CutSameLine(s, i, j - 1);
      assert s[j - 1] in s[i..j];
    }
  }

  lemma OneSpanMore(s: string, line: string)
    requires '\n' !in line
    ensures Spans(s + "\n" + line) == Spans(s) + [(|s| + 1, |line|)]
  {
    var t := s + "\n" + line;
    var n := |s| + 1;
    assert t == s + ("\n" + line) && t[n..] == line;
    CutOfLonger(s, "\n" + line, |s|);
    assert t[|s|] == '\n' && t[n..|t|] == t[n..];
    CutSameLine(t, n, |t|);
  }

  lemma SliceOfLonger(s: string, more: string, span: (nat, nat))
    requires span.0 + span.1 <= |s|
    ensures Slice(s + more, span) == Slice(s, span)
  {
  }

  lemma OneLineMore(s: string, line: string)
    requires '\n' !in line
    ensures Lines(s + "\n" + line) == Lines(s) + [line]
  {
    var t := s + "\n" + line;
    OneSpanMore(s, line);
    assert t == s + ("\n" + line);
    forall i | 0 <= i < |Spans(s)| ensures Slice(t, Spans(s)[i]) == Slice(s, Spans(s)[i]) {
      SpansCutAtNewlines(s, i);
      SliceOfLonger(s, "\n" + line, Spans(s)[i]);
    }
    assert t[|s| + 1..|s| + 1 + |line|] == line;
  }

  /** The lines of joined lines are these lines. */
  lemma {:induction false} LinesOfJoin(lines: seq<string>)
    requires lines != [] && forall l <- lines :: '\n' !in l
    ensures Lines(Join(lines)) == lines
  {
    if |lines| == 1 {
      var s := lines[0];
      assert s in lines && s[0..|s|] == s;
      CutSameLine(s, 0, |s|);
      assert Slice(s, (0, |s|)) == s;
    } else {
      LinesOfJoin(lines[..|lines| - 1]);
      assert lines[|lines| - 1] in lines;
      OneLineMore(Join(lines[..|lines| - 1]), lines[|lines| - 1]);
    }
  }

  // ---------- settings ----------

  predicate AllBlank(w: string) {
    forall i :: 0 <= i < |w| ==> !Visible(w[i])
  }

  predicate Visible(c: char) {
    c != ' ' && c != '\t'
  }

  predicate NoBlankAtEnds(m: string) {
    m != "" ==> Visible(m[0]) && Visible(m[|m| - 1])
  }

  /** The parts of a line: blanks, a key, an equals sign, blanks, a value, blanks, perhaps a carriage
      return, blanks. The key begins with neither a blank nor '#' and has no equals sign. */
  datatype Parts = Parts(w1: string, key: string, w2: string, value: string, w3: string, cr: bool, w4: string)

  function Written(p: Parts): string {
    p.w1 + p.key + "=" + p.w2 + p.value + p.w3 + (if p.cr then "\r" else "") + p.w4
  }

  predicate Proper(p: Parts) {
    && AllBlank(p.w1) && AllBlank(p.w2) && AllBlank(p.w3) && AllBlank(p.w4)
    && p.key != "" && Visible(p.key[0]) && p.key[0] != '#' && '=' !in p.key
    && NoBlankAtEnds(p.value)
    && (p.value != "" && p.value[|p.value| - 1] == '\r' ==> p.cr)
  }

  ghost predicate Sets(line: string, key: string, value: string) {
    exists p :: Proper(p) && line == Written(p) && p.key == key && p.value == value
  }

  lemma FrontIs(s: string, a: nat)
    requires a <= |s| && (forall i :: 0 <= i < a ==> !Visible(s[i])) && (a < |s| ==> Visible(s[a]))
    ensures Front(s, 0) == a
  {
    FrontFacts(s, 0);
  }

  lemma BackIs(s: string, a: nat, b: nat)
    requires a <= b <= |s| && (forall i :: b <= i < |s| ==> !Visible(s[i])) && (a < b ==> Visible(s[b - 1]))
    ensures Back(s, a, |s|) == b
  {
    BackFacts(s, a, |s|);
  }

  lemma TrimIs(w: string, m: string, w': string)
    requires AllBlank(w) && AllBlank(w') && NoBlankAtEnds(m)
    ensures Trim(w + m + w') == m
  {
    var s := w + m + w';
    if m == "" {
      forall i | 0 <= i < |s| ensures !Visible(s[i]) {
        assert s[i] == if i < |w| then w[i] else w'[i - |w|];
      }
      FrontIs(s, |s|);
      BackIs(s, |s|, |s|);
    } else {
      var end := |w| + |m|;
      assert s[|w|] == m[0] && s[end - 1] == m[|m| - 1] && s[|w|..end] == m;
      FrontIs(s, |w|);
      forall i | end <= i < |s| ensures !Visible(s[i]) {
        assert s[i] == w'[i - end];
      }
      BackIs(s, |w|, end);
    }
  }

  /** What a setting asks for: the core's own key nothing, an empty value a removal, a value of more
      than two characters that starts with 0x its decoded digits, and any other the value itself with
      a NUL behind it. */
  function Asked(key: string, value: string, unhex: string -> string): Action {
    if key == "CoreModule" then Skip
    else if value == "" then Delete(key)
    else if |value| > 2 && value[0] == '0' && value[1] == 'x' then Put(key, unhex(value[2..]))
    else Put(key, value + ['\0'])
  }

  lemma AskedIsAction(key: string, value: string, unhex: string -> string)
    ensures ActionFor(key, value, unhex) == Asked(key, value, unhex)
  {
    if |value| > 2 {
      assert value[..2] == "0x" <==> value[0] == '0' && value[1] == 'x';
    }
  }

  lemma EqualsSignAt(key: string, rest: string)
    requires '=' !in key
    ensures FirstFrom(key + "=" + rest, "=", 0) == |key|
  {
    var t := key + "=" + rest;
    assert t[|key|..|key| + 1] == "=" && OccursAt(t, "=", |key|);
    FirstIsLeast(t, "=", 0, |key|);
    var k := FirstFrom(t, "=", 0);
    assert k <= |key| && t[k..k + 1][0] == '=' && t[k] == '=';
    assert forall j :: 0 <= j < |key| ==> t[j] == key[j] && t[j] in key;
  }

  lemma ValueIs(p: Parts)
    requires Proper(p)
    ensures p.cr ==> ValueOf(p.w2 + p.value + p.w3 + "\r") == p.value
    ensures !p.cr && p.value != "" ==> ValueOf(p.w2 + p.value) == p.value
    ensures ValueOf("") == ""
  {
    var inner := p.w2 + p.value + p.w3;
    var rest := inner + "\r";
    assert rest[|rest| - 1] == '\r' && rest[..|rest| - 1] == inner;
    TrimIs(p.w2, p.value, p.w3);
    TrimIs(p.w2, p.value, "");
    TrimIs("", "", "");
    assert p.w2 + p.value + "" == p.w2 + p.value && "" + "" + "" == "";
  }

  /** The line without the blanks at its ends. */
  function Core(p: Parts): string {
    p.key + "=" + (if p.cr then p.w2 + p.value + p.w3 + "\r" else if p.value != "" then p.w2 + p.value else "")
  }

  lemma TrimOfWritten(p: Parts)
    requires Proper(p)
    ensures Trim(Written(p)) == Core(p)
  {
    var m := Core(p);
    assert m[0] == p.key[0];
    if p.cr {
      assert m[|m| - 1] == '\r';
      assert Written(p) == p.w1 + m + p.w4;
      TrimIs(p.w1, m, p.w4);
    } else if p.value != "" {
      assert m[|m| - 1] == p.value[|p.value| - 1];
      assert Written(p) == p.w1 + m + (p.w3 + p.w4);
      TrimIs(p.w1, m, p.w3 + p.w4);
    } else {
      assert m[|m| - 1] == '=';
      assert Written(p) == p.w1 + m + (p.w2 + p.w3 + p.w4);
      TrimIs(p.w1, m, p.w2 + p.w3 + p.w4);
    }
  }

  /** A line that sets something is read as that, whatever blanks and carriage return surround it. */
  lemma SettingIsRead(line: string, key: string, value: string, unhex: string -> string)
    requires Sets(line, key, value)
    ensures ParseLine(line, unhex) == Asked(key, value, unhex)
  {
    var p :| Proper(p) && line == Written(p) && p.key == key && p.value == value;
    TrimOfWritten(p);
    ValueIs(p);
    AskedIsAction(key, value, unhex);
    var t := Core(p);
    EqualsSignAt(key, t[|key| + 1..]);
    assert t == key + "=" + t[|key| + 1..] && t[..|key|] == key && t[0] == key[0];
  }

  lemma KeyPart(t: string) returns (key: string, rest: string)
    requires FirstFrom(t, "=", 0) >= 0
    ensures t == key + "=" + rest && |key| == FirstFrom(t, "=", 0) && '=' !in key
  {
    var eq := FirstFrom(t, "=", 0);
    key, rest := t[..eq], t[eq + 1..];
    assert t[eq..eq + 1] == "=";
    forall i | 0 <= i < eq ensures t[i] != '=' {
      if t[i] == '=' {
        assert t[i..i + 1] == "=" && OccursAt(t, "=", i);
        FirstIsLeast(t, "=", 0, i);
      }
    }
  }

  lemma ValuePart(rest: string) returns (w2: string, value: string, w3: string, cr: bool)
    requires rest != "" ==> Visible(rest[|rest| - 1])
    ensures rest == w2 + value + w3 + (if cr then "\r" else "") && value == ValueOf(rest)
    ensures AllBlank(w2) && AllBlank(w3) && NoBlankAtEnds(value)
    ensures value != "" && value[|value| - 1] == '\r' ==> cr
  {
    cr := rest != "" && rest[|rest| - 1] == '\r';
    var inner := if cr then rest[..|rest| - 1] else rest;
    assert rest == inner + (if cr then "\r" else "");
    w2, w3 := Ends(inner);
    value := Trim(inner);
    assert w3 != "" ==> inner[|inner| - 1] == w3[|w3| - 1];
    assert w3 == "" && value != "" ==> inner[|inner| - 1] == value[|value| - 1];
  }

  lemma Regrouped(p: Parts, t: string)
    requires t == p.key + "=" + (p.w2 + p.value + p.w3 + (if p.cr then "\r" else ""))
    ensures Written(p) == p.w1 + t + p.w4
  {
  }

  lemma Ends(line: string) returns (w1: string, w4: string)
    ensures line == w1 + Trim(line) + w4 && AllBlank(w1) && AllBlank(w4) && NoBlankAtEnds(Trim(line))
  {
    var a, b := TrimRemovesExactlyTheBlanks(line);
    w1, w4 := line[..a], line[b..];
  }

  /** The parts of a line that is read as something: what the trimmed line and its value leave. */
  lemma PartsOf(line: string) returns (p: Parts)
    requires var t := Trim(line); var eq := FirstFrom(t, "=", 0); eq > 0 && t[0] != '#'
    ensures var t := Trim(line); var eq := FirstFrom(t, "=", 0);
            Proper(p) && line == Written(p) && p.key == t[..eq] && p.value == ValueOf(t[eq + 1..])
  {
    var t := Trim(line);
    var w1, w4 := Ends(line);
    var key, rest := KeyPart(t);
    assert t[..|key|] == key && t[|key| + 1..] == rest && t[0] == key[0];
    assert rest != "" ==> rest[|rest| - 1] == t[|t| - 1];
    var w2, value, w3, cr := ValuePart(rest);
    p := Parts(w1, key, w2, value, w3, cr, w4);
    Regrouped(p, t);
  }

  /** Every line is read as what it sets, and a line that sets nothing is skipped. */
  lemma LineMeans(line: string, unhex: string -> string)
    ensures forall key, value :: Sets(line, key, value) ==> ParseLine(line, unhex) == Asked(key, value, unhex)
    ensures ParseLine(line, unhex) != Skip ==>
              exists key, value :: Sets(line, key, value) && ParseLine(line, unhex) == Asked(key, value, unhex)
  {
    forall key, value | Sets(line, key, value) ensures ParseLine(line, unhex) == Asked(key, value, unhex) {
      SettingIsRead(line, key, value, unhex);
    }
    if ParseLine(line, unhex) != Skip {
      var p := PartsOf(line);
      assert Sets(line, p.key, p.value);
    }
  }

  /** A comment, and a line without an equals sign, or with nothing but blanks before it, sets nothing. */
  lemma CommentSetsNothing(w: string, rest: string, key: string, value: string)
    requires AllBlank(w)
    ensures !Sets(w + "#" + rest, key, value) && !Sets(w + "=" + rest, key, value)
    ensures '=' !in rest ==> !Sets(rest, key, value)
  {
    if p :| Proper(p) && w + "#" + rest == Written(p) {
      SameStart(p, w, "#" + rest);
    }
    if p :| Proper(p) && w + "=" + rest == Written(p) {
      SameStart(p, w, "=" + rest);
    }
    if p :| Proper(p) && rest == Written(p) {
      assert Written(p)[|p.w1| + |p.key|] == '=';
    }
  }

  lemma SameStart(p: Parts, w: string, m: string)
    requires Proper(p) && AllBlank(w) && m != "" && Visible(m[0]) && w + m == Written(p)
    ensures |w| == |p.w1| && m[0] == p.key[0]
  {
    var s := w + m;
    assert s[|w|] == m[0] && s[|p.w1|] == p.key[0];
    assert forall i :: 0 <= i < |w| ==> s[i] == w[i];
    assert forall i :: 0 <= i < |p.w1| ==> s[i] == p.w1[i];
  }

  // ---------- files ----------

  /** The file is these lines, perhaps with a NUL behind them. */
  predicate IsFile(file: string, lines: seq<string>) {
    && lines != [] && (forall l <- lines :: '\n' !in l) && Join(lines) != ""
    && (file == Join(lines) + ['\0'] || (file == Join(lines) && file[|file| - 1] != '\0'))
  }

  lemma FileIsLines(file: string, lines: seq<string>, unhex: string -> string)
    requires IsFile(file, lines)
    ensures FileActions(file, unhex) == Actions(lines, unhex)
  {
    LinesOfJoin(lines);
    assert Text(file) == Join(lines);
  }

  /** The line sets a key that the store keeps under this name, with or without a NUL behind it. */
  ghost predicate Names(line: string, key: string) {
    exists k, v :: Sets(line, k, v) && k != "CoreModule" && (k == key || (v != "" && k == key + ['\0']))
  }

  /** The last line of a file that names a key decides its record: the decoded digits of a value
      that starts with 0x, no record for an empty value, and any other value with a NUL behind it;
      unless a delete in a later line falls back on that record. */
  lemma SettingTakesEffect(store: Store, crc: Checksum, file: string, lines: seq<string>, unhex: string -> string,
                           i: nat, key: string, value: string)
    requires IsFile(file, lines) && i < |lines| && Sets(lines[i], key, value)
    requires key != "CoreModule" && key[|key| - 1] != '\0'
    requires forall j :: i < j < |lines| ==> !Names(lines[j], key)
    requires forall j :: i < j < |lines| ==> !FallsOn(store, crc, Actions(lines, unhex), j, key)
    ensures Record(Import(store, crc, file, unhex), key) ==
              if value == "" then None
              else if |value| > 2 && value[0] == '0' && value[1] == 'x' then Some(unhex(value[2..]))
              else Some(value + ['\0'])
  {
    FileIsLines(file, lines, unhex);
    SettingIsRead(lines[i], key, value, unhex);
    LastToName(lines, unhex, i, key, value);
    LastLineWins(store, crc, Actions(lines, unhex), key);
  }

  lemma LastTouchIs(actions: seq<Action>, q: string, i: nat)
    requires i < |actions| && Touches(actions[i], q)
    requires forall j :: i < j < |actions| ==> !Touches(actions[j], q)
    ensures LastTouch(actions, q) == i
  {
  }

  lemma TouchesItsKey(key: string, value: string, unhex: string -> string)
    requires key != "" && key != "CoreModule" && key[|key| - 1] != '\0'
    ensures Touches(Asked(key, value, unhex), key)
  {
    StoredKeyPreimages(key, key);
  }

  lemma LastToName(lines: seq<string>, unhex: string -> string, i: nat, key: string, value: string)
    requires i < |lines| && Sets(lines[i], key, value)
    requires key != "" && key != "CoreModule" && key[|key| - 1] != '\0'
    requires forall j :: i < j < |lines| ==> !Names(lines[j], key)
    ensures LastTouch(Actions(lines, unhex), key) == i
  {
    var actions := Actions(lines, unhex);
    SettingIsRead(lines[i], key, value, unhex);
    TouchesItsKey(key, value, unhex);
    forall j | i < j < |lines| ensures !Touches(actions[j], key) {
      OnlyNamesTouch(lines[j], key, unhex);
    }
    LastTouchIs(actions, key, i);
  }

  lemma OnlyNamesTouch(line: string, key: string, unhex: string -> string)
    requires key != "" && key[|key| - 1] != '\0' && !Names(line, key)
    ensures !Touches(ParseLine(line, unhex), key)
  {
    LineMeans(line, unhex);
    forall k, v | Sets(line, k, v) ensures !Touches(Asked(k, v, unhex), key) {
      StoredKeyPreimages(key, k);
      assert k != "CoreModule" && (k == key || (v != "" && k == key + ['\0'])) ==> Names(line, key);
      assert key + "\0" == key + ['\0'];
    }
  }

  /** A file of comments, lines without a key, and lines that set CoreModule changes nothing. */
  lemma NothingSetNothingChanged(store: Store, crc: Checksum, file: string, lines: seq<string>, unhex: string -> string)
    requires IsFile(file, lines)
    requires forall l, k, v :: l in lines && Sets(l, k, v) ==> k == "CoreModule"
    ensures Import(store, crc, file, unhex) == store
  {
    FileIsLines(file, lines, unhex);
    var actions := Actions(lines, unhex);
    forall i | 0 <= i < |actions| ensures actions[i] == Skip {
      LineMeans(lines[i], unhex);
      assert lines[i] in lines;
    }
    SkipsChangeNothing(store, crc, actions);
  }

  lemma {:induction false} SkipsChangeNothing(store: Store, crc: Checksum, actions: seq<Action>)
    requires forall i :: 0 <= i < |actions| ==> actions[i] == Skip
    ensures Fold(store, crc, actions) == store
  {
    if actions != [] { SkipsChangeNothing(store, crc, actions[..|actions| - 1]); }
  }

  /** The single line `MeshID=0x4142` stores the two bytes that these digits decode to. */
  lemma HexValueIsDecoded(store: Store, crc: Checksum, unhex: string -> string)
    ensures Record(Import(store, crc, "MeshID=0x4142", unhex), "MeshID") == Some(unhex("4142"))
  {
    var file := "MeshID=0x4142";
    var p := Parts("", "MeshID", "", "0x4142", "", false, "");
    assert Written(p) == file && Proper(p);
    assert Sets(file, "MeshID", "0x4142");
    assert "0x4142"[2..] == "4142";
    assert Join([file]) == file;
    SettingTakesEffect(store, crc, file, [file], unhex, 0, "MeshID", "0x4142");
  }
}
