/** What importing a settings file means for the records of the data store. */
module MshImportResults {
  import opened Bytes
  import opened Strings
  import opened DataStore
  import opened MshImport

  /** The action names this record. */
  predicate Touches(a: Action, q: string) {
    match a
    case Skip => false
    case Delete(k) => k == q
    case Put(k, _) => StoredKey(k) == q
  }

  /** Number of the last action that names a record, or -1. */
  function LastTouch(actions: seq<Action>, q: string): (i: int)
    ensures -1 <= i < |actions|
    ensures i >= 0 ==> Touches(actions[i], q)
    ensures forall j :: i < j < |actions| ==> !Touches(actions[j], q)
  {
    if actions == [] then -1
    else if Touches(actions[|actions| - 1], q) then |actions| - 1
    else LastTouch(actions[..|actions| - 1], q)
  }

  /** Action `i` is a delete that falls back on record `q`: of the key that `q` is the compressed
      record of, there is no plain one. */
  ghost predicate FallsOn(store: Store, crc: Checksum, actions: seq<Action>, i: nat, q: string)
    requires i < |actions|
  {
    && actions[i].Delete? && PackedKey(crc, actions[i].key) == q
    && actions[i].key !in Fold(store, crc, actions[..i])
  }

  /** Some delete falls back on `q` after the last action that names it. */
  ghost predicate Lost(store: Store, crc: Checksum, actions: seq<Action>, q: string) {
    exists i :: LastTouch(actions, q) < i < |actions| && FallsOn(store, crc, actions, i, q)
  }

  lemma LostStep(store: Store, crc: Checksum, actions: seq<Action>, q: string)
    requires actions != [] && !Touches(actions[|actions| - 1], q)
    ensures var front := actions[..|actions| - 1];
            Lost(store, crc, actions, q) <==> Lost(store, crc, front, q) || FallsOn(store, crc, actions, |front|, q)
  {
    var front := actions[..|actions| - 1];
    forall i | 0 <= i < |front| ensures FallsOn(store, crc, actions, i, q) <==> FallsOn(store, crc, front, i, q) {
      assert actions[..i] == front[..i];
    }
    if Lost(store, crc, actions, q) && !FallsOn(store, crc, actions, |front|, q) {
      var i :| LastTouch(actions, q) < i < |actions| && FallsOn(store, crc, actions, i, q);
      assert FallsOn(store, crc, front, i, q);
    }
    if Lost(store, crc, front, q) {
      var i :| LastTouch(front, q) < i < |front| && FallsOn(store, crc, front, i, q);
      assert FallsOn(store, crc, actions, i, q);
    }
  }

  /** Every record after an import, for every store and file: the last line that names it decides
      it, unless a later delete falls back on it; a record no line names stays, with the same
      exception. */
  lemma {:induction false} LastLineWins(store: Store, crc: Checksum, actions: seq<Action>, q: string)
    ensures var i := LastTouch(actions, q);
            Record(Fold(store, crc, actions), q) ==
              if Lost(store, crc, actions, q) then None
              else if i < 0 then Record(store, q)
              else if actions[i].Put? then Some(actions[i].value) else None
  {
    if actions != [] {
      var front, a := actions[..|actions| - 1], actions[|actions| - 1];
      if !Touches(a, q) {
        LastLineWins(store, crc, front, q);
        LostStep(store, crc, actions, q);
      }
    }
  }

  // ---------- importing twice ----------

  /** The second import treats the record differently: a delete falls back on it in only one of the
      two, and there is something to lose. */
  ghost predicate Unsettled(store: Store, crc: Checksum, actions: seq<Action>, q: string) {
    var once, i := Fold(store, crc, actions), LastTouch(actions, q);
    if i < 0 then q in store && !Lost(store, crc, actions, q) && Lost(once, crc, actions, q)
    else actions[i].Put? && Lost(store, crc, actions, q) != Lost(once, crc, actions, q)
  }

  /** Importing the same file twice equals importing it once exactly when no record is unsettled. */
  lemma ImportIsIdempotentIff(store: Store, crc: Checksum, file: string, unhex: string -> string)
    ensures var once := Import(store, crc, file, unhex);
            Import(once, crc, file, unhex) == once <==> forall q :: !Unsettled(store, crc, FileActions(file, unhex), q)
  {
    var actions := FileActions(file, unhex);
    var once := Import(store, crc, file, unhex);
    var twice := Import(once, crc, file, unhex);
    forall q ensures Record(twice, q) == Record(once, q) <==> !Unsettled(store, crc, actions, q) {
      LastLineWins(store, crc, actions, q);
      LastLineWins(once, crc, actions, q);
    }
    if forall q :: !Unsettled(store, crc, actions, q) {
      SameRecordsSameStore(twice, once);
    }
  }

  /** No line names the compressed record of a key that some line deletes: what files written by
      people look like. */
  ghost predicate NamesNoPackedKey(crc: Checksum, actions: seq<Action>) {
    forall i, j :: 0 <= i < |actions| && 0 <= j < |actions| && actions[i].Delete? ==>
                     !Touches(actions[j], PackedKey(crc, actions[i].key))
  }

  /** Is the plain record of a key there after the actions, if it was (not) there before? */
  function Present(actions: seq<Action>, key: string, before: bool): bool {
    if actions == [] then before
    else if Touches(actions[|actions| - 1], key) then actions[|actions| - 1].Put?
    else Present(actions[..|actions| - 1], key, before)
  }

  /** Some delete of the key finds no plain record. */
  predicate DeletesBare(actions: seq<Action>, key: string, before: bool) {
    exists i :: 0 <= i < |actions| && actions[i] == Delete(key) && !Present(actions[..i], key, before)
  }

  lemma {:induction false} PresentIsPresent(store: Store, crc: Checksum, actions: seq<Action>, key: string, n: nat)
    requires n <= |actions| && NamesNoPackedKey(crc, actions)
    requires exists i :: 0 <= i < |actions| && Touches(actions[i], key) && actions[i].Delete?
    ensures Present(actions[..n], key, key in store) <==> key in Fold(store, crc, actions[..n])
  {
    if n > 0 {
      PresentIsPresent(store, crc, actions, key, n - 1);
      assert actions[..n][..n - 1] == actions[..n - 1];
      if actions[n - 1].Delete? {
        assert PackedKey(crc, actions[n - 1].key) != key;
      }
    }
  }

  /** For a deleted key, losing its compressed record is a matter of the order of its own lines. */
  lemma LostMeansDeletedBare(store: Store, crc: Checksum, actions: seq<Action>, i: nat)
    requires FourBytes(crc) && NamesNoPackedKey(crc, actions) && i < |actions| && actions[i].Delete?
    ensures var key := actions[i].key;
            && LastTouch(actions, PackedKey(crc, key)) < 0
            && (Lost(store, crc, actions, PackedKey(crc, key)) <==> DeletesBare(actions, key, key in store))
            && (key in Fold(store, crc, actions) <==> Present(actions, key, key in store))
  {
    var key := actions[i].key;
    var q := PackedKey(crc, key);
    assert Touches(actions[i], key);
    forall j | 0 <= j < |actions|
      ensures FallsOn(store, crc, actions, j, q) <==>
          actions[j] == Delete(key) && !Present(actions[..j], key, key in store)
    {
      PresentIsPresent(store, crc, actions, key, j);
      if actions[j].Delete? && PackedKey(crc, actions[j].key) == q {
        PackedKeyIsInjective(crc, actions[j].key, key);
      }
    }
    PresentIsPresent(store, crc, actions, key, |actions|);
    assert actions[..|actions|] == actions;
    if DeletesBare(actions, key, key in store) {
      var j :| 0 <= j < |actions| && actions[j] == Delete(key) && !Present(actions[..j], key, key in store);
      assert FallsOn(store, crc, actions, j, q);
    }
    if Lost(store, crc, actions, q) {
      var j :| LastTouch(actions, q) < j < |actions| && FallsOn(store, crc, actions, j, q);
      assert actions[j] == Delete(key) && !Present(actions[..j], key, key in store);
    }
  }

  /** The first import removes only the plain record of a deleted key, the second the other. */
  predicate SecondImportRemoves(store: Store, crc: Checksum, actions: seq<Action>, key: string) {
    && PackedKey(crc, key) in store
    && !DeletesBare(actions, key, key in store)
    && DeletesBare(actions, key, Present(actions, key, key in store))
  }

  /** What the store and the order of the lines say before the import: a file that names no
      compressed record can be imported again without effect exactly unless, for some key with a
      compressed record, every delete of the first import finds a plain record and one of the
      second does not. */
  lemma OrdinaryFileIsIdempotentIff(store: Store, crc: Checksum, file: string, unhex: string -> string)
    requires FourBytes(crc) && NamesNoPackedKey(crc, FileActions(file, unhex))
    ensures var actions, once := FileActions(file, unhex), Import(store, crc, file, unhex);
            Import(once, crc, file, unhex) == once <==>
              forall i :: 0 <= i < |actions| && actions[i].Delete? ==>
                  !SecondImportRemoves(store, crc, actions, actions[i].key)
  {
    var actions, once := FileActions(file, unhex), Import(store, crc, file, unhex);
    ImportIsIdempotentIff(store, crc, file, unhex);
    forall i | 0 <= i < |actions| && actions[i].Delete?
      ensures Unsettled(store, crc, actions, PackedKey(crc, actions[i].key)) <==>
          SecondImportRemoves(store, crc, actions, actions[i].key)
    {
      LostMeansDeletedBare(store, crc, actions, i);
      LostMeansDeletedBare(once, crc, actions, i);
    }
    forall q | Unsettled(store, crc, actions, q)
      ensures exists i :: 0 <= i < |actions| && actions[i].Delete? && PackedKey(crc, actions[i].key) == q
    {
      var s :| s in {store, once} && Lost(s, crc, actions, q);
      var i :| LastTouch(actions, q) < i < |actions| && FallsOn(s, crc, actions, i, q);
    }
  }

  // ---------- the core module ----------

  const CORE_NUL := CORE + "\0"

  /** The bytes of the checksum: four, and those of "CoreMo" are not "dule". */
  ghost predicate IsCrc(crc: Checksum) {
    FourBytes(crc) && PackedKey(crc, CORE[..6]) != CORE
  }

  predicate IsPutOf(a: Action, key: string) {
    a.Put? && a.key == key
  }

  /** A line that puts the core's key with a NUL behind it, or names the core's compressed record. */
  predicate ReachesCore(crc: Checksum, a: Action) {
    IsPutOf(a, CORE_NUL) || Touches(a, PackedKey(crc, CORE))
  }

  lemma StoredKeyPreimages(key: string, k: string)
    requires key != "" && key[|key| - 1] != '\0'
    ensures StoredKey(k) == key <==> k == key || k == key + "\0"
  {
    if StoredKey(k) == key != k {
      assert k == k[..|k| - 1] + [k[|k| - 1]];
    }
    assert (key + "\0")[..|key|] == key;
  }

  lemma LineNeverNamesCore(line: string, unhex: string -> string)
    ensures ParseLine(line, unhex).Skip? || ParseLine(line, unhex).key != CORE
  {
  }

  lemma PackedKeyPrefix(crc: Checksum, k: string, key: string)
    requires FourBytes(crc) && PackedKey(crc, k) == key
    ensures |key| >= 4 && k == key[..|key| - 4]
  {
    assert |crc(k)| == 4;
  }

  /** Of the core's two records, no line falls back on either, and the plain one is only ever put. */
  lemma NoLineFallsOnCore(crc: Checksum, file: string, unhex: string -> string, i: nat)
    requires IsCrc(crc) && i < |FileActions(file, unhex)|
    ensures var a := FileActions(file, unhex)[i];
            && (Touches(a, CORE) <==> IsPutOf(a, CORE_NUL))
            && (a.Delete? ==> PackedKey(crc, a.key) != CORE && PackedKey(crc, a.key) != PackedKey(crc, CORE))
  {
    var a := FileActions(file, unhex)[i];
    LineNeverNamesCore(Lines(Text(file))[i], unhex);
    if a.Put? {
      StoredKeyPreimages(CORE, a.key);
    } else if a.Delete? {
      if PackedKey(crc, a.key) == PackedKey(crc, CORE) {
        PackedKeyIsInjective(crc, a.key, CORE);
      }
      if PackedKey(crc, a.key) == CORE {
        PackedKeyPrefix(crc, a.key, CORE);
      }
    }
  }

  lemma CoreRecords(store: Store, crc: Checksum, file: string, unhex: string -> string, q: string)
    requires IsCrc(crc) && (q == CORE || q == PackedKey(crc, CORE))
    ensures var actions := FileActions(file, unhex);
            var i := LastTouch(actions, q);
            Record(Import(store, crc, file, unhex), q) ==
              if i < 0 then Record(store, q) else if actions[i].Put? then Some(actions[i].value) else None
  {
    var actions := FileActions(file, unhex);
    LastLineWins(store, crc, actions, q);
    forall i | 0 <= i < |actions| ensures !FallsOn(store, crc, actions, i, q) {
      NoLineFallsOnCore(crc, file, unhex, i);
    }
  }

  lemma PlainDiffers(crc: Checksum, key: string, value: string, after: Store)
    requires Record(after, key) == Some(value)
    ensures Find(after, crc, key) != Find(map[key := value + "x"], crc, key)
  {
    assert key in after && |value + "x"| != |value|;
  }

  lemma PackedDiffers(crc: Checksum, key: string, value: string, after: Store)
    requires FourBytes(crc) && Record(after, key) == None && Record(after, PackedKey(crc, key)) != Some(value)
    ensures Find(after, crc, key) != Find(map[PackedKey(crc, key) := value], crc, key)
  {
    assert |crc(key)| == 4 && |PackedKey(crc, key)| != |key|;
    assert key !in after;
  }

  /** A store in which such a file changes what reading the core finds. */
  lemma StoreThatLosesCore(crc: Checksum, file: string, unhex: string -> string, i: nat) returns (store: Store)
    requires IsCrc(crc) && i < |FileActions(file, unhex)| && ReachesCore(crc, FileActions(file, unhex)[i])
    ensures Find(Import(store, crc, file, unhex), crc, CORE) != Find(store, crc, CORE)
  {
    var actions, packed := FileActions(file, unhex), PackedKey(crc, CORE);
    var plainAt, packedAt := LastTouch(actions, CORE), LastTouch(actions, packed);
    NoLineFallsOnCore(crc, file, unhex, i);
    if plainAt >= 0 {
      NoLineFallsOnCore(crc, file, unhex, plainAt);
      store := map[CORE := actions[plainAt].value + "x"];
      CoreRecords(store, crc, file, unhex, CORE);
      PlainDiffers(crc, CORE, actions[plainAt].value, Import(store, crc, file, unhex));
    } else {
      var value := if actions[packedAt].Put? then actions[packedAt].value + "x" else "x";
      store := map[packed := value];
      CoreRecords(store, crc, file, unhex, CORE);
      CoreRecords(store, crc, file, unhex, packed);
      OnlyPacked(crc, CORE, value);
      assert actions[packedAt].Put? ==> |actions[packedAt].value| != |value|;
      PackedDiffers(crc, CORE, value, Import(store, crc, file, unhex));
    }
  }

  lemma OnlyPacked(crc: Checksum, key: string, value: string)
    requires FourBytes(crc)
    ensures Record(map[PackedKey(crc, key) := value], key) == None
  {
    assert |crc(key)| == 4 && |PackedKey(crc, key)| != |key|;
  }

  /** The skip of the core's key protects what reading the core finds, in every store, exactly for
      the files without such a line: the store drops the NUL that made the key look different, and
      the key of the compressed record, where the agent keeps its core, is not the skipped one. */
  lemma CoreModuleKeptIff(crc: Checksum, file: string, unhex: string -> string)
    requires IsCrc(crc)
    ensures (forall store :: Find(Import(store, crc, file, unhex), crc, CORE) == Find(store, crc, CORE))
            <==> forall i :: 0 <= i < |FileActions(file, unhex)| ==> !ReachesCore(crc, FileActions(file, unhex)[i])
  {
    var actions := FileActions(file, unhex);
    if i :| 0 <= i < |actions| && ReachesCore(crc, actions[i]) {
      var store := StoreThatLosesCore(crc, file, unhex, i);
    } else {
      forall store: Store ensures Find(Import(store, crc, file, unhex), crc, CORE) == Find(store, crc, CORE) {
        var last := LastTouch(actions, CORE);
        if last >= 0 { NoLineFallsOnCore(crc, file, unhex, last); }
        CoreRecords(store, crc, file, unhex, CORE);
        CoreRecords(store, crc, file, unhex, PackedKey(crc, CORE));
        SameRecordsSameFind(store, Import(store, crc, file, unhex), crc, CORE);
      }
    }
  }

  lemma SameRecordsSameFind(a: Store, b: Store, crc: Checksum, key: string)
    requires Record(a, key) == Record(b, key) && Record(a, PackedKey(crc, key)) == Record(b, PackedKey(crc, key))
    ensures Find(a, crc, key) == Find(b, crc, key)
  {
    assert key in a <==> key in b;
    assert PackedKey(crc, key) in a <==> PackedKey(crc, key) in b;
  }

  // ---------- concrete files ----------

  lemma {:induction false} NoNewlineOneLine(s: string, i: nat)
    requires i <= |s| && '\n' !in s
    ensures Cut(s, i) == ([], 0)
  {
    if i > 0 { NoNewlineOneLine(s, i - 1); }
  }

  /** The file `key=value` is one action. */
  lemma OneLineFile(key: string, value: string, unhex: string -> string)
    requires key != "" && key != CORE && !IsBlank(key[0]) && key[0] != '#' && '=' !in key && '\n' !in key
    requires value == "" || value == "x"
    ensures FileActions(key + "=" + value, unhex) == [if value == "" then Delete(key) else Put(key, "x\0")]
  {
    var t := key + "=" + value;
    assert t[|t| - 1] == if value == "" then '=' else 'x';
    assert Text(t) == t && '\n' !in t;
    NoNewlineOneLine(t, |t|);
    assert Slice(t, (0, |t|)) == t;
    assert Lines(t) == [t];
    assert t[0] == key[0];
    assert Front(t, 0) == 0 && Back(t, 0, |t|) == |t| && Trim(t) == t;
    assert OccursAt(t, "=", |key|);
    assert forall j :: 0 <= j < |key| ==> t[j] == key[j];
    FirstIsLeast(t, "=", 0, |key|);
    var eq := FirstFrom(t, "=", 0);
    assert t[eq..eq + 1] == "=" && t[eq] == '=';
    assert t[..eq] == key && t[eq + 1..] == value;
    TrimShort(value);
    assert ParseLine(t, unhex) == ActionFor(key, value, unhex);
    assert "x" + "\0" == "x\0";
  }

  lemma TrimShort(value: string)
    requires value == "" || value == "x"
    ensures ValueOf(value) == value
  {
    if value == "x" {
      assert Front("x", 0) == 0 && Back("x", 0, 1) == 1;
    } else {
      assert Front("", 0) == 0 && Back("", 0, 0) == 0;
    }
  }

  /** The single line `CoreModule<NUL>=x` replaces any stored core by `x`. */
  lemma NulKeyReplacesCore(store: Store, crc: Checksum, unhex: string -> string)
    ensures Find(Import(store, crc, CORE_NUL + "=" + "x", unhex), crc, CORE) == Plain("x\0")
  {
    OneLineFile(CORE_NUL, "x", unhex);
    StoredKeyPreimages(CORE, CORE_NUL);
    assert Fold(store, crc, []) == store;
  }

  /** The single line of the compressed record's key and an equals sign removes the core the agent
      has stored. */
  lemma PackedKeyRemovesCore(store: Store, crc: Checksum, unhex: string -> string)
    requires FourBytes(crc) && '=' !in crc(CORE) && '\n' !in crc(CORE)
    requires CORE !in store && PackedKey(crc, CORE) in store
    ensures Find(Import(store, crc, PackedKey(crc, CORE) + "=" + "", unhex), crc, CORE) == Missing
  {
    var key := PackedKey(crc, CORE);
    assert |crc(CORE)| == 4 && key[0] == CORE[0];
    OneLineFile(key, "", unhex);
    assert Fold(store, crc, []) == store;
  }

  /** The file `K=`, imported twice into a store with both records of K, deletes both, one at a
      time. */
  lemma SecondDeleteRemovesTheOther(crc: Checksum, unhex: string -> string)
    requires FourBytes(crc)
    ensures var store := map["K" := "a", PackedKey(crc, "K") := "b"];
            var once := Import(store, crc, "K" + "=" + "", unhex);
            once == map[PackedKey(crc, "K") := "b"] && Import(once, crc, "K" + "=" + "", unhex) == map[]
  {
    OneLineFile("K", "", unhex);
    assert |crc("K")| == 4 && |PackedKey(crc, "K")| == 5;
    var store: Store := map["K" := "a", PackedKey(crc, "K") := "b"];
    assert Fold(store, crc, []) == store;
    var once := Import(store, crc, "K" + "=" + "", unhex);
    assert once == store - {"K"} == map[PackedKey(crc, "K") := "b"];
    assert Fold(once, crc, []) == once;
  }
}
