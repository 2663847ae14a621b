/** The agent's data store, as the table of its records. A value can be kept as it is, under its
    key, or compressed, under the key followed by the key's checksum. */
module DataStore {
  import opened Bytes

  type Store = map<string, string>

  /** CRC-32C of a key, as the four bytes appended to it. */
  type Checksum = string -> string

  function PackedKey(crc: Checksum, key: string): string {
    key + crc(key)
  }

  /** Put drops one NUL from the end of a key; Delete does not. */
  function StoredKey(key: string): string {
    if |key| > 1 && key[|key| - 1] == '\0' then key[..|key| - 1] else key
  }

  function Put(store: Store, key: string, value: string): Store {
    store[StoredKey(key) := value]
  }

  /** Only a NUL with something in front of it is dropped. */
  lemma NulIsDropped(key: string)
    ensures key != "" ==> StoredKey(key + ['\0']) == key
    ensures StoredKey(['\0']) == ['\0']
    ensures key == "" || key[|key| - 1] != '\0' ==> StoredKey(key) == key
  {
    assert (key + ['\0'])[..|key|] == key;
  }

  /** Without a plain record of the key, the compressed one is removed. */
  function Delete(store: Store, crc: Checksum, key: string): Store {
    if key in store then store - {key} else store - {PackedKey(crc, key)}
  }

  /** What reading a key finds: the plain record first. */
  datatype Found = Missing | Plain(value: string) | Packed(value: string)

  function Find(store: Store, crc: Checksum, key: string): Found {
    if key in store then Plain(store[key])
    else if PackedKey(crc, key) in store then Packed(store[PackedKey(crc, key)])
    else Missing
  }

  function Record(store: Store, key: string): Option<string> {
    if key in store then Some(store[key]) else None
  }

  ghost predicate FourBytes(crc: Checksum) {
    forall key :: |crc(key)| == 4
  }

  lemma PackedKeyIsInjective(crc: Checksum, a: string, b: string)
    requires FourBytes(crc) && PackedKey(crc, a) == PackedKey(crc, b)
    ensures a == b
  {
    assert |crc(a)| == |crc(b)| == 4;
    assert a == PackedKey(crc, a)[..|PackedKey(crc, a)| - 4];
    assert b == PackedKey(crc, b)[..|PackedKey(crc, b)| - 4];
  }

  /** After a delete the key is gone exactly unless both records were there: then the compressed
      one is found from now on. */
  lemma DeleteRemovesOneRecord(store: Store, crc: Checksum, key: string)
    requires FourBytes(crc)
    ensures Find(Delete(store, crc, key), crc, key) ==
              if key in store && PackedKey(crc, key) in store then Packed(store[PackedKey(crc, key)]) else Missing
  {
    assert |crc(key)| == 4 && |PackedKey(crc, key)| == |key| + 4;
  }

  lemma SameRecordsSameStore(a: Store, b: Store)
    requires forall key :: Record(a, key) == Record(b, key)
    ensures a == b
  {
    forall key ensures key in a <==> key in b {
      assert Record(a, key) == Record(b, key);
    }
    forall key | key in a ensures key in b && a[key] == b[key] {
      assert Record(a, key) == Record(b, key);
    }
  }
}
