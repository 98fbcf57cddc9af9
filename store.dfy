/** The key-value store behind the model (store.rs): the in-memory `StoreImpl`, a hash map
    written to disk as one snapshot on `save` and read back by `open`. The file system is a
    value: a map from path to what the file holds. Serialization is exact, so a snapshot is
    the map itself; a file that does not decode is `Undecodable`. */
module Store {
  import opened Wrappers

  datatype Snapshot<K, V> = Encoded(entries: map<K, V>) | Undecodable

  /** Path to file contents; a path that is absent cannot be read. */
  type Disk<K, V> = map<string, Snapshot<K, V>>

  datatype StoreError = DecodeError(path: string)

  /** What `open` finds at `path`: nothing readable gives an empty map, an undecodable
      snapshot an error, and otherwise the decoded map. */
  function Load<K, V>(disk: Disk<K, V>, path: string): (r: Result<map<K, V>, StoreError>)
    ensures path !in disk ==> r == Ok(map[])
    ensures path in disk && disk[path].Undecodable? ==> r == Err(DecodeError(path))
    ensures path in disk && disk[path].Encoded? ==> r == Ok(disk[path].entries)
  {
    if path !in disk then Ok(map[])
    else match disk[path]
      case Encoded(m) => Ok(m)
      case Undecodable => Err(DecodeError(path))
  }

  class StoreImpl<K(==), V> {
    var inner: map<K, V>
    const path: string

    constructor (inner: map<K, V>, path: string)
      ensures this.inner == inner && this.path == path
    {
      this.inner := inner;
      this.path := path;
    }

    /** `open`: a store over the map found at `path`, or the decoding error. */
    static method Open(disk: Disk<K, V>, path: string) returns (r: Result<StoreImpl<K, V>, StoreError>)
      ensures r.Ok? <==> Load(disk, path).Ok?
      ensures r.Err? ==> r.error == DecodeError(path)
      ensures r.Ok? ==> fresh(r.value) && r.value.inner == Load(disk, path).value && r.value.path == path
    {
      if path in disk && disk[path].Undecodable? {
        return Err(DecodeError(path));
      }
      var inner := if path in disk then disk[path].entries else map[];
      var s := new StoreImpl(inner, path);
      return Ok(s);
    }

    /** The value stored under `k`, as `get` reports it. */
    function Lookup(k: K): Option<V>
      reads this
    {
      if k in inner then Some(inner[k]) else None
    }

    /** `get`: a copy of the value under `k`; the store is not changed. */
    method Get(k: K) returns (r: Option<V>)
      ensures r.Some? <==> k in inner
      ensures r.Some? ==> r.value == inner[k]
    {
      r := if k in inner then Some(inner[k]) else None;
    }

    /** `put`: `k` now maps to `v`, every other key keeps its value. */
    method Put(k: K, v: V)
      modifies this
      ensures inner == old(inner)[k := v]
      ensures Lookup(k) == Some(v)
      ensures forall k' :: k' != k ==> (k' in inner <==> k' in old(inner))
      ensures forall k' :: k' != k && k' in inner ==> inner[k'] == old(inner)[k']
    {
      inner := inner[k := v];
    }

    /** `save`: the file at the store's path now holds a snapshot of the whole map. */
    method Save(disk: Disk<K, V>) returns (disk': Disk<K, V>)
      ensures disk' == disk[path := Encoded(inner)]
    {
      disk' := disk[path := Encoded(inner)];
    }
  }

  /** `save` followed by `open` on the same path gives back the saved map. */
  lemma SaveThenLoad<K, V>(disk: Disk<K, V>, path: string, m: map<K, V>)
    ensures Load(disk[path := Encoded(m)], path) == Ok(m)
  {
  }

  /** Saving one store leaves what every other path loads unchanged. */
  lemma SaveLeavesOtherPaths<K, V>(disk: Disk<K, V>, path: string, other: string, m: map<K, V>)
    requires other != path
    ensures Load(disk[path := Encoded(m)], other) == Load(disk, other)
  {
  }

  /** A client of the contracts: put, save and reopen, and the value is still there. */
  method PutSaveReopen<K(==), V>(disk: Disk<K, V>, path: string, k: K, v: V) returns (r: Option<V>)
    requires Load(disk, path).Ok?
    ensures r == Some(v)
  {
    var first := StoreImpl.Open(disk, path);
    var s := first.value;
    s.Put(k, v);
    var d := s.Save(disk);
    var reopened := StoreImpl.Open(d, path);
    r := reopened.value.Get(k);
  }
}
