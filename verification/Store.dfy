/**
 The in-memory archive store: create-only puts and a compare-and-swap on versions that
 are never issued twice, so a swap succeeds exactly when nothing was written in between.
 */
module Store {
  import opened Bytes

  type Key = Bytes

  datatype Entry = Entry(bytes: Bytes, version: nat)
  datatype Write = Write(key: Key, bytes: Bytes)

  /** `log[i]` is the newest write of its key. */
  ghost predicate Newest(log: seq<Write>, i: nat)
  {
    i < |log| && forall j :: i < j < |log| ==> log[j].key != log[i].key
  }

  class MemoryStore {
    var entries: map<Key, Entry>
    var nextVersion: nat
    /** Every write ever made; version `v` was issued to `log[v - 1]`. */
    ghost var log: seq<Write>

    ghost predicate Valid()
      reads this
    {
      && nextVersion == |log|
      && forall key :: key in entries ==>
           var e := entries[key];
           0 < e.version <= |log| && log[e.version - 1] == Write(key, e.bytes) && Newest(log, e.version - 1)
    }

    constructor ()
      ensures Valid() && entries == map[] && log == []
    {
      entries, nextVersion, log := map[], 0, [];
    }

    method Insert(key: Key, bytes: Bytes)
      requires Valid()
      modifies this
      ensures Valid() && log == old(log) + [Write(key, bytes)]
      ensures entries == old(entries)[key := Entry(bytes, |log|)]
    {
      nextVersion := nextVersion + 1;
      entries := entries[key := Entry(bytes, nextVersion)];
      log := log + [Write(key, bytes)];
    }

    /** Create an object, accept an identical one, refuse a different one; never overwrite. */
    method PutImmutable(key: Key, bytes: Bytes) returns (ok: bool)
      requires Valid()
      modifies this
      ensures Valid() && (ok <==> key !in old(entries) || old(entries)[key].bytes == bytes)
      ensures key in old(entries) ==> entries == old(entries) && log == old(log)
      ensures ok ==> key in entries && entries[key].bytes == bytes
      ensures forall k :: k in old(entries) ==> k in entries && entries[k] == old(entries)[k]
    {
      if key in entries {
        return entries[key].bytes == bytes;
      }
      Insert(key, bytes);
      return true;
    }

    /** What is read is the newest write of the key, under the version only that write was given. */
    method ReadMutable(key: Key) returns (r: Option<Entry>)
      requires Valid()
      ensures r == if key in entries then Some(entries[key]) else None
      ensures r.Some? ==>
                && 0 < r.value.version <= |log| && Newest(log, r.value.version - 1)
                && log[r.value.version - 1] == Write(key, r.value.bytes)
    {
      if key in entries {
        return Some(entries[key]);
      }
      return None;
    }

    /** Removes an entry; its version stays issued, so no later write is given it. */
    method Delete(key: Key)
      requires Valid()
      modifies this`entries
      ensures Valid() && entries == old(entries) - {key}
    {
      entries := entries - {key};
    }

    /** Replace the entry only if it is still the version the caller read. */
    method CompareAndSwap(key: Key, expected: Option<Entry>, bytes: Bytes) returns (ok: bool)
      requires Valid()
      modifies this
      ensures Valid()
      ensures ok <==> match expected
                      case None => key !in old(entries)
                      case Some(e) => key in old(entries) && old(entries)[key].version == e.version
      ensures ok ==> log == old(log) + [Write(key, bytes)] && entries == old(entries)[key := Entry(bytes, |log|)]
      ensures !ok ==> log == old(log) && entries == old(entries)
    {
      var matches := match expected
        case None => key !in entries
        case Some(e) => key in entries && entries[key].version == e.version;
      if !matches {
        return false;
      }
      Insert(key, bytes);
      return true;
    }
  }

  /**
   A swap on a version read earlier succeeds exactly when the key is still there and was
   not written since: `seen` is the log at the read, `now` the log at the swap.
   */
  lemma SwapMeansUnchanged(seen: seq<Write>, now: seq<Write>, key: Key, read: Entry, current: Entry)
    requires seen <= now && 0 < read.version <= |seen| && 0 < current.version <= |now|
    requires seen[read.version - 1] == Write(key, read.bytes) && Newest(seen, read.version - 1)
    requires now[current.version - 1] == Write(key, current.bytes) && Newest(now, current.version - 1)
    ensures read.version == current.version <==> forall j :: |seen| <= j < |now| ==> now[j].key != key
    ensures read.version == current.version ==> read == current
  {
    if read.version == current.version {
      forall j | |seen| <= j < |now| ensures now[j].key != key {
        assert now[current.version - 1].key == key;
      }
    }
  }
}
