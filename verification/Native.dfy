/**
 The native reader of a pinned head: one budget per request and a shard cache that may
 forget anything at any time. Whenever it and the Worker both answer, they agree.
 */
module Native {
  import opened Bytes
  import opened Versions
  import opened RunFormat
  import opened FenceIndex
  import opened RunTree
  import opened RunReader
  import opened RunBuilder
  import opened Bloom
  import opened Summary
  import opened Views
  import opened Keys
  import opened StateReads
  import Worker

  /** Charge a budget, then fetch and verify. */
  function Fetched(c: Codec, objects: Objects, gets: nat, bytes: nat, asked: seq<Ref>, ref: Ref): Option<Bytes>
  {
    if gets + |asked| + 1 > Worker.MAX_GETS || bytes + Worker.Total(asked) + ref.length > Worker.MAX_BYTES then None
    else if !RefOk(ref, Worker.MIB) then None
    else
      match objects(gets + |asked|, ref)
      case None => None
      case Some(raw) => if Matches(c, ref, raw) then Some(raw) else None
  }

  lemma FetchedOne(c: Codec, objects: Objects, gets: nat, bytes: nat, asked: seq<Ref>, o: Bytes)
    requires Worker.Room(gets, bytes, 3) && Short(asked) && 0 < |o| <= MAX_PAGE && Matches(c, RefOf(c, o), o)
    requires c.sha(o) != ZERO
    requires objects(gets + |asked|, RefOf(c, o)) == Some(o)
    ensures Fetched(c, objects, gets, bytes, asked, RefOf(c, o)) == Some(o)
  {
    hide Worker.Total;
    Worker.TotalBound(asked);
  }

  lemma FetchedHonest(c: Codec, v: View, b: Backing, objects: Objects, gets: nat, bytes: nat, fetch: Fetch)
    requires TreesBack(c, v, b) && Stored(c, b, objects) && Worker.Room(gets, bytes, 3)
    requires forall asked, ref :: fetch(asked, ref) == Fetched(c, objects, gets, bytes, asked, ref)
    ensures AllHonest(c, b.trees, fetch)
  {
    hide Routed, Sorted, TreeRecords, TreeObject, RefOf, TreeOk, Matches, Fetched, Worker.Room, Short, Lossless;
    forall p | 0 <= p < |b.trees| ensures Honest(c, b.trees[p], fetch) {
      assert Roots(c, p, v.indexes[p], b.trees[p]);
      forall asked, o | Short(asked) && TreeObject(c, b.trees[p], o) ensures fetch(asked, RefOf(c, o)) == Some(o) {
        ObjectFits(c, p, b.trees[p], o);
        assert CleanObject(c, o);
        FetchedOne(c, objects, gets, bytes, asked, o);
      }
    }
  }

  class Reader {
    const c: Codec
    const objects: Objects
    const summaries: Summaries
    const number: nat
    const runs: seq<View>
    ghost const backs: seq<Backing>
    var cache: map<Path, Bytes>
    /** The budget of the current request. */
    var gets: nat
    var bytes: nat

    ghost predicate Valid()
      reads this
    {
      Backed(c, runs, backs, summaries) && Worker.Cached(runs, backs, cache)
    }

    constructor (c: Codec, objects: Objects, summaries: Summaries, number: nat, runs: seq<View>,
                 ghost backs: seq<Backing>)
      requires Backed(c, runs, backs, summaries)
      ensures Valid() && this.c == c && this.runs == runs && this.backs == backs && this.number == number
    {
      this.c, this.objects, this.summaries, this.number := c, objects, summaries, number;
      this.runs, this.backs := runs, backs;
      cache, gets, bytes := map[], 0, 0;
    }

    /** The cache may have dropped any of its shards. */
    method Evict()
      requires Valid()
      modifies this`cache
      ensures Valid()
    {
      var kept: set<Path> := *;
      cache := map p | p in cache && p in kept :: cache[p];
    }

    method Shard(j: nat, kind: Kind, index: nat) returns (r: Result<Bytes>)
      requires Valid() && j < |runs| && index < runs[j].shards
      modifies this`cache, this`gets, this`bytes
      ensures Valid() && Backs(c, runs[j], backs[j])
      ensures r.Ok? ==> r.value == Bits(backs[j], kind, index)
      ensures Worker.Spent(old(gets), old(bytes), gets, bytes, 1)
      ensures Summarized(runs[j], summaries) && Worker.Room(old(gets), old(bytes), 1) ==> r.Ok?
    {
      hide MayContain, EncodeShard, TreesBack, Contains;
      Evict();
      var v := runs[j];
      var path := Path(v.run, v.shards, kind, index);
      assert Backs(c, v, backs[j]) && Worker.CachedRun(v, backs[j], cache);
      if path in cache {
        return Ok(cache[path]);
      }
      gets, bytes := gets + 1, bytes + MAX_SHARD;
      if gets > Worker.MAX_GETS || bytes > Worker.MAX_BYTES {
        return Err;
      }
      var raw := summaries(gets, path);
      if raw.None? {
        return Err;
      }
      Worker.ShardSize(c, v, backs[j], kind, index);
      assert Genuine(c, v, backs[j], summaries);
      r := DecodeShard(c, v.run, kind, index, v.shards, raw.value);
      if r.Ok? {
        Worker.CacheMore(c, runs, backs, summaries, cache, j, kind, index);
        cache := cache[path := r.value];
      }
    }

    method MayHold(j: nat, key: Bytes) returns (r: Result<bool>)
      requires Valid() && j < |runs|
      modifies this`cache, this`gets, this`bytes
      ensures Valid() && Backs(c, runs[j], backs[j])
      ensures r.Ok? ==> r.value == MayContain(c, backs[j].filter, runs[j].shards, backs[j].size, key)
      ensures Worker.Spent(old(gets), old(bytes), gets, bytes, 2)
      ensures Summarized(runs[j], summaries) && Worker.Room(old(gets), old(bytes), 2) ==> r.Ok?
    {
      hide Contains, TreesBack, Backed, AddressIndex, SpillIndex, Summarized;
      var v := runs[j];
      Worker.BackedAt(c, runs, backs, summaries, j);
      var address := Shard(j, Address, AddressIndex(c, Group(key), v.shards));
      if address.Err? {
        return Err;
      }
      if Contains(address.value, c.sha(key)) {
        return Ok(true);
      }
      if !Contains(address.value, c.sha(Marker(Group(key)))) {
        return Ok(false);
      }
      var spill := Shard(j, Spill, SpillIndex(c.sha(key), v.shards));
      if spill.Err? {
        return Err;
      }
      return Ok(Contains(spill.value, c.sha(key)));
    }

    method SearchRun(j: nat, key: Bytes, block: U64) returns (r: Result<Option<Bytes>>)
      requires Valid() && j < |runs|
      modifies this`gets, this`bytes
      ensures Valid() && j < |backs|
      ensures r.Ok? ==> IsAnswer(Contents(backs[j].records), key, block, r.value)
      ensures Worker.Spent(old(gets), old(bytes), gets, bytes, 3)
      ensures Stored(c, backs[j], objects) && Worker.Room(old(gets), old(bytes), 3) ==> r.Ok?
    {
      hide Backed, Worker.Cached, Represents, AllHonest, Search, IsAnswer, TreeRecords, Routed, Stored, FilterBacks;
      hide Fetched, Partition;
      Worker.BackedAt(c, runs, backs, summaries, j);
      var v := runs[j];
      var g, b := gets, bytes;
      var fetch: Fetch := (asked: seq<Ref>, ref: Ref) => Fetched(c, objects, g, b, asked, ref);
      if Stored(c, backs[j], objects) && Worker.Room(g, b, 3) {
        FetchedHonest(c, v, backs[j], objects, g, b, fetch);
      }
      RunAnswer(c, v, backs[j], key, block);
      var asked;
      r, asked := RunReader.Lookup(c, v.indexes, key, if block < v.end then block else v.end, fetch, backs[j].trees);
      Worker.TotalBound(asked);
      gets, bytes := gets + |asked|, bytes + Worker.Total(asked);
    }

    /** Probe one run and search it if it may hold the key. */
    method Visit(j: nat, key: Bytes, block: U64) returns (r: Result<Option<Bytes>>, ghost searched: bool)
      requires Valid() && j < |runs|
      modifies this`cache, this`gets, this`bytes
      ensures Valid() && j < |backs|
      ensures r.Ok? ==> IsAnswer(Contents(backs[j].records), key, block, r.value)
      ensures r == Ok(None) && searched && Worker.AllExact(c, runs, backs, key) ==>
                runs[j].end > block && Worker.Below(runs, j, block)
      ensures Worker.Spent(old(gets), old(bytes), gets, bytes,
                           Worker.Step(|runs|, j, false) + if searched then 3 else 0)
      ensures Worker.AllServed(c, runs, backs, objects, summaries) && Worker.Room(old(gets), old(bytes), 5) ==> r.Ok?
    {
      hide Backed, Worker.Cached, IsAnswer, Stored, Summarized, MayContain, Exact, Backs;
      searched := false;
      Worker.BackedAt(c, runs, backs, summaries, j);
      if runs[j].start > block {
        Worker.NotStarted(c, runs[j], backs[j], key, block);
        Worker.SeenNothing(backs[j], key, block);
        return Ok(None), searched;
      }
      var may := MayHold(j, key);
      if may.Err? {
        return Err, searched;
      }
      if !may.value {
        Worker.Denied(c, runs[j], backs[j], key, block);
        Worker.SeenNothing(backs[j], key, block);
        return Ok(None), searched;
      }
      searched := true;
      r := SearchRun(j, key, block);
      if r == Ok(None) && Worker.AllExact(c, runs, backs, key) {
        Worker.NothingSeen(backs[j], key, block);
        Worker.GrantedMiss(c, runs, backs, summaries, j, key, block);
      }
    }

    /**
     Look a key up in the pinned head, newest run first. Even if the cache forgets every
     shard, a lookup without false positives takes at most 2 * runs + 6 GETs.
     */
    method Lookup(key: Bytes, block: U64) returns (r: Result<Option<Bytes>>)
      requires Valid()
      modifies this`cache, this`gets, this`bytes
      ensures Valid()
      ensures block > number ==> r.Err?
      ensures r.Ok? ==> IsAnswer(AllRecords(backs), key, block, r.value)
      ensures Worker.AllExact(c, runs, backs, key) ==> Worker.Spent(old(gets), old(bytes), gets, bytes, 2 * |runs| + 6)
      ensures (Worker.AllExact(c, runs, backs, key) && Worker.AllServed(c, runs, backs, objects, summaries)
               && Worker.Room(old(gets), old(bytes), 2 * |runs| + 6) && block <= number) ==> r.Ok?
    {
      hide Backed, Worker.Cached, IsAnswer, Worker.AllExact, Worker.AllServed, AllRecords, Worker.Spent, Worker.Room;
      hide Worker.Step, Worker.Below, Invisible, Worker.Probes;
      Worker.SpentNone(gets, bytes, 2 * |runs| + 6);
      if block > number {
        return Err;
      }
      var j := |runs|;
      ghost var misses := 0;
      Worker.BackedLength(c, runs, backs, summaries);
      Worker.SpentNone(gets, bytes, Worker.Probes(|runs|, j, |runs|, false));
      while j > 0
        invariant Valid() && 0 <= j <= |runs|
        invariant forall k :: j <= k < |backs| ==> Invisible(backs[k], key, block)
        invariant Worker.AllExact(c, runs, backs, key) ==> misses <= 1 && (misses == 1 ==> Worker.Below(runs, j, block))
        invariant Worker.AllExact(c, runs, backs, key) ==>
          Worker.Spent(old(gets), old(bytes), gets, bytes, Worker.Probes(|runs|, j, |runs|, false) + 3 * misses)
      {
        j := j - 1;
        ghost var g, b := gets, bytes;
        if Worker.AllExact(c, runs, backs, key) && Worker.Room(old(gets), old(bytes), 2 * |runs| + 6) {
          Worker.RoomLeft(old(gets), old(bytes), g, b, |runs|, j, |runs|, false, misses);
        }
        var found, searched := Visit(j, key, block);
        if Worker.AllExact(c, runs, backs, key) {
          Worker.SpentStep(old(gets), old(bytes), g, b, gets, bytes, |runs|, j, |runs|, false, misses, searched);
          AtMostAll(old(gets), old(bytes), gets, bytes, j, |runs|, 6);
        }
        if found.Err? {
          return Err;
        }
        if found.value.Some? {
          FoundAnswer(c, runs, backs, summaries, j, key, block, found.value.value);
          return found;
        }
        Worker.NothingSeen(backs[j], key, block);
        if Worker.AllExact(c, runs, backs, key) {
          Worker.OneMiss(runs, j, block, misses, searched);
        }
        if searched { misses := misses + 1; }
      }
      NothingAnswer(backs, key, block);
      if Worker.AllExact(c, runs, backs, key) {
        AtMostAll(old(gets), old(bytes), gets, bytes, 0, |runs|, 3 * misses);
      }
      return Ok(None);
    }

    /** The account version at a block, tombstones included. */
    method AccountIn(address: Hash20, block: U64, ghost read: Lookups) returns (r: Result<Option<AccountState>>)
      requires Valid()
      modifies this`cache, this`gets, this`bytes
      ensures Valid()
      ensures ReadsAs(AllRecords(backs), block, read) && r.Ok? ==> r == AccountOf(read, address)
      ensures Worker.AllExact(c, runs, backs, AccountKey(address)) ==>
                Worker.Spent(old(gets), old(bytes), gets, bytes, 2 * |runs| + 6)
      ensures (ReadsAs(AllRecords(backs), block, read) && Worker.AllExact(c, runs, backs, AccountKey(address))
               && Worker.AllServed(c, runs, backs, objects, summaries)
               && Worker.Room(old(gets), old(bytes), 2 * |runs| + 6) && block <= number
               && AccountOf(read, address).Ok?) ==> r.Ok?
    {
      hide Backed, IsAnswer, AllRecords, ReadsAs, Worker.AllExact, Worker.AllServed, Worker.Spent, Worker.Room;
      var found := Lookup(AccountKey(address), block);
      if found.Err? {
        return Err;
      }
      if ReadsAs(AllRecords(backs), block, read) {
        SameAnswer(AllRecords(backs), block, read, AccountKey(address), found.value);
      }
      if found.value.None? {
        return Ok(None);
      }
      var state := DecodeState(found.value.value);
      if state.Err? {
        return Err;
      }
      return Ok(Some(state.value));
    }

    method Account(address: Hash20, block: U64, ghost read: Lookups) returns (r: Result<Option<AccountState>>)
      requires Valid()
      modifies this`cache, this`gets, this`bytes
      ensures Valid()
      ensures ReadsAs(AllRecords(backs), block, read) && r.Ok? ==> r == AccountOf(read, address)
      ensures (ReadsAs(AllRecords(backs), block, read) && Worker.AllExact(c, runs, backs, AccountKey(address))
               && Worker.AllServed(c, runs, backs, objects, summaries) && |runs| <= 24 && block <= number
               && AccountOf(read, address).Ok?) ==> r.Ok?
    {
      hide Backed, AllRecords, ReadsAs, Worker.AllExact, Worker.AllServed, Worker.Room, Worker.Spent, AccountOf;
      gets, bytes := 0, 0;
      RoomFresh(|runs|);
      r := AccountIn(address, block, read);
    }

    /**
     One storage slot at a block. Without false positives about its two keys a read takes
     at most 4 * runs + 12 GETs whatever the cache forgets, and never trips its budget.
     */
    method Storage(address: Hash20, slot: Hash32, block: U64, ghost read: Lookups) returns (r: Result<Hash32>)
      requires Valid()
      modifies this`cache, this`gets, this`bytes
      ensures Valid()
      ensures ReadsAs(AllRecords(backs), block, read) && r.Ok? ==> r == StorageOf(read, address, slot)
      ensures ReadsAs(AllRecords(backs), block, read) && Worker.NoChance(c, runs, backs, read, address, slot) ==>
                gets <= 4 * |runs| + 12
      ensures (ReadsAs(AllRecords(backs), block, read) && Worker.NoChance(c, runs, backs, read, address, slot)
               && Worker.AllServed(c, runs, backs, objects, summaries) && |runs| <= 24 && block <= number
               && StorageOf(read, address, slot).Ok?) ==> r.Ok?
    {
      hide Backed, IsAnswer, AllRecords, ReadsAs, Worker.AllExact, Worker.AllServed, StorageKey, Worker.Spent;
      hide Worker.Room, AccountOf;
      gets, bytes := 0, 0;
      RoomFresh(|runs|);
      var account := AccountIn(address, block, read);
      ghost var g, b := gets, bytes;
      RoomAgain(g, b, |runs|);
      if account.Err? {
        return Err;
      }
      if account.value.None? || !account.value.value.live {
        return Ok(ZERO32);
      }
      var key := StorageKey(address, account.value.value.incarnation, slot);
      var found := Lookup(key, block);
      TwoLookups(g, b, gets, bytes, |runs|);
      if found.Err? {
        return Err;
      }
      if ReadsAs(AllRecords(backs), block, read) {
        SameAnswer(AllRecords(backs), block, read, key, found.value);
      }
      if found.value.None? {
        return Ok(ZERO32);
      }
      if |found.value.value| != 32 {
        return Err;
      }
      return Ok(found.value.value);
    }

    method Code(address: Hash20, block: U64, keccak: Bytes -> Hash32, ghost read: Lookups) returns (r: Result<Bytes>)
      requires Valid()
      modifies this`cache, this`gets, this`bytes
      ensures Valid()
      ensures ReadsAs(AllRecords(backs), block, read) && r.Ok? ==> r == CodeOf(read, keccak, Worker.MIB, address)
      ensures ReadsAs(AllRecords(backs), block, read) && r.Ok? ==> CodeMeans(read, keccak, address, r.value)
      ensures (ReadsAs(AllRecords(backs), block, read) && Worker.NoCodeChance(c, runs, backs, read, address)
               && Worker.AllServed(c, runs, backs, objects, summaries) && |runs| <= 24 && block <= number
               && CodeThere(read, keccak, Worker.MIB, address)) ==> r.Ok?
    {
      hide Backed, IsAnswer, AllRecords, ReadsAs, Worker.AllExact, Worker.AllServed, DecodeState, Worker.Spent;
      hide Worker.Room, AccountOf, CodeThere, CodeMeans;
      CodeOfIff(read, keccak, Worker.MIB, address);
      gets, bytes := 0, 0;
      RoomFresh(|runs|);
      var account := AccountIn(address, block, read);
      RoomAgain(gets, bytes, |runs|);
      if account.Err? {
        return Err;
      }
      if account.value.None? || !account.value.value.live {
        return Ok([]);
      }
      var hash := account.value.value.codeHash;
      if hash == keccak([]) {
        return Ok([]);
      }
      var found := Lookup(CodeKey(hash), block);
      if found.Err? {
        return Err;
      }
      if ReadsAs(AllRecords(backs), block, read) {
        SameAnswer(AllRecords(backs), block, read, CodeKey(hash), found.value);
      }
      if found.value.None? {
        return Err;
      }
      if |found.value.value| > Worker.MIB || keccak(found.value.value) != hash {
        return Err;
      }
      return Ok(found.value.value);
    }
  }

  lemma AtMostAll(g0: nat, f0: nat, g1: nat, f1: nat, j: nat, runs: nat, extra: nat)
    requires j <= runs && extra <= 6 && Worker.Spent(g0, f0, g1, f1, Worker.Probes(runs, j, runs, false) + extra)
    ensures Worker.Spent(g0, f0, g1, f1, 2 * runs + 6)
  {
  }

  lemma RoomFresh(runs: nat)
    ensures runs <= 24 ==> Worker.Room(0, 0, 2 * runs + 6)
  {
  }

  lemma RoomAgain(g: nat, b: nat, runs: nat)
    ensures Worker.Spent(0, 0, g, b, 2 * runs + 6) && runs <= 24 ==> Worker.Room(g, b, 2 * runs + 6)
    ensures Worker.Spent(0, 0, g, b, 2 * runs + 6) ==> g <= 4 * runs + 12
  {
  }

  lemma TwoLookups(g: nat, b: nat, g2: nat, b2: nat, runs: nat)
    ensures Worker.Spent(0, 0, g, b, 2 * runs + 6) && Worker.Spent(g, b, g2, b2, 2 * runs + 6) ==> g2 <= 4 * runs + 12
  {
  }

  /** Both readers on one store: storage and code agree, and the Worker's account is the live one. */
  method Parity(native: Reader, worker: Worker.Reader, address: Hash20, slot: Hash32, block: U64,
                keccak: Bytes -> Hash32, ghost read: Lookups)
    returns (storage: (Result<Hash32>, Result<Hash32>), code: (Result<Bytes>, Result<Bytes>),
             account: (Result<Option<AccountState>>, Result<Option<AccountState>>))
    requires native.Valid() && worker.Valid() && worker.backs == native.backs && Worker.AllShaped(worker.backs)
    requires ReadsAs(AllRecords(native.backs), block, read)
    modifies native`cache, native`gets, native`bytes, worker`gets, worker`fetched, worker`shards
    ensures storage.0.Ok? && storage.1.Ok? ==> storage.0 == storage.1
    ensures code.0.Ok? && code.1.Ok? ==> code.0 == code.1
    ensures account.0.Ok? && account.1.Ok? ==>
              account.1 == Ok(if account.0.value.Some? && account.0.value.value.live then account.0.value else None)
  {
    hide ReadsAs, Backed, AllRecords, Worker.AllShaped, StorageOf, CodeOf, Worker.NoChance, Worker.Spent;
    hide Worker.AllServed, Worker.Room;
    var a := native.Storage(address, slot, block, read);
    var b := worker.StorageAt(address, slot, block, read);
    var d := native.Code(address, block, keccak, read);
    var e := worker.CodeAt(address, block, keccak, read);
    var f := native.Account(address, block, read);
    var g, stop := worker.AccountAt(address, block, read);
    return (a, b), (d, e), (f, g);
  }
}
