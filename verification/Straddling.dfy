/**
 Heads whose reads exceed the documented cost, whatever the hash and however the summaries
 err: the account and the slot were both written before the block and both only again after
 it by the newest run, whose partitions of them start no later than the block asked for.
 */
module Straddling {
  import opened Bytes
  import opened Versions
  import opened RunFormat
  import opened FenceIndex
  import opened RunTree
  import opened RunReader
  import opened RunBuilder
  import opened Summary
  import opened Views
  import opened Keys
  import opened StateReads
  import opened ReadCost
  import opened DocumentedCost
  import Worker

  // ---------------------------------------------------------------- one search

  /** Some record of the key's partition stands at or before the target, so a search passes the first index. */
  ghost predicate Entered(c: Codec, b: Backing, key: Bytes, block: int)
  {
    exists r :: r in b.records && Partition(c, r.key) == Partition(c, key) && !Before(Version(key, block), At(r))
  }

  lemma TreeStart(tree: Tree)
    requires tree != []
    ensures TreeRecords(tree) != [] && TreeRecords(tree)[0] == tree[0][0][0]
  {
    LeafFirst(tree[0]);
    FlattenFirst(LeafLists(tree));
  }

  /** A sorted tree with a record at or before the target is searched beyond its first index. */
  lemma TwoOrThree(tree: Tree, r: Record, key: Bytes, block: int)
    requires Sorted(TreeRecords(tree)) && r in TreeRecords(tree) && !Before(Version(key, block), At(r)) && key != []
    ensures tree != [] && SearchGets(tree, key, block) == if |tree| == 1 then 2 else 3
  {
    hide TreeRecords;
    EmptyTreeRecords();
    TreeStart(tree);
    var i :| 0 <= i < |TreeRecords(tree)| && TreeRecords(tree)[i] == r;
    var first := At(tree[0][0][0]);
    if i > 0 && Before(Version(key, block), first) { BeforeTransitive(Version(key, block), first, At(r)); }
  }

  lemma EnteredGets(c: Codec, v: View, b: Backing, key: Bytes, block: int)
    requires TreesBack(c, v, b) && Entered(c, b, key, block) && key != []
    ensures |b.trees| == PARTITIONS && SearchGets(b.trees[Partition(c, key)], key, block) >= 2
  {
    hide TreeRecords, Sorted, SearchGets, Partition, TreeOk, Clean, Lossless;
    var p := Partition(c, key);
    var r :| r in b.records && Partition(c, r.key) == p && !Before(Version(key, block), At(r));
    assert Roots(c, p, v.indexes[p], b.trees[p]);
    TreeSorted(c, p, v.indexes[p], b.trees[p]);
    assert r in Routed(c, b.records, p);
    TwoOrThree(b.trees[p], r, key, block);
  }

  /** The search that answers takes two fetches or more. */
  lemma SeenGets(c: Codec, v: View, b: Backing, key: Bytes, block: int)
    requires Backs(c, v, b) && |b.trees| == PARTITIONS && FilterOk(b.filter, v.shards, b.size)
    requires !Invisible(b, key, block) && key != []
    ensures VisitGets(c, v, b, key, block) >= 2
  {
    hide Represents, Sorted, Routed, MayContain, SearchGets, TreeRecords, Partition;
    var r :| r in b.records && Visible(r, key, block);
    assert Entered(c, b, key, Clamp(v, block)) by { BeforeSame(key, Clamp(v, block), r.block); }
    EnteredGets(c, v, b, key, Clamp(v, block));
  }

  lemma BeforeSame(key: Bytes, a: int, b: int)
    ensures Before(Version(key, a), Version(key, b)) <==> a < b
  {
    if Before(Version(key, a), Version(key, b)) && a >= b { BeforeIrreflexive(Version(key, a)); }
  }

  /** So does a search in vain that passes the first index. */
  lemma LateEnteredGets(c: Codec, v: View, b: Backing, key: Bytes, block: int)
    requires Backs(c, v, b) && |b.trees| == PARTITIONS && FilterOk(b.filter, v.shards, b.size)
    requires Late(v, b, key, block) && Entered(c, b, key, block) && key != []
    ensures VisitGets(c, v, b, key, block) >= 2
  {
    hide Represents, Sorted, Routed, MayContain, SearchGets, TreeRecords, Entered, Partition, Invisible;
    MissStraddles(c, v, b, key, block);
    EnteredGets(c, v, b, key, block);
  }

  // ---------------------------------------------------------------- one key

  /** An older run sees the key, and a run around the block holds it only later, past the start of its partition. */
  ghost predicate Crossed(c: Codec, views: seq<View>, bs: seq<Backing>, key: Bytes, block: int)
  {
    && |views| == |bs| && key != [] && (exists s :: 0 <= s < |bs| && !Invisible(bs[s], key, block))
    && exists k :: 0 <= k < |bs| && Late(views[k], bs[k], key, block) && Entered(c, bs[k], key, block)
  }

  lemma {:induction false} FetchesInclude(c: Codec, views: seq<View>, bs: seq<Backing>, key: Bytes, block: int, j: nat,
                                          k: nat)
    requires Ready(views, bs) && j <= k < |views|
    ensures Fetches(c, views, bs, key, block, j) >= VisitGets(c, views[k], bs[k], key, block)
    decreases k - j
  {
    hide FilterOk, VisitGets;
    if j < k { FetchesInclude(c, views, bs, key, block, j + 1, k); }
  }

  lemma CrossedCosts(c: Codec, views: seq<View>, bs: seq<Backing>, summaries: Summaries, key: Bytes, block: int)
    requires Backed(c, views, bs, summaries) && Ready(views, bs) && Crossed(c, views, bs, key, block)
    ensures KeyFetches(c, views, bs, key, block) >= 4
  {
    hide Backed, Backs, FilterOk, Late, Invisible, VisitGets, Fetches, Lowest, Entered;
    var s := Stop(bs, key, block);
    StopFacts(views, bs, key, block);
    var k :| 0 <= k < |bs| && Late(views[k], bs[k], key, block) && Entered(c, bs[k], key, block);
    LateAbove(c, views, bs, summaries, key, block, s, k);
    Worker.BackedAt(c, views, bs, summaries, s);
    Worker.BackedAt(c, views, bs, summaries, k);
    SeenGets(c, views[s], bs[s], key, block);
    LateEnteredGets(c, views[k], bs[k], key, block);
    SearchesFrom(c, views, bs, key, block, s);
    FetchesInclude(c, views, bs, key, block, s + 1, k);
  }

  // ---------------------------------------------------------------- one read

  /** All runs have started and no two are stored under one digest. */
  ghost predicate Apart(views: seq<View>, block: int)
  {
    && (forall j :: 0 <= j < |views| ==> views[j].start <= block)
    && forall i, j :: 0 <= i < j < |views| ==> views[i].run != views[j].run
  }

  /** Then a lookup probes one address shard in each run it visits. */
  lemma {:induction false} OneShardEach(c: Codec, views: seq<View>, bs: seq<Backing>, key: Bytes, block: int, j: nat)
    requires Ready(views, bs) && Apart(views, block) && j <= |views|
    ensures |AddressShards(c, views, bs, key, block, j)| == |views| - j
    ensures forall p :: p in AddressShards(c, views, bs, key, block, j) ==>
              exists k :: j <= k < |views| && p.run == views[k].run
    decreases |views| - j
  {
    hide FilterOk, AddressIndex;
    if j < |views| { OneShardEach(c, views, bs, key, block, j + 1); }
  }

  /** The oldest run answers one of the keys, so every run is probed. */
  lemma NoneIdle(c: Codec, views: seq<View>, bs: seq<Backing>, account: Bytes, storage: Bytes, block: int)
    requires Ready(views, bs) && Apart(views, block)
    requires Stop(bs, account, block) == 0 || Stop(bs, storage, block) == 0
    ensures Idle(c, views, bs, account, storage, block) == 0
  {
    hide AddressShards, Lowest, Ready, Apart;
    OneShardEach(c, views, bs, account, block, 0);
  }

  /**
   A cold read of two keys of one address that cross the block, one of them down to the
   oldest run, costs at least two GETs more than documented, under every hash and with any
   number of runs.
   */
  lemma StraddledExceeds(c: Codec, views: seq<View>, bs: seq<Backing>, summaries: Summaries, account: Bytes,
                         storage: Bytes, block: int)
    requires Backed(c, views, bs, summaries) && Ready(views, bs) && Route(Group(account)) == Route(Group(storage))
    requires Apart(views, block) && (Stop(bs, account, block) == 0 || Stop(bs, storage, block) == 0)
    requires Crossed(c, views, bs, account, block) && Crossed(c, views, bs, storage, block)
    ensures 1 + ReadGets(c, views, bs, account, Some(storage), block, {}) >= Documented(|views|) + 2
  {
    hide Backed, Ready, Apart, Crossed, KeyShards, KeyFetches, Stop, Idle, Spills, Group, Route;
    CrossedCosts(c, views, bs, summaries, account, block);
    CrossedCosts(c, views, bs, summaries, storage, block);
    NoneIdle(c, views, bs, account, storage, block);
    ShardParts(c, views, bs, account, storage, block);
    assert {} + KeyShards(c, views, bs, account, block) + KeyShards(c, views, bs, storage, block)
        == KeyShards(c, views, bs, account, block) + KeyShards(c, views, bs, storage, block);
  }

  /** The keys of the read cross the block, one of them down to the oldest run. */
  ghost predicate Crossing(c: Codec, views: seq<View>, bs: seq<Backing>, read: Lookups, address: Hash20, slot: Hash32,
                           block: int)
  {
    var account, storage := AccountKey(address), StorageKeyOf(read, address, slot);
    && Apart(views, block) && storage.Some?
    && (Stop(bs, account, block) == 0 || Stop(bs, storage.value, block) == 0)
    && Crossed(c, views, bs, account, block) && Crossed(c, views, bs, storage.value, block)
  }

  /** The Worker's own counter shows it. */
  method ReadExceeds(worker: Worker.Reader, address: Hash20, slot: Hash32, block: U64, ghost read: Lookups)
    returns (r: Result<Hash32>)
    requires worker.Valid() && Worker.AllShaped(worker.backs) && worker.gets == 1 && worker.shards == map[]
    requires ReadsAs(AllRecords(worker.backs), block, read)
    requires Crossing(worker.c, worker.runs, worker.backs, read, address, slot, block)
    modifies worker`gets, worker`fetched, worker`shards
    ensures r.Ok? ==> r == StorageOf(read, address, slot) && worker.gets >= Documented(|worker.runs|) + 2
  {
    hide Backed, Ready, ReadGets, AccountKey, ReadsAs, StorageOf, StorageKeyOf, Worker.AllShaped, Worker.Cached;
    hide Apart, Crossed, Stop;
    assert worker.shards.Keys == {};
    BackedReady(worker.c, worker.runs, worker.backs, worker.summaries);
    StoredRoute(read, address, slot);
    StraddledExceeds(worker.c, worker.runs, worker.backs, worker.summaries, AccountKey(address),
                     StorageKeyOf(read, address, slot).value, block);
    r := worker.StorageAt(address, slot, block, read);
  }
}
