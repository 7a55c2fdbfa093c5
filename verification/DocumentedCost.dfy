/**
 The documented cost of a cold account-plus-storage read, 1 + runs + 6 GETs, against what
 the Worker really spends. It suffices when the summaries do not err, the address has no
 marker in a started run, and neither key is searched in vain; in general it holds exactly
 when what spill shards and vain searches cost is saved elsewhere.
 */
module DocumentedCost {
  import opened Bytes
  import opened Versions
  import opened RunFormat
  import opened FenceIndex
  import opened RunTree
  import opened RunReader
  import opened RunBuilder
  import opened Bloom
  import opened Summary
  import opened Views
  import opened Keys
  import opened StateReads
  import opened ReadCost
  import Worker

  function Documented(runs: nat): nat { 1 + runs + 6 }

  // ---------------------------------------------------------------- shards

  lemma {:induction false} AddressFew(c: Codec, views: seq<View>, bs: seq<Backing>, key: Bytes, block: int, j: nat)
    requires Ready(views, bs) && j <= |views|
    ensures |AddressShards(c, views, bs, key, block, j)| <= |views| - j
    decreases |views| - j
  {
    hide AddressPath, FilterOk;
    if j < |views| { AddressFew(c, views, bs, key, block, j + 1); }
  }

  lemma {:induction false} AddressMonotone(c: Codec, views: seq<View>, bs: seq<Backing>, key: Bytes, block: int,
                                           i: nat, j: nat)
    requires Ready(views, bs) && i <= j <= |views|
    ensures AddressShards(c, views, bs, key, block, j) <= AddressShards(c, views, bs, key, block, i)
    decreases j - i
  {
    hide AddressPath, FilterOk;
    if i < j { AddressMonotone(c, views, bs, key, block, i + 1, j); }
  }

  /** Two keys of one address are probed in the same shards. */
  lemma {:induction false} AddressShared(c: Codec, views: seq<View>, bs: seq<Backing>, a: Bytes, b: Bytes, block: int,
                                         j: nat)
    requires Ready(views, bs) && j <= |views| && Route(Group(a)) == Route(Group(b))
    ensures AddressShards(c, views, bs, a, block, j) == AddressShards(c, views, bs, b, block, j)
    decreases |views| - j
  {
    hide FilterOk, Group, Route;
    if j < |views| { AddressShared(c, views, bs, a, b, block, j + 1); }
  }

  lemma StorageRoute(address: Hash20, incarnation: U64, slot: Hash32)
    ensures Route(Group(StorageKey(address, incarnation, slot))) == Route(Group(AccountKey(address)))
  {
    var key := StorageKey(address, incarnation, slot);
    StorageFields(address, incarnation, slot);
    assert Route(Group(key)) == address by { assert Group(key)[1..] == key[1..21]; }
    assert Route(Group(AccountKey(address))) == address;
  }

  lemma {:induction false} KindsApart(c: Codec, views: seq<View>, bs: seq<Backing>, key: Bytes, block: int, j: nat)
    requires Ready(views, bs) && j <= |views|
    ensures forall p :: p in AddressShards(c, views, bs, key, block, j) ==> p.kind == Address
    ensures forall p :: p in SpillShards(c, views, bs, key, block, j) ==> p.kind == Spill
    decreases |views| - j
  {
    hide FilterOk, Deferred, AddressIndex, SpillIndex;
    if j < |views| { KindsApart(c, views, bs, key, block, j + 1); }
  }

  /** A group that no started run marks costs no spill shard. */
  lemma {:induction false} LightSpillsNothing(c: Codec, views: seq<View>, bs: seq<Backing>, key: Bytes, block: int,
                                              j: nat)
    requires Ready(views, bs) && j <= |views| && Worker.AllExact(c, views, bs, key) && LightAt(views, bs, key, block)
    ensures SpillShards(c, views, bs, key, block, j) == {}
    decreases |views| - j
  {
    hide FilterOk, SpillPath, Heavy, MayContain;
    if j < |views| {
      LightSpillsNothing(c, views, bs, key, block, j + 1);
      assert Exact(c, views[j], bs[j], key);
    }
  }

  /** No run that starts by the block holds more keys of the group than a light one may. */
  ghost predicate LightAt(views: seq<View>, bs: seq<Backing>, key: Bytes, block: int)
  {
    |views| == |bs| && forall j :: 0 <= j < |views| && views[j].start <= block ==> !Heavy(bs[j].records, Group(key))
  }

  // ---------------------------------------------------------------- searches

  /** A run around the block holds the key only after it, while an older run holds it too. */
  ghost predicate Straddled(views: seq<View>, bs: seq<Backing>, key: Bytes, block: int)
  {
    && |views| == |bs|
    && exists i, j :: 0 <= i < j < |views| && HasKey(bs[i].records, key) && Late(views[j], bs[j], key, block)
  }

  /** The run has started and holds the key, but no version of it that is visible yet. */
  ghost predicate Late(v: View, b: Backing, key: Bytes, block: int)
  {
    v.start <= block && HasKey(b.records, key) && Invisible(b, key, block)
  }

  lemma SearchedIff(c: Codec, v: View, b: Backing, key: Bytes, block: int)
    requires Backs(c, v, b) && Exact(c, v, b, key)
    ensures Searched(c, v, b, key, block) <==> v.start <= block && HasKey(b.records, key)
  {
    hide MayContain, TreesBack, Heavy;
  }

  /** A run that sees the key has started. */
  lemma SeenStarted(c: Codec, v: View, b: Backing, key: Bytes, block: int)
    requires Backs(c, v, b) && !Invisible(b, key, block)
    ensures v.start <= block && HasKey(b.records, key)
  {
    hide FilterBacks, Represents, Sorted, Routed;
    var r :| r in b.records && Visible(r, key, block);
  }

  /** Before a started run every held key is visible. */
  lemma PastIsSeen(c: Codec, views: seq<View>, bs: seq<Backing>, summaries: Summaries, key: Bytes, block: int, i: nat,
                   j: nat)
    requires Backed(c, views, bs, summaries) && i < j < |views| && views[j].start <= block && HasKey(bs[i].records, key)
    ensures !Invisible(bs[i], key, block)
  {
    hide FilterBacks, Represents, Sorted, Routed, Genuine;
    assert Backs(c, views[i], bs[i]);
    if Invisible(bs[i], key, block) { MissStraddles(c, views[i], bs[i], key, block); }
  }

  /** Of runs that do not see the key, at most one is searched. */
  lemma {:induction false} VainFew(c: Codec, views: seq<View>, bs: seq<Backing>, summaries: Summaries, key: Bytes,
                                   block: int, j: nat)
    requires Backed(c, views, bs, summaries) && Ready(views, bs) && Worker.AllExact(c, views, bs, key) && j <= |views|
    requires forall k :: j <= k < |views| ==> Invisible(bs[k], key, block)
    ensures Searches(c, views, bs, key, block, j)
            == if exists k :: j <= k < |views| && Late(views[k], bs[k], key, block) then 1 else 0
    decreases |views| - j
  {
    hide Backs, Genuine, FilterOk, Exact, HasKey, Invisible, Searched;
    if j < |views| {
      VainFew(c, views, bs, summaries, key, block, j + 1);
      assert Backs(c, views[j], bs[j]) && Exact(c, views[j], bs[j], key);
      SearchedIff(c, views[j], bs[j], key, block);
      if Searched(c, views[j], bs[j], key, block) {
        forall k | j < k < |views| ensures !Late(views[k], bs[k], key, block) {
          if Late(views[k], bs[k], key, block) { PastIsSeen(c, views, bs, summaries, key, block, j, k); }
        }
      }
    }
  }

  /** What the runs above the last visited one are searched for. */
  lemma AboveSearches(c: Codec, views: seq<View>, bs: seq<Backing>, summaries: Summaries, key: Bytes, block: int)
    requires Backed(c, views, bs, summaries) && Ready(views, bs) && Worker.AllExact(c, views, bs, key) && views != []
    ensures
      var s := Stop(bs, key, block);
      && s < |views|
      && (!Invisible(bs[s], key, block) ==>
            && Searched(c, views[s], bs[s], key, block)
            && Searches(c, views, bs, key, block, s + 1) == if Straddled(views, bs, key, block) then 1 else 0)
      && (Invisible(bs[s], key, block) ==>
            && s == 0 && !Straddled(views, bs, key, block) && Searches(c, views, bs, key, block, 0) <= 1)
  {
    hide Backed, Backs, FilterOk, Exact, HasKey, Invisible, Searched, Searches, Lowest, Ready;
    var s := Stop(bs, key, block);
    StopFacts(views, bs, key, block);
    if Invisible(bs[s], key, block) {
      VainFew(c, views, bs, summaries, key, block, 0);
      UnseenIsPlain(c, views, bs, summaries, key, block);
    } else {
      Worker.BackedAt(c, views, bs, summaries, s);
      ExactAt(c, views, bs, key, s);
      SeenStarted(c, views[s], bs[s], key, block);
      SearchedIff(c, views[s], bs[s], key, block);
      VainFew(c, views, bs, summaries, key, block, s + 1);
      forall i, j | 0 <= i < j < |views| && HasKey(bs[i].records, key) && Late(views[j], bs[j], key, block)
        ensures s < j
      {
        if j < s { PastIsSeen(c, views, bs, summaries, key, block, j, s); }
      }
      assert forall j :: s < j < |views| && Late(views[j], bs[j], key, block) ==> HasKey(bs[s].records, key);
    }
  }

  lemma StopFacts(views: seq<View>, bs: seq<Backing>, key: Bytes, block: int)
    requires Ready(views, bs) && views != []
    ensures
      var s := Stop(bs, key, block);
      && s < |bs| == |views| && (forall k :: s < k < |bs| ==> Invisible(bs[k], key, block))
      && (Invisible(bs[s], key, block) ==> s == 0 && forall k :: 0 <= k < |bs| ==> Invisible(bs[k], key, block))
  {
    hide Invisible, FilterOk;
    var s := Stop(bs, key, block);
    forall k | s < k < |bs| ensures Invisible(bs[k], key, block) { AboveStop(bs, key, block, |bs|, k); }
    StopSees(bs, key, block, |bs|);
  }

  lemma {:induction false} StopSees(bs: seq<Backing>, key: Bytes, block: int, n: nat)
    requires 0 < n <= |bs|
    ensures Lowest(bs, key, block, n) > 0 ==> !Invisible(bs[Lowest(bs, key, block, n)], key, block)
  {
    hide Invisible;
    if n > 1 { StopSees(bs, key, block, n - 1); }
  }

  lemma ExactAt(c: Codec, views: seq<View>, bs: seq<Backing>, key: Bytes, j: nat)
    requires Worker.AllExact(c, views, bs, key) && j < |views|
    ensures j < |bs| && FilterOk(bs[j].filter, views[j].shards, bs[j].size) && Exact(c, views[j], bs[j], key)
  {
  }

  lemma SearchesFrom(c: Codec, views: seq<View>, bs: seq<Backing>, key: Bytes, block: int, j: nat)
    requires Ready(views, bs) && j < |views|
    ensures Searches(c, views, bs, key, block, j)
            == (if Searched(c, views[j], bs[j], key, block) then 1 else 0) + Searches(c, views, bs, key, block, j + 1)
    ensures Fetches(c, views, bs, key, block, j)
            == VisitGets(c, views[j], bs[j], key, block) + Fetches(c, views, bs, key, block, j + 1)
  {
  }

  /** Without false positives a key is searched in at most two runs, and in two exactly when it is straddled. */
  lemma SearchesIff(c: Codec, views: seq<View>, bs: seq<Backing>, summaries: Summaries, key: Bytes, block: int)
    requires Backed(c, views, bs, summaries) && Ready(views, bs) && Worker.AllExact(c, views, bs, key)
    ensures Searches(c, views, bs, key, block, Stop(bs, key, block)) <= 2
    ensures Searches(c, views, bs, key, block, Stop(bs, key, block)) == 2 <==> Straddled(views, bs, key, block)
  {
    hide Backed, Worker.AllExact, FilterOk, Invisible, Searched, Searches, Lowest, Ready;
    BackedReady(c, views, bs, summaries);
    if views != [] {
      AboveSearches(c, views, bs, summaries, key, block);
      SearchesFrom(c, views, bs, key, block, Stop(bs, key, block));
    } else {
      NoRuns(c, views, bs, key, block);
    }
  }

  lemma NoRuns(c: Codec, views: seq<View>, bs: seq<Backing>, key: Bytes, block: int)
    requires Ready(views, bs) && views == []
    ensures Stop(bs, key, block) == 0 && Searches(c, views, bs, key, block, 0) == 0
    ensures Fetches(c, views, bs, key, block, 0) == 0
  {
  }

  /** A run that holds the key holds something in the key's partition, so searching it fetches something. */
  lemma SearchedFetches(c: Codec, v: View, b: Backing, key: Bytes, block: int)
    requires Backs(c, v, b) && |b.trees| == PARTITIONS && FilterOk(b.filter, v.shards, b.size)
    requires Searched(c, v, b, key, block) && HasKey(b.records, key) && key != []
    ensures VisitGets(c, v, b, key, block) >= 1
  {
    hide FilterBacks, FilterOk, MayContain, Sorted, Represents, Partition;
    var r :| r in b.records && r.key == key;
    assert r in Routed(c, b.records, Partition(c, key));
    EmptyTreeRecords();
  }

  lemma EmptyTreeRecords()
    ensures TreeRecords([]) == []
  {
  }

  // ---------------------------------------------------------------- the parts of the cost

  /** The fetches of the search that answers the key. */
  ghost function Hit(c: Codec, views: seq<View>, bs: seq<Backing>, key: Bytes, block: int): (n: nat)
    requires Ready(views, bs)
    ensures n <= 3
  {
    var s := Stop(bs, key, block);
    if views == [] || Invisible(bs[s], key, block) then 0 else VisitGets(c, views[s], bs[s], key, block)
  }

  /** The fetches of searches that answer nothing. */
  ghost function Vain(c: Codec, views: seq<View>, bs: seq<Backing>, key: Bytes, block: int): int
    requires Ready(views, bs)
  {
    KeyFetches(c, views, bs, key, block) - Hit(c, views, bs, key, block)
  }

  /** The runs whose address shard the read does not fetch. */
  ghost function Idle(c: Codec, views: seq<View>, bs: seq<Backing>, account: Bytes, storage: Bytes, block: int): int
    requires Ready(views, bs)
  {
    var a, s := Stop(bs, account, block), Stop(bs, storage, block);
    |views| - |AddressShards(c, views, bs, account, block, if a < s then a else s)|
  }

  /** The spill shards the read fetches. */
  ghost function Spills(c: Codec, views: seq<View>, bs: seq<Backing>, account: Bytes, storage: Bytes, block: int): nat
    requires Ready(views, bs)
  {
    |SpillShards(c, views, bs, account, block, Stop(bs, account, block))
     + SpillShards(c, views, bs, storage, block, Stop(bs, storage, block))|
  }

  lemma ShardParts(c: Codec, views: seq<View>, bs: seq<Backing>, account: Bytes, storage: Bytes, block: int)
    requires Ready(views, bs) && Route(Group(account)) == Route(Group(storage))
    ensures |KeyShards(c, views, bs, account, block) + KeyShards(c, views, bs, storage, block)|
            == |views| - Idle(c, views, bs, account, storage, block) + Spills(c, views, bs, account, storage, block)
  {
    hide AddressShards, SpillShards, FilterOk, Lowest, Ready, Group, Route;
    var a, s := Stop(bs, account, block), Stop(bs, storage, block);
    StopBound(views, bs, account, block);
    StopBound(views, bs, storage, block);
    var low := if a < s then a else s;
    AddressShared(c, views, bs, account, storage, block, s);
    AddressMonotone(c, views, bs, account, block, low, a);
    AddressMonotone(c, views, bs, account, block, low, s);
    KindsApart(c, views, bs, account, block, low);
    KindsApart(c, views, bs, account, block, a);
    KindsApart(c, views, bs, storage, block, s);
    var probed := AddressShards(c, views, bs, account, block, low);
    var spilled := SpillShards(c, views, bs, account, block, a) + SpillShards(c, views, bs, storage, block, s);
    assert KeyShards(c, views, bs, account, block) + KeyShards(c, views, bs, storage, block) == probed + spilled;
    assert probed !! spilled;
  }

  lemma StopBound(views: seq<View>, bs: seq<Backing>, key: Bytes, block: int)
    requires Ready(views, bs)
    ensures Stop(bs, key, block) <= |views|
  {
  }

  /** Spill shards and vain searches cost no more than idle runs and short searches save. */
  ghost predicate Balanced(c: Codec, views: seq<View>, bs: seq<Backing>, account: Bytes, storage: Bytes, block: int)
    requires Ready(views, bs)
  {
    Spills(c, views, bs, account, storage, block)
      + Vain(c, views, bs, account, block) + Vain(c, views, bs, storage, block)
    <= Idle(c, views, bs, account, storage, block)
      + (3 - Hit(c, views, bs, account, block)) + (3 - Hit(c, views, bs, storage, block))
  }

  /**
   The documented cost holds exactly when what the read spends on spill shards and on vain
   searches is made up by runs it does not probe and searches that take fewer than three GETs.
   */
  lemma DocumentedIff(c: Codec, views: seq<View>, bs: seq<Backing>, account: Bytes, storage: Bytes, block: int)
    requires Ready(views, bs) && Route(Group(account)) == Route(Group(storage))
    ensures 1 + ReadGets(c, views, bs, account, Some(storage), block, {}) <= Documented(|views|) <==>
            Balanced(c, views, bs, account, storage, block)
  {
    hide KeyShards, KeyFetches, Hit, Idle, Spills, Ready, Group, Route;
    ShardParts(c, views, bs, account, storage, block);
    assert {} + KeyShards(c, views, bs, account, block) + KeyShards(c, views, bs, storage, block)
        == KeyShards(c, views, bs, account, block) + KeyShards(c, views, bs, storage, block);
  }

  /** No part is negative. */
  lemma IdleBound(c: Codec, views: seq<View>, bs: seq<Backing>, account: Bytes, storage: Bytes, block: int)
    requires Ready(views, bs)
    ensures Idle(c, views, bs, account, storage, block) >= 0
  {
    hide AddressShards, Lowest, Ready;
    var a, s := Stop(bs, account, block), Stop(bs, storage, block);
    StopBound(views, bs, account, block);
    StopBound(views, bs, storage, block);
    AddressFew(c, views, bs, account, block, if a < s then a else s);
  }

  // ---------------------------------------------------------------- searches in vain

  /** Of the runs of a head, at most one is late for a key. */
  lemma OneLate(c: Codec, views: seq<View>, bs: seq<Backing>, summaries: Summaries, key: Bytes, block: int, i: nat,
                j: nat)
    requires Backed(c, views, bs, summaries) && i < |views| && j < |views|
    requires Late(views[i], bs[i], key, block) && Late(views[j], bs[j], key, block)
    ensures i == j
  {
    hide Backed, Invisible, HasKey;
    if i < j { PastIsSeen(c, views, bs, summaries, key, block, i, j); }
    if j < i { PastIsSeen(c, views, bs, summaries, key, block, j, i); }
  }

  /** A late run lies above every run that sees the key. */
  lemma LateAbove(c: Codec, views: seq<View>, bs: seq<Backing>, summaries: Summaries, key: Bytes, block: int, s: nat,
                  k: nat)
    requires Backed(c, views, bs, summaries) && s < |views| && k < |views|
    requires !Invisible(bs[s], key, block) && Late(views[k], bs[k], key, block)
    ensures s < k && HasKey(bs[s].records, key)
  {
    hide Backed, Backs, Invisible, HasKey;
    Worker.BackedAt(c, views, bs, summaries, s);
    SeenStarted(c, views[s], bs[s], key, block);
    if k < s { PastIsSeen(c, views, bs, summaries, key, block, k, s); }
  }

  /** The late run is searched down to its own fetches, at the block itself. */
  lemma LateVisit(c: Codec, v: View, b: Backing, key: Bytes, block: int)
    requires Backs(c, v, b) && |b.trees| == PARTITIONS && FilterOk(b.filter, v.shards, b.size) && Exact(c, v, b, key)
    requires Late(v, b, key, block)
    ensures VisitGets(c, v, b, key, block) == SearchGets(b.trees[Partition(c, key)], key, block)
    ensures key != [] ==> VisitGets(c, v, b, key, block) > 0
  {
    hide Backs, Exact, FilterOk, HasKey, Invisible, Searched, SearchGets, Partition;
    SearchedIff(c, v, b, key, block);
    MissStraddles(c, v, b, key, block);
    if key != [] { SearchedFetches(c, v, b, key, block); }
  }

  /** Runs that neither see the key nor are late for it fetch nothing. */
  lemma NotLate(c: Codec, v: View, b: Backing, key: Bytes, block: int)
    requires Backs(c, v, b) && |b.trees| == PARTITIONS && FilterOk(b.filter, v.shards, b.size) && Exact(c, v, b, key)
    requires Invisible(b, key, block) && !Late(v, b, key, block)
    ensures VisitGets(c, v, b, key, block) == 0
  {
    hide Backs, Exact, FilterOk, HasKey, Invisible, Searched, SearchGets, Partition;
    SearchedIff(c, v, b, key, block);
  }

  /** What fetches in the runs from `j` on, none of which sees the key: the late one. */
  lemma {:induction false} FetchesLate(c: Codec, views: seq<View>, bs: seq<Backing>, summaries: Summaries, key: Bytes,
                                       block: int, j: nat)
    requires Backed(c, views, bs, summaries) && Ready(views, bs) && Worker.AllExact(c, views, bs, key) && j <= |views|
    requires forall k :: j <= k < |views| ==> Invisible(bs[k], key, block)
    ensures (forall k :: j <= k < |views| ==> !Late(views[k], bs[k], key, block)) ==>
              Fetches(c, views, bs, key, block, j) == 0
    ensures forall k :: j <= k < |views| && Late(views[k], bs[k], key, block) ==>
              Fetches(c, views, bs, key, block, j) == VisitGets(c, views[k], bs[k], key, block)
    decreases |views| - j
  {
    hide Backed, Backs, FilterOk, Exact, Late, Invisible, VisitGets;
    if j < |views| {
      FetchesLate(c, views, bs, summaries, key, block, j + 1);
      Worker.BackedAt(c, views, bs, summaries, j);
      ExactAt(c, views, bs, key, j);
      if Late(views[j], bs[j], key, block) {
        forall k | j < k < |views| ensures !Late(views[k], bs[k], key, block) {
          if Late(views[k], bs[k], key, block) { OneLate(c, views, bs, summaries, key, block, j, k); }
        }
      } else {
        NotLate(c, views[j], bs[j], key, block);
      }
    }
  }

  /** The fetches of searching the late run's own tree, if there is one. */
  ghost function LateGets(c: Codec, views: seq<View>, bs: seq<Backing>, key: Bytes, block: int): (n: nat)
    requires Ready(views, bs)
    ensures n <= 3
  {
    if k :| 0 <= k < |views| && Late(views[k], bs[k], key, block)
    then SearchGets(bs[k].trees[Partition(c, key)], key, block) else 0
  }

  /**
   Without false positives all a key costs in vain is one search of the late run, the one
   around the block that holds the key only after it.
   */
  lemma VainExact(c: Codec, views: seq<View>, bs: seq<Backing>, summaries: Summaries, key: Bytes, block: int)
    requires Backed(c, views, bs, summaries) && Ready(views, bs) && Worker.AllExact(c, views, bs, key)
    ensures Vain(c, views, bs, key, block) == LateGets(c, views, bs, key, block)
    ensures forall k :: 0 <= k < |views| && Late(views[k], bs[k], key, block) ==>
              Vain(c, views, bs, key, block) == SearchGets(bs[k].trees[Partition(c, key)], key, block)
    ensures (forall k :: 0 <= k < |views| ==> !Late(views[k], bs[k], key, block)) ==>
              Vain(c, views, bs, key, block) == 0
  {
    hide Backed, Backs, FilterOk, Exact, Late, Invisible, VisitGets, SearchGets, Fetches, Lowest, Partition;
    if views == [] {
      NoRuns(c, views, bs, key, block);
    } else {
      VainFetches(c, views, bs, summaries, key, block);
      forall k | 0 <= k < |views| && Late(views[k], bs[k], key, block)
        ensures Vain(c, views, bs, key, block) == SearchGets(bs[k].trees[Partition(c, key)], key, block)
      {
        Worker.BackedAt(c, views, bs, summaries, k);
        ExactAt(c, views, bs, key, k);
        LateVisit(c, views[k], bs[k], key, block);
      }
    }
  }

  lemma VainFetches(c: Codec, views: seq<View>, bs: seq<Backing>, summaries: Summaries, key: Bytes, block: int)
    requires Backed(c, views, bs, summaries) && Ready(views, bs) && Worker.AllExact(c, views, bs, key) && views != []
    ensures (forall k :: 0 <= k < |views| ==> !Late(views[k], bs[k], key, block)) ==>
              Vain(c, views, bs, key, block) == 0
    ensures forall k :: 0 <= k < |views| && Late(views[k], bs[k], key, block) ==>
              Vain(c, views, bs, key, block) == VisitGets(c, views[k], bs[k], key, block)
  {
    hide Backed, Worker.AllExact, FilterOk, Late, Invisible, VisitGets, Fetches, Lowest, Ready;
    var s := Stop(bs, key, block);
    StopFacts(views, bs, key, block);
    SearchesFrom(c, views, bs, key, block, s);
    if Invisible(bs[s], key, block) {
      FetchesLate(c, views, bs, summaries, key, block, s);
    } else {
      FetchesLate(c, views, bs, summaries, key, block, s + 1);
      forall k | 0 <= k < |views| && Late(views[k], bs[k], key, block) ensures s < k {
        LateAbove(c, views, bs, summaries, key, block, s, k);
      }
    }
  }

  /**
   So a key that is answered is searched in vain exactly when it is straddled, and a key
   that is not answered is searched at most once.
   */
  lemma VainIff(c: Codec, views: seq<View>, bs: seq<Backing>, summaries: Summaries, key: Bytes, block: int)
    requires Backed(c, views, bs, summaries) && Ready(views, bs) && Worker.AllExact(c, views, bs, key) && key != []
    ensures 0 <= Vain(c, views, bs, key, block) <= 3
    ensures views != [] && !Invisible(bs[Stop(bs, key, block)], key, block) ==>
              (Vain(c, views, bs, key, block) > 0 <==> Straddled(views, bs, key, block))
    ensures views == [] || Invisible(bs[Stop(bs, key, block)], key, block) ==>
              Hit(c, views, bs, key, block) == 0 && !Straddled(views, bs, key, block)
  {
    hide Backed, Worker.AllExact, FilterOk, Invisible, Lowest, Fetches, VisitGets, HasKey, Vain, LateGets, Late;
    VainExact(c, views, bs, summaries, key, block);
    if views != [] {
      var s := Stop(bs, key, block);
      StopFacts(views, bs, key, block);
      VainFetches(c, views, bs, summaries, key, block);
      forall k | 0 <= k < |views| && Late(views[k], bs[k], key, block)
        ensures VisitGets(c, views[k], bs[k], key, block) > 0
        ensures !Invisible(bs[s], key, block) ==> s < k && HasKey(bs[s].records, key)
      {
        LateCosts(c, views, bs, summaries, key, block, k);
        if !Invisible(bs[s], key, block) { LateAbove(c, views, bs, summaries, key, block, s, k); }
      }
      if Invisible(bs[s], key, block) { UnseenIsPlain(c, views, bs, summaries, key, block); }
    }
  }

  lemma LateCosts(c: Codec, views: seq<View>, bs: seq<Backing>, summaries: Summaries, key: Bytes, block: int, k: nat)
    requires Backed(c, views, bs, summaries) && Ready(views, bs) && Worker.AllExact(c, views, bs, key) && key != []
    requires k < |views| && Late(views[k], bs[k], key, block)
    ensures VisitGets(c, views[k], bs[k], key, block) > 0
  {
    hide Backed, Backs, Exact, FilterOk, Late, VisitGets, SearchGets;
    Worker.BackedAt(c, views, bs, summaries, k);
    ExactAt(c, views, bs, key, k);
    LateVisit(c, views[k], bs[k], key, block);
  }

  /** A key that no run sees is not straddled. */
  lemma UnseenIsPlain(c: Codec, views: seq<View>, bs: seq<Backing>, summaries: Summaries, key: Bytes, block: int)
    requires Backed(c, views, bs, summaries) && forall k :: 0 <= k < |bs| ==> Invisible(bs[k], key, block)
    ensures !Straddled(views, bs, key, block)
  {
    hide Backed, Invisible, HasKey;
    forall i, j | |views| == |bs| && 0 <= i < j < |views| && HasKey(bs[i].records, key)
      ensures !Late(views[j], bs[j], key, block)
    {
      if Late(views[j], bs[j], key, block) { PastIsSeen(c, views, bs, summaries, key, block, i, j); }
    }
  }

  /** The summaries do not err about either key. */
  ghost predicate Unerring(c: Codec, views: seq<View>, bs: seq<Backing>, account: Bytes, storage: Bytes)
  {
    Worker.AllExact(c, views, bs, account) && Worker.AllExact(c, views, bs, storage)
  }

  /** Spill shards and late runs cost no more than idle runs and short searches save. */
  ghost predicate Affordable(c: Codec, views: seq<View>, bs: seq<Backing>, account: Bytes, storage: Bytes, block: int)
    requires Ready(views, bs)
  {
    Spills(c, views, bs, account, storage, block)
      + LateGets(c, views, bs, account, block) + LateGets(c, views, bs, storage, block)
    <= Idle(c, views, bs, account, storage, block)
      + (3 - Hit(c, views, bs, account, block)) + (3 - Hit(c, views, bs, storage, block))
  }

  /**
   Without false positives the documented cost holds exactly when the spill shards and one
   search of each key's late run are made up by idle runs and short searches.
   */
  lemma ExactIff(c: Codec, views: seq<View>, bs: seq<Backing>, summaries: Summaries, account: Bytes, storage: Bytes,
                 block: int)
    requires Backed(c, views, bs, summaries) && Ready(views, bs) && Route(Group(account)) == Route(Group(storage))
    requires Unerring(c, views, bs, account, storage)
    ensures 1 + ReadGets(c, views, bs, account, Some(storage), block, {}) <= Documented(|views|) <==>
            Affordable(c, views, bs, account, storage, block)
  {
    hide Backed, Ready, Worker.AllExact, Hit, Vain, LateGets, Late, Idle, Spills, ReadGets, Group, Route, SearchGets;
    DocumentedIff(c, views, bs, account, storage, block);
    VainExact(c, views, bs, summaries, account, block);
    VainExact(c, views, bs, summaries, storage, block);
  }

  // ---------------------------------------------------------------- when the documented cost holds

  /** The summaries do not err about the key, and no started run has many keys of its group. */
  ghost predicate Quiet(c: Codec, views: seq<View>, bs: seq<Backing>, key: Bytes, block: int)
  {
    Worker.AllExact(c, views, bs, key) && LightAt(views, bs, key, block)
  }

  lemma QuietSpillsNothing(c: Codec, views: seq<View>, bs: seq<Backing>, account: Bytes, storage: Bytes, block: int)
    requires Ready(views, bs) && Quiet(c, views, bs, account, block) && Quiet(c, views, bs, storage, block)
    ensures Spills(c, views, bs, account, storage, block) == 0
  {
    hide Ready, Worker.AllExact, LightAt, SpillShards, Lowest;
    StopBound(views, bs, account, block);
    StopBound(views, bs, storage, block);
    LightSpillsNothing(c, views, bs, account, block, Stop(bs, account, block));
    LightSpillsNothing(c, views, bs, storage, block, Stop(bs, storage, block));
  }

  /** Then a read that searches neither key in vain stays within the documented cost. */
  lemma DocumentedSuffices(c: Codec, views: seq<View>, bs: seq<Backing>, summaries: Summaries, account: Bytes,
                           storage: Bytes, block: int)
    requires Backed(c, views, bs, summaries) && Ready(views, bs) && account != [] && storage != []
    requires Route(Group(account)) == Route(Group(storage))
    requires Quiet(c, views, bs, account, block) && Quiet(c, views, bs, storage, block)
    requires !Straddled(views, bs, account, block) && !Straddled(views, bs, storage, block)
    ensures 1 + ReadGets(c, views, bs, account, Some(storage), block, {}) <= Documented(|views|)
  {
    hide Backed, Ready, Worker.AllExact, LightAt, Straddled, Hit, Vain, Idle, Spills, ReadGets, Group, Route;
    hide Invisible, Stop;
    DocumentedIff(c, views, bs, account, storage, block);
    QuietSpillsNothing(c, views, bs, account, storage, block);
    IdleBound(c, views, bs, account, storage, block);
    VainSaved(c, views, bs, summaries, account, block);
    VainSaved(c, views, bs, summaries, storage, block);
  }

  /** A search that is not straddled never exceeds three fetches. */
  lemma VainSaved(c: Codec, views: seq<View>, bs: seq<Backing>, summaries: Summaries, key: Bytes, block: int)
    requires Backed(c, views, bs, summaries) && Ready(views, bs) && Worker.AllExact(c, views, bs, key) && key != []
    requires !Straddled(views, bs, key, block)
    ensures Vain(c, views, bs, key, block) <= 3 - Hit(c, views, bs, key, block)
  {
    hide Backed, Ready, Worker.AllExact, Straddled, KeyFetches, Hit, Vain, Invisible, Stop;
    VainIff(c, views, bs, summaries, key, block);
  }

  /**
   For a read that saves nothing, because it probes every run and both of its answers take
   three GETs, the documented cost holds exactly when no spill shard is fetched and neither
   key is straddled.
   */
  lemma FullReadIff(c: Codec, views: seq<View>, bs: seq<Backing>, summaries: Summaries, account: Bytes,
                    storage: Bytes, block: int)
    requires Backed(c, views, bs, summaries) && Ready(views, bs) && account != [] && storage != []
    requires Route(Group(account)) == Route(Group(storage))
    requires Unerring(c, views, bs, account, storage)
    requires Idle(c, views, bs, account, storage, block) == 0
    requires Hit(c, views, bs, account, block) == 3 && Hit(c, views, bs, storage, block) == 3
    ensures 1 + ReadGets(c, views, bs, account, Some(storage), block, {}) <= Documented(|views|) <==>
            && Spills(c, views, bs, account, storage, block) == 0
            && !Straddled(views, bs, account, block) && !Straddled(views, bs, storage, block)
  {
    hide Backed, Ready, Worker.AllExact, Straddled, Hit, Vain, Idle, Spills, ReadGets, Group, Route, Invisible, Stop;
    DocumentedIff(c, views, bs, account, storage, block);
    VainIff(c, views, bs, summaries, account, block);
    VainIff(c, views, bs, summaries, storage, block);
  }

  /** An account that is not live takes one lookup. */
  lemma AccountSuffices(c: Codec, views: seq<View>, bs: seq<Backing>, summaries: Summaries, account: Bytes, block: int)
    requires Backed(c, views, bs, summaries) && Ready(views, bs) && account != []
    requires Quiet(c, views, bs, account, block) && !Straddled(views, bs, account, block)
    ensures 1 + ReadGets(c, views, bs, account, None, block, {}) <= Documented(|views|)
  {
    hide Backed, Ready, Worker.AllExact, LightAt, Straddled, Hit, AddressShards, SpillShards, Invisible, Lowest;
    var a := Stop(bs, account, block);
    StopBound(views, bs, account, block);
    VainSaved(c, views, bs, summaries, account, block);
    LightSpillsNothing(c, views, bs, account, block, a);
    AddressFew(c, views, bs, account, block, a);
    assert {} + KeyShards(c, views, bs, account, block) == AddressShards(c, views, bs, account, block, a);
  }

  /** The summaries do not err about the keys of the read, neither is straddled, and the address has few slots. */
  ghost predicate Plain(c: Codec, views: seq<View>, bs: seq<Backing>, read: Lookups, address: Hash20, slot: Hash32,
                        block: int)
  {
    && Worker.AllExact(c, views, bs, AccountKey(address)) && !Straddled(views, bs, AccountKey(address), block)
    && match StorageKeyOf(read, address, slot)
       case None => true
       case Some(key) => Quiet(c, views, bs, key, block) && !Straddled(views, bs, key, block)
  }

  lemma PlainSuffices(c: Codec, views: seq<View>, bs: seq<Backing>, summaries: Summaries, read: Lookups,
                      address: Hash20, slot: Hash32, block: int)
    requires Backed(c, views, bs, summaries) && Ready(views, bs) && Worker.AllShaped(bs)
    requires Plain(c, views, bs, read, address, slot, block)
    ensures
      var storage := StorageKeyOf(read, address, slot);
      1 + ReadGets(c, views, bs, AccountKey(address), storage, block, {}) <= Documented(|views|)
  {
    hide Backed, Ready, Worker.AllExact, Straddled, ReadGets, LiveAccountOf, Worker.AllShaped, Heavy, Group, Route;
    Worker.AllAccountsLight(bs, address);
    LightEverywhere(views, bs, AccountKey(address), block);
    hide LightAt;
    match StorageKeyOf(read, address, slot)
    case None => AccountSuffices(c, views, bs, summaries, AccountKey(address), block);
    case Some(key) =>
      var state := LiveAccountOf(read, address).value.value;
      StorageRoute(address, state.incarnation, slot);
      DocumentedSuffices(c, views, bs, summaries, AccountKey(address), key, block);
  }

  lemma StoredRoute(read: Lookups, address: Hash20, slot: Hash32)
    ensures StorageKeyOf(read, address, slot).Some? ==>
              Route(Group(StorageKeyOf(read, address, slot).value)) == Route(Group(AccountKey(address)))
  {
    hide StorageKey, AccountKey, Group, Route;
    match LiveAccountOf(read, address)
    case Ok(Some(state)) => StorageRoute(address, state.incarnation, slot);
    case _ =>
  }

  lemma LightEverywhere(views: seq<View>, bs: seq<Backing>, key: Bytes, block: int)
    requires Ready(views, bs) && Worker.AllLight(bs, key)
    ensures LightAt(views, bs, key, block)
  {
  }

  /** A cold storage read by the Worker that meets these conditions stays within the documented cost. */
  method ReadWithin(worker: Worker.Reader, address: Hash20, slot: Hash32, block: U64, ghost read: Lookups)
    returns (r: Result<Hash32>)
    requires worker.Valid() && Worker.AllShaped(worker.backs) && worker.gets == 1 && worker.shards == map[]
    requires ReadsAs(AllRecords(worker.backs), block, read)
    modifies worker`gets, worker`fetched, worker`shards
    ensures r.Ok? ==> r == StorageOf(read, address, slot)
    ensures r.Ok? && Plain(worker.c, worker.runs, worker.backs, read, address, slot, block) ==>
              worker.gets <= Documented(|worker.runs|)
    ensures Ready(worker.runs, worker.backs)
    ensures
      var storage := StorageKeyOf(read, address, slot);
      r.Ok? && storage.Some? ==>
        (worker.gets <= Documented(|worker.runs|) <==>
         Balanced(worker.c, worker.runs, worker.backs, AccountKey(address), storage.value, block))
    ensures
      var storage := StorageKeyOf(read, address, slot);
      r.Ok? && storage.Some? && Unerring(worker.c, worker.runs, worker.backs, AccountKey(address), storage.value) ==>
        (worker.gets <= Documented(|worker.runs|) <==>
         Affordable(worker.c, worker.runs, worker.backs, AccountKey(address), storage.value, block))
  {
    hide Backed, Ready, ReadGets, Plain, Balanced, AccountKey, ReadsAs, StorageOf, StorageKeyOf, Worker.AllShaped;
    hide Worker.Cached, Affordable, Unerring;
    assert worker.shards.Keys == {};
    BackedReady(worker.c, worker.runs, worker.backs, worker.summaries);
    StoredRoute(read, address, slot);
    if StorageKeyOf(read, address, slot).Some? {
      var storage := StorageKeyOf(read, address, slot).value;
      DocumentedIff(worker.c, worker.runs, worker.backs, AccountKey(address), storage, block);
      if Unerring(worker.c, worker.runs, worker.backs, AccountKey(address), storage) {
        ExactIff(worker.c, worker.runs, worker.backs, worker.summaries, AccountKey(address), storage, block);
      }
    }
    if Plain(worker.c, worker.runs, worker.backs, read, address, slot, block) {
      PlainSuffices(worker.c, worker.runs, worker.backs, worker.summaries, read, address, slot, block);
    }
    r := worker.StorageAt(address, slot, block, read);
  }
}
