/**
 What a Worker read costs, in closed form: the shards it probes, the spill shards behind
 markers, and the fetches of its searches. From this the documented cost of an
 account-plus-storage read, 1 + runs + 6 GETs, is judged exactly.
 */
module ReadCost {
  import opened Bytes
  import opened Versions
  import opened RunFormat
  import opened FenceIndex
  import opened RunTree
  import opened RunReader
  import opened Bloom
  import opened Summary
  import opened Views
  import opened Keys
  import opened StateReads

  // ---------------------------------------------------------------- one run

  function AddressPath(c: Codec, v: View, key: Bytes): Path
    requires v.shards > 0
  {
    Path(v.run, v.shards, Address, AddressIndex(c, Group(key), v.shards))
  }

  function SpillPath(c: Codec, v: View, key: Bytes): Path
    requires v.shards > 0
  {
    Path(v.run, v.shards, Spill, SpillIndex(c.sha(key), v.shards))
  }

  /** The marker of the key's group is set in its address shard. */
  ghost predicate Marked(c: Codec, v: View, b: Backing, key: Bytes)
    requires FilterOk(b.filter, v.shards, b.size)
  {
    Contains(b.filter.address[AddressIndex(c, Group(key), v.shards)], c.sha(Marker(Group(key))))
  }

  /** The address shard does not settle the key: it is denied there, but its group is marked. */
  ghost predicate Deferred(c: Codec, v: View, b: Backing, key: Bytes)
    requires FilterOk(b.filter, v.shards, b.size)
  {
    && Marked(c, v, b, key)
    && !Contains(b.filter.address[AddressIndex(c, Group(key), v.shards)], c.sha(key))
  }

  /** The shards one probe looks at. */
  ghost function VisitShards(c: Codec, v: View, b: Backing, key: Bytes): set<Path>
    requires FilterOk(b.filter, v.shards, b.size)
  {
    {AddressPath(c, v, key)} + if Deferred(c, v, b, key) then {SpillPath(c, v, key)} else {}
  }

  /** The shards a visit looks at. */
  ghost function Extra(c: Codec, v: View, b: Backing, key: Bytes, block: int): set<Path>
    requires FilterOk(b.filter, v.shards, b.size)
  {
    if v.start <= block then VisitShards(c, v, b, key) else {}
  }

  ghost predicate Searched(c: Codec, v: View, b: Backing, key: Bytes, block: int)
    requires FilterOk(b.filter, v.shards, b.size)
  {
    v.start <= block && MayContain(c, b.filter, v.shards, b.size, key)
  }

  function Clamp(v: View, block: int): int { if block < v.end then block else v.end }

  /** The fetches of one visit. */
  ghost function VisitGets(c: Codec, v: View, b: Backing, key: Bytes, block: int): (n: nat)
    requires FilterOk(b.filter, v.shards, b.size) && |b.trees| == PARTITIONS
    ensures n <= 3
  {
    if Searched(c, v, b, key, block) then SearchGets(b.trees[Partition(c, key)], key, Clamp(v, block)) else 0
  }

  // ---------------------------------------------------------------- one lookup

  /** Everything the cost of a lookup is made of is there. */
  ghost predicate Ready(views: seq<View>, bs: seq<Backing>)
  {
    && |views| == |bs|
    && forall j :: 0 <= j < |views| ==>
         FilterOk(bs[j].filter, views[j].shards, bs[j].size) && |bs[j].trees| == PARTITIONS
  }

  lemma BackedReady(c: Codec, views: seq<View>, bs: seq<Backing>, summaries: Summaries)
    requires Backed(c, views, bs, summaries)
    ensures Ready(views, bs)
  {
    hide MayContain, Represents, Genuine;
    forall j | 0 <= j < |views|
      ensures FilterOk(bs[j].filter, views[j].shards, bs[j].size) && |bs[j].trees| == PARTITIONS
    {
      assert Backs(c, views[j], bs[j]);
      BackedTrees(c, views[j], bs[j]);
    }
  }

  lemma BackedTrees(c: Codec, v: View, b: Backing)
    requires Backs(c, v, b)
    ensures |b.trees| == PARTITIONS
  {
  }

  /** What a visit adds to the shards and fetches of a lookup. */
  lemma VisitAdds(c: Codec, views: seq<View>, bs: seq<Backing>, key: Bytes, block: int, j: nat)
    requires Ready(views, bs) && j < |views|
    ensures ShardsFrom(c, views, bs, key, block, j)
            == ShardsFrom(c, views, bs, key, block, j + 1) + Extra(c, views[j], bs[j], key, block)
    ensures Fetches(c, views, bs, key, block, j)
            == Fetches(c, views, bs, key, block, j + 1) + VisitGets(c, views[j], bs[j], key, block)
  {
    hide AddressPath, SpillPath, Deferred, VisitGets;
  }

  /** The newest of the first `n` runs that answers the key, or the oldest if none does. */
  ghost function Lowest(bs: seq<Backing>, key: Bytes, block: int, n: nat): (j: nat)
    requires n <= |bs|
    ensures j <= n && (n > 0 ==> j < n)
  {
    if n == 0 then 0
    else if !Invisible(bs[n - 1], key, block) then n - 1
    else Lowest(bs, key, block, n - 1)
  }

  /** The last run a lookup of the key visits. */
  ghost function Stop(bs: seq<Backing>, key: Bytes, block: int): nat { Lowest(bs, key, block, |bs|) }

  lemma {:induction false} StopIs(bs: seq<Backing>, key: Bytes, block: int, j: nat, n: nat)
    requires j <= n <= |bs| && forall k :: j <= k < n ==> Invisible(bs[k], key, block)
    requires j == 0 || !Invisible(bs[j - 1], key, block)
    ensures Lowest(bs, key, block, n) == if j == 0 then 0 else j - 1
  {
    if j < n { StopIs(bs, key, block, j, n - 1); }
  }

  lemma {:induction false} AboveStop(bs: seq<Backing>, key: Bytes, block: int, n: nat, k: nat)
    requires n <= |bs| && Lowest(bs, key, block, n) < k < n
    ensures Invisible(bs[k], key, block)
  {
    if k < n - 1 { AboveStop(bs, key, block, n - 1, k); }
  }

  /** The address shards of the started runs from `j` on. */
  ghost function AddressShards(c: Codec, views: seq<View>, bs: seq<Backing>, key: Bytes, block: int, j: nat): set<Path>
    requires Ready(views, bs) && j <= |views|
    decreases |views| - j
  {
    if j == |views| then {}
    else
      var more := AddressShards(c, views, bs, key, block, j + 1);
      if views[j].start <= block then more + {AddressPath(c, views[j], key)} else more
  }

  /** The spill shards behind markers in the started runs from `j` on. */
  ghost function SpillShards(c: Codec, views: seq<View>, bs: seq<Backing>, key: Bytes, block: int, j: nat): set<Path>
    requires Ready(views, bs) && j <= |views|
    decreases |views| - j
  {
    if j == |views| then {}
    else
      var more := SpillShards(c, views, bs, key, block, j + 1);
      if views[j].start <= block && Deferred(c, views[j], bs[j], key) then more + {SpillPath(c, views[j], key)}
      else more
  }

  ghost function ShardsFrom(c: Codec, views: seq<View>, bs: seq<Backing>, key: Bytes, block: int, j: nat): set<Path>
    requires Ready(views, bs) && j <= |views|
  {
    AddressShards(c, views, bs, key, block, j) + SpillShards(c, views, bs, key, block, j)
  }

  /** The fetches of the searches in the runs from `j` on. */
  ghost function Fetches(c: Codec, views: seq<View>, bs: seq<Backing>, key: Bytes, block: int, j: nat): nat
    requires Ready(views, bs) && j <= |views|
    decreases |views| - j
  {
    if j == |views| then 0
    else VisitGets(c, views[j], bs[j], key, block) + Fetches(c, views, bs, key, block, j + 1)
  }

  /** How many of the runs from `j` on are searched. */
  ghost function Searches(c: Codec, views: seq<View>, bs: seq<Backing>, key: Bytes, block: int, j: nat): nat
    requires Ready(views, bs) && j <= |views|
    decreases |views| - j
  {
    if j == |views| then 0
    else
      (if Searched(c, views[j], bs[j], key, block) then 1 else 0) + Searches(c, views, bs, key, block, j + 1)
  }

  // ---------------------------------------------------------------- one storage read

  ghost function KeyShards(c: Codec, views: seq<View>, bs: seq<Backing>, key: Bytes, block: int): set<Path>
    requires Ready(views, bs)
  {
    ShardsFrom(c, views, bs, key, block, Stop(bs, key, block))
  }

  ghost function KeyFetches(c: Codec, views: seq<View>, bs: seq<Backing>, key: Bytes, block: int): nat
    requires Ready(views, bs)
  {
    Fetches(c, views, bs, key, block, Stop(bs, key, block))
  }

  /** The GETs of looking up an account and then perhaps a second key, by a reader that holds the shards `known`. */
  ghost function ReadGets(c: Codec, views: seq<View>, bs: seq<Backing>, account: Bytes, second: Option<Bytes>,
                          block: int, known: set<Path>): int
    requires Ready(views, bs)
  {
    var first, fetches := KeyShards(c, views, bs, account, block), KeyFetches(c, views, bs, account, block);
    match second
    case None => |known + first| - |known| + fetches
    case Some(key) =>
      |known + first + KeyShards(c, views, bs, key, block)| - |known| + (fetches + KeyFetches(c, views, bs, key, block))
  }

  /** The storage key a read goes on to look up, if the account is live. */
  function StorageKeyOf(read: Lookups, address: Hash20, slot: Hash32): Option<Bytes>
  {
    match LiveAccountOf(read, address)
    case Ok(Some(state)) => Some(StorageKey(address, state.incarnation, slot))
    case _ => None
  }

  /** The code key a read goes on to look up, if the account is live and has code. */
  function CodeKeyOf(read: Lookups, keccak: Bytes -> Hash32, address: Hash20): Option<Bytes>
  {
    match LiveAccountOf(read, address)
    case Ok(Some(state)) => if state.codeHash == keccak([]) then None else Some(CodeKey(state.codeHash))
    case _ => None
  }
}
