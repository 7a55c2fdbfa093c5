/**
 Writing a run: its objects and its summary come from the same records, so whatever a
 reader of the run relies on holds by construction.
 */
module RunWriter {
  import opened Bytes
  import opened Versions
  import opened RunFormat
  import opened FenceIndex
  import opened RunTree
  import opened RunReader
  import opened RunBuilder
  import opened Bloom
  import opened Summary
  import opened Views
  import Merge

  const MAX_KEYS := 0x4000_0000_0000

  /** A written run: its root reference, key count, shard count, and everything uploaded for it. */
  datatype BuiltRun = BuiltRun(root: Ref, keys: nat, shards: nat, objects: seq<Bytes>, summary: seq<(Path, Bytes)>)

  /** Add every key once to a summary sized for `expected` keys, and finish it for the run. */
  method Summarize(c: Codec, keys: seq<Bytes>, expected: U64, run: Digest)
    returns (shards: nat, out: seq<(Path, Bytes)>, ghost filter: Filter, ghost size: nat)
    requires expected <= MAX_KEYS
    ensures FilterOk(filter, shards, size) && HEADER_BYTES + size + 32 <= MAX_SHARD
    ensures AllMay(c, filter, shards, size, keys) && Holds(c, run, shards, size, filter, out) && PowerOfTwo(shards)
    ensures shards == ShardCount(expected) && size == BytesPerShard(expected, shards) && Sums(c, keys, shards, filter)
  {
    hide PowerOfTwo, Entered, Shelved, Blank, ShardCount, BytesPerShard, Filled, MayContain;
    NewFits(expected);
    ShardCountPower(expected);
    var made := NewBuilder(c, expected);
    var builder := made.value;
    for i := 0 to |keys|
      invariant builder.Valid() && builder.added == keys[..i] && fresh(builder)
      invariant builder.c == c && builder.shards == ShardCount(expected) < 0x1_0000_0000
      invariant HEADER_BYTES + builder.size + 32 <= MAX_SHARD
      invariant builder.size == BytesPerShard(expected, builder.shards)
      invariant builder.Books() == Booked(c, keys[..i], builder.shards)
    {
      assert keys[..i + 1][..i] == keys[..i];
      builder.Add(keys[i]);
    }
    assert keys[..|keys|] == keys;
    shards := builder.shards;
    out := builder.Finish(run);
    filter, size := Filter(builder.address, builder.spill), builder.size;
  }

  /** The uploaded shards are those of the filter, each at its own path. */
  ghost predicate Holds(c: Codec, run: Digest, shards: nat, size: nat, f: Filter, out: seq<(Path, Bytes)>)
    requires FilterOk(f, shards, size)
  {
    && |out| == 2 * shards
    && forall i :: 0 <= i < shards ==>
         && out[i] == (Path(run, shards, Address, i), EncodeShard(c, run, Address, i, shards, f.address[i]))
         && out[shards + i] == (Path(run, shards, Spill, i), EncodeShard(c, run, Spill, i, shards, f.spill[i]))
  }

  /**
   What stands behind a view of the written run. The records fix its objects, and with the
   number of keys its summary was sized for they fix its shards.
   */
  ghost predicate Written(c: Codec, records: seq<Record>, expected: nat, built: BuiltRun, b: Backing)
  {
    && b.records == records && Built(c, records, built.root, built.objects, b.trees) && PowerOfTwo(built.shards)
    && Bounded(c, records) && b.trees == Layout(c, records) && built.keys == |Merge.DistinctKeys(records)|
    && FilterOk(b.filter, built.shards, b.size) && HEADER_BYTES + b.size + 32 <= MAX_SHARD
    && expected <= MAX_KEYS && built.shards == ShardCount(expected) && b.size == BytesPerShard(expected, built.shards)
    && Sums(c, Merge.DistinctKeys(records), built.shards, b.filter)
    && Holds(c, built.root.digest, built.shards, b.size, b.filter, built.summary)
    && forall r :: r in records ==> MayContain(c, b.filter, built.shards, b.size, r.key)
  }

  /** Build the run and its summary from sorted records and their distinct keys. */
  method Write(c: Codec, records: seq<Record>, keys: seq<Bytes>, expected: U64)
    returns (r: Result<BuiltRun>, ghost b: Backing)
    requires keys == Merge.DistinctKeys(records) && expected <= MAX_KEYS
    ensures r.Ok? <==> KeysOk(records) && Bounded(c, records)
    ensures r.Ok? ==> Written(c, records, expected, r.value, b)
  {
    hide Built, MayContain, FilterOk, Merge.DistinctKeys, Bounded, KeysOk, PowerOfTwo, Layout, ShardCount;
    hide BytesPerShard, Sums;
    var root, objects, trees := Build(c, records);
    b := Backing(records, trees, Filter([], []), 0);
    if root.Err? {
      return Err, b;
    }
    var shards, out, filter, size := Summarize(c, keys, expected, root.value.digest);
    b := Backing(records, trees, filter, size);
    Merge.DistinctKeysCover(records);
    return Ok(BuiltRun(root.value, |keys|, shards, objects, out)), b;
  }

  /** Write records that are already sorted and in memory. */
  method WriteSorted(c: Codec, records: seq<Record>) returns (r: Result<BuiltRun>, ghost b: Backing)
    requires |Merge.DistinctKeys(records)| <= MAX_KEYS
    ensures r.Ok? <==> KeysOk(records) && Bounded(c, records)
    ensures r.Ok? ==> Written(c, records, |Merge.DistinctKeys(records)|, r.value, b)
  {
    var keys: seq<Bytes> := [];
    for i := 0 to |records|
      invariant keys == Merge.DistinctKeys(records[..i])
    {
      assert records[..i + 1][..i] == records[..i];
      if i == 0 || records[i - 1].key != records[i].key {
        keys := keys + [records[i].key];
      }
    }
    assert records[..|records|] == records;
    r, b := Write(c, records, keys, |keys|);
  }

  /** Merge sorted runs and write the result; refused when two inputs share a version. */
  method WriteMerged(c: Codec, inputs: seq<seq<Record>>, expected: U64) returns (r: Result<BuiltRun>, ghost b: Backing)
    requires Merge.AllSorted(inputs) && expected <= MAX_KEYS
    ensures r.Ok? <==> Merge.Disjoint(inputs) && KeysOk(Merge.MergeAll(inputs)) && Bounded(c, Merge.MergeAll(inputs))
    ensures r.Ok? ==> Written(c, Merge.MergeAll(inputs), expected, r.value, b)
  {
    hide Written, Merge.MergeAll, Merge.Disjoint, Bounded, KeysOk;
    var merged, keys := Merge.MergeRuns(inputs);
    b := Backing([], [], Filter([], []), 0);
    if merged.Err? {
      return Err, b;
    }
    r, b := Write(c, merged.value, keys, expected);
  }

  /** What the manifest says of a run passes: a power of two of shards, and root bytes that match their reference. */
  ghost predicate EntryOk(c: Codec, shards: nat, root: Ref, rootBytes: Bytes)
  {
    PowerOfTwo(shards) && |rootBytes| == root.length && c.sha(rootBytes) == root.digest
  }

  /** The manifest entry of a written run is always accepted. */
  lemma WrittenEntry(c: Codec, records: seq<Record>, expected: nat, built: BuiltRun, b: Backing)
    requires Written(c, records, expected, built, b)
    ensures built.objects != [] && EntryOk(c, built.shards, built.root, built.objects[|built.objects| - 1])
  {
    hide MayContain, Holds, TreeOut, TreeRecords, Routed, KeysOk, PowerOfTwo, FilterOk, Layout, Bounded;
    hide Merge.DistinctKeys, Sums, ShardCount, BytesPerShard;
    RootLength(Indexes(c, b.trees));
  }

  lemma RootLength(refs: seq<Ref>)
    requires |refs| == PARTITIONS
    ensures |EncodeRoot(refs)| == ROOT_BYTES
  {
  }

  /** A view of a written run is backed by it, and its uploaded shards are genuine. */
  lemma WrittenBacks(c: Codec, records: seq<Record>, expected: nat, built: BuiltRun, b: Backing, start: U64, end: U64)
    requires Written(c, records, expected, built, b) && Lossless(c) && AllClean(c, b.trees)
    requires forall r :: r in records ==> start <= r.block <= end
    ensures Backs(c, View(start, end, built.root.digest, built.shards, Indexes(c, b.trees)), b)
    ensures forall kind, i :: 0 <= i < built.shards ==>
              (Path(built.root.digest, built.shards, kind, i),
               EncodeShard(c, built.root.digest, kind, i, built.shards, Bits(b, kind, i))) in built.summary
  {
    hide MayContain, EncodeShard, TreeOut, EncodeRoot, Routed, Represents, IsRoot, Lossless, AllClean, TreeRecords;
    hide Layout, Bounded, Merge.DistinctKeys, PowerOfTwo, Sums, ShardCount, BytesPerShard, AllOf;
    BuiltRepresents(c, records, built.root, built.objects, b.trees);
    forall kind, i | 0 <= i < built.shards
      ensures (Path(built.root.digest, built.shards, kind, i),
               EncodeShard(c, built.root.digest, kind, i, built.shards, Bits(b, kind, i))) in built.summary
    {
      var at := if kind == Address then i else built.shards + i;
      assert built.summary[at] == (Path(built.root.digest, built.shards, kind, i),
                                   EncodeShard(c, built.root.digest, kind, i, built.shards, Bits(b, kind, i)));
    }
  }
}
