/**
 Written runs in a store of immutable objects: data and index objects under their digests,
 summary shards under their paths. What is put stays, so a run that was put can be opened,
 merged and read from the stored bytes ever after.
 */
module StoredRuns {
  import opened Bytes
  import opened Versions
  import opened RunFormat
  import opened FenceIndex
  import opened RunTree
  import opened RunReader
  import opened RunBuilder
  import opened Summary
  import opened Views
  import opened RunWriter
  import RunMerge
  import RunIdentity
  import Merge

  datatype Disk = Disk(blobs: map<Digest, Bytes>, shards: map<Path, Bytes>)

  const EMPTY := Disk(map[], map[])

  /** The stored objects and shards, as a reader asks for them. */
  function Blobs(disk: Disk): Objects
  {
    (t, ref: Ref) => if ref.digest in disk.blobs then Some(disk.blobs[ref.digest]) else None
  }

  function Shards(disk: Disk): Summaries
  {
    (t, path) => if path in disk.shards then Some(disk.shards[path]) else None
  }

  // ---------------------------------------------------------------- putting

  /** No name is taken by other bytes, and none is put twice with different bytes. */
  ghost predicate Consistent<K, V>(stored: map<K, V>, pairs: seq<(K, V)>)
  {
    && (forall e :: e in pairs && e.0 in stored ==> stored[e.0] == e.1)
    && forall e, f :: e in pairs && f in pairs && e.0 == f.0 ==> e.1 == f.1
  }

  ghost predicate Includes<K, V>(after: map<K, V>, before: map<K, V>)
  {
    forall k :: k in before ==> k in after && after[k] == before[k]
  }

  ghost predicate Has<K, V>(stored: map<K, V>, pairs: seq<(K, V)>)
  {
    forall e :: e in pairs ==> e.0 in stored && stored[e.0] == e.1
  }

  ghost predicate OnlyFrom<K, V>(after: map<K, V>, before: map<K, V>, pairs: seq<(K, V)>)
  {
    forall k :: k in after ==> k in before || exists j :: 0 <= j < |pairs| && pairs[j].0 == k
  }

  /** Put everything, create-only: it succeeds exactly when no name is taken, and adds nothing else. */
  method PutAll<K(==), V(==)>(stored: map<K, V>, pairs: seq<(K, V)>) returns (r: Option<map<K, V>>)
    ensures r.Some? <==> Consistent(stored, pairs)
    ensures r.Some? ==> Includes(r.value, stored) && Has(r.value, pairs) && OnlyFrom(r.value, stored, pairs)
  {
    var now := stored;
    for i := 0 to |pairs|
      invariant Includes(now, stored) && Has(now, pairs[..i])
      invariant forall k :: k in now ==> k in stored || exists j :: 0 <= j < i && pairs[j].0 == k
    {
      var (name, bytes) := pairs[i];
      if name in now {
        if now[name] != bytes {
          assert pairs[i] in pairs;
          if name !in stored {
            var j :| 0 <= j < i && pairs[j].0 == name;
            assert pairs[j] in pairs[..i] && pairs[j] in pairs;
          }
          return None;
        }
      } else {
        now := now[name := bytes];
      }
      assert pairs[..i + 1] == pairs[..i] + [pairs[i]];
    }
    assert pairs[..|pairs|] == pairs;
    return Some(now);
  }

  function Addressed(c: Codec, objects: seq<Bytes>): (pairs: seq<(Digest, Bytes)>)
    ensures |pairs| == |objects| && forall i :: 0 <= i < |objects| ==> pairs[i] == (c.sha(objects[i]), objects[i])
  {
    seq(|objects|, i requires 0 <= i < |objects| => (c.sha(objects[i]), objects[i]))
  }

  ghost predicate Room(c: Codec, disk: Disk, built: BuiltRun)
  {
    Consistent(disk.blobs, Addressed(c, built.objects)) && Consistent(disk.shards, built.summary)
  }

  ghost predicate Grown(before: Disk, after: Disk)
  {
    Includes(after.blobs, before.blobs) && Includes(after.shards, before.shards)
  }

  /** Everything the run consists of is stored under its name. */
  ghost predicate InStore(c: Codec, disk: Disk, built: BuiltRun)
  {
    Has(disk.blobs, Addressed(c, built.objects)) && Has(disk.shards, built.summary)
  }

  ghost predicate OnlyAdds(c: Codec, before: Disk, after: Disk, built: BuiltRun)
  {
    && OnlyFrom(after.blobs, before.blobs, Addressed(c, built.objects))
    && OnlyFrom(after.shards, before.shards, built.summary)
  }

  /** Put all objects and shards of a written run. */
  method Upload(c: Codec, disk: Disk, built: BuiltRun) returns (r: Option<Disk>)
    ensures r.Some? <==> Room(c, disk, built)
    ensures r.Some? ==> Grown(disk, r.value) && InStore(c, r.value, built) && OnlyAdds(c, disk, r.value, built)
  {
    hide Consistent, Includes, Has, OnlyFrom;
    var blobs := PutAll(disk.blobs, Addressed(c, built.objects));
    var shards := PutAll(disk.shards, built.summary);
    if blobs.None? || shards.None? {
      return None;
    }
    return Some(Disk(blobs.value, shards.value));
  }

  // ---------------------------------------------------------------- where stored names come from

  /** One written run: its records, the number of keys its summary was sized for, and what came of them. */
  datatype Piece = Piece(records: seq<Record>, expected: nat, built: BuiltRun, b: Backing)

  ghost predicate Whole(c: Codec, w: Piece)
  {
    Lossless(c) && Written(c, w.records, w.expected, w.built, w.b) && Separates(c, w.records)
  }

  ghost predicate From(c: Codec, d: Digest, bytes: Bytes, built: BuiltRun)
  {
    bytes in built.objects && c.sha(bytes) == d
  }

  /** What is stored is what was written: every name belongs to one of the runs, and every run is there. */
  ghost predicate Sourced(c: Codec, disk: Disk, past: seq<Piece>)
  {
    && (forall d :: d in disk.blobs ==> exists k :: 0 <= k < |past| && From(c, d, disk.blobs[d], past[k].built))
    && (forall p :: p in disk.shards ==> exists k :: 0 <= k < |past| && (p, disk.shards[p]) in past[k].built.summary)
    && forall k :: 0 <= k < |past| ==> Whole(c, past[k]) && InStore(c, disk, past[k].built)
  }

  lemma SourcedMore(c: Codec, before: Disk, after: Disk, past: seq<Piece>, w: Piece)
    requires Sourced(c, before, past) && Grown(before, after) && InStore(c, after, w.built) && Whole(c, w)
    requires OnlyAdds(c, before, after, w.built)
    ensures Sourced(c, after, past + [w])
  {
    hide Whole, Grown, InStore, OnlyAdds;
    BlobsMore(c, before, after, past, w);
    ShardsMore(c, before, after, past, w);
    forall k | 0 <= k < |past| ensures InStore(c, after, past[k].built) { InMore(c, before, after, past[k].built); }
  }

  lemma InMore(c: Codec, before: Disk, after: Disk, built: BuiltRun)
    requires InStore(c, before, built) && Grown(before, after)
    ensures InStore(c, after, built)
  {
    hide Addressed;
  }

  lemma BlobsMore(c: Codec, before: Disk, after: Disk, past: seq<Piece>, w: Piece)
    requires Sourced(c, before, past) && Grown(before, after) && InStore(c, after, w.built)
    requires OnlyAdds(c, before, after, w.built)
    ensures
      var now := past + [w];
      forall d :: d in after.blobs ==> exists k :: 0 <= k < |now| && From(c, d, after.blobs[d], now[k].built)
  {
    hide Whole;
    var now := past + [w];
    forall d | d in after.blobs ensures exists k :: 0 <= k < |now| && From(c, d, after.blobs[d], now[k].built) {
      if d in before.blobs {
        var k :| 0 <= k < |past| && From(c, d, before.blobs[d], past[k].built);
        assert From(c, d, after.blobs[d], now[k].built);
      } else {
        var objects := w.built.objects;
        var j :| 0 <= j < |objects| && Addressed(c, objects)[j].0 == d;
        assert Addressed(c, objects)[j] in Addressed(c, objects);
        assert From(c, d, after.blobs[d], now[|past|].built);
      }
    }
  }

  lemma ShardsMore(c: Codec, before: Disk, after: Disk, past: seq<Piece>, w: Piece)
    requires Sourced(c, before, past) && Grown(before, after) && InStore(c, after, w.built)
    requires OnlyAdds(c, before, after, w.built)
    ensures
      var now := past + [w];
      forall p :: p in after.shards ==> exists k :: 0 <= k < |now| && (p, after.shards[p]) in now[k].built.summary
  {
    hide Whole, Addressed;
    var now := past + [w];
    forall p | p in after.shards ensures exists k :: 0 <= k < |now| && (p, after.shards[p]) in now[k].built.summary {
      if p in before.shards {
        var k :| 0 <= k < |past| && (p, before.shards[p]) in past[k].built.summary;
        assert (p, after.shards[p]) in now[k].built.summary;
      } else {
        var summary := w.built.summary;
        var j :| 0 <= j < |summary| && summary[j].0 == p;
        assert summary[j] in summary;
        assert (p, after.shards[p]) in now[|past|].built.summary;
      }
    }
  }

  // ---------------------------------------------------------------- objects never clash

  lemma WholeParts(c: Codec, w: Piece)
    requires Whole(c, w)
    ensures RunIdentity.Named(c, w.records, w.built.root, w.built.objects, w.b.trees)
  {
    hide Built, AllClean, CleanObject, EncodeRoot, Layout, Bounded, MayContain, RunWriter.Holds, PowerOfTwo, FilterOk;
    hide Merge.DistinctKeys, Sums, ShardCount, BytesPerShard, Lossless;
  }

  /** Every object of a written run is clean. */
  lemma WholeClean(c: Codec, w: Piece, o: Bytes)
    requires Whole(c, w) && o in w.built.objects
    ensures CleanObject(c, o)
  {
    hide Whole, EncodeRoot, CleanObject, TreeObject, TreeOut, TreeRecords, Routed, KeysOk, Lossless, RefOf;
    WholeParts(c, w);
    var objects := w.built.objects;
    var i :| 0 <= i < |objects| && objects[i] == o;
    if i < |objects| - 1 {
      assert o in objects[..|objects| - 1];
      var p :| 0 <= p < |w.b.trees| && TreeObject(c, w.b.trees[p], o);
    }
  }

  /** So no object name is ever taken by other bytes. */
  lemma BlobsFree(c: Codec, disk: Disk, past: seq<Piece>, w: Piece)
    requires Sourced(c, disk, past) && Whole(c, w)
    ensures Consistent(disk.blobs, Addressed(c, w.built.objects))
  {
    hide Whole, InStore;
    var pairs := Addressed(c, w.built.objects);
    forall e | e in pairs ensures e.1 in w.built.objects && e.0 == c.sha(e.1) && CleanObject(c, e.1) {
      var i :| 0 <= i < |pairs| && pairs[i] == e;
      WholeClean(c, w, e.1);
    }
    forall e | e in pairs && e.0 in disk.blobs ensures disk.blobs[e.0] == e.1 {
      var k :| 0 <= k < |past| && From(c, e.0, disk.blobs[e.0], past[k].built);
    }
  }

  // ---------------------------------------------------------------- when shards clash

  /** How a summary for so many keys is sized: how many shards, and how many bytes each. */
  function Sizing(expected: nat): (nat, nat)
  {
    if expected > MAX_KEYS then (0, 0)
    else
      ShardCountIff(expected);
      (ShardCount(expected), BytesPerShard(expected, ShardCount(expected)))
  }

  /** The two sizings name shards alike and give them different sizes. */
  predicate Resized(a: nat, b: nat) { Sizing(a).0 == Sizing(b).0 && Sizing(a).1 != Sizing(b).1 }

  /** The same records were written before, with a summary of the same shard count but another size. */
  ghost predicate Repeats(past: seq<Piece>, records: seq<Record>, expected: nat)
  {
    exists k :: 0 <= k < |past| && past[k].records == records && Resized(past[k].expected, expected)
  }

  lemma WholeSized(c: Codec, w: Piece)
    requires Whole(c, w)
    ensures Sizing(w.expected) == (w.built.shards, w.b.size) && w.built.shards > 0 && w.b.size > 0
    ensures FilterOk(w.b.filter, w.built.shards, w.b.size)
    ensures Sums(c, Merge.DistinctKeys(w.records), w.built.shards, w.b.filter)
    ensures RunWriter.Holds(c, w.built.root.digest, w.built.shards, w.b.size, w.b.filter, w.built.summary)
  {
    hide Built, MayContain, RunWriter.Holds, PowerOfTwo, Merge.DistinctKeys, Sums, ShardCount, BytesPerShard, Lossless;
    hide Layout, Bounded, Separates, ListOk;
  }

  /** Every uploaded shard is that of the filter at its path. */
  lemma ShardAt(c: Codec, w: Piece, e: (Path, Bytes))
    requires Whole(c, w) && e in w.built.summary
    ensures e.0.run == w.built.root.digest && e.0.shards == w.built.shards && e.0.index < w.built.shards
    ensures FilterOk(w.b.filter, w.built.shards, w.b.size)
    ensures e.1 == EncodeShard(c, e.0.run, e.0.kind, e.0.index, e.0.shards, Bits(w.b, e.0.kind, e.0.index))
  {
    hide Whole, EncodeShard, Sums, Sizing;
    WholeSized(c, w);
    var i :| 0 <= i < |w.built.summary| && w.built.summary[i] == e;
    if i >= w.built.shards {
      var j := i - w.built.shards;
      assert w.b.filter.spill[j] == Bits(w.b, Spill, j) && w.built.summary[w.built.shards + j] == e;
    }
  }

  /** Written runs under one root hold the same records. */
  lemma SameName(c: Codec, w: Piece, x: Piece)
    requires Whole(c, w) && Whole(c, x) && w.built.root.digest == x.built.root.digest
    ensures w.records == x.records
  {
    hide Whole, RunIdentity.Named;
    WholeParts(c, w);
    WholeParts(c, x);
    RunIdentity.SameRoot(c, w.records, w.built.root, w.built.objects, w.b.trees,
                         x.records, x.built.root, x.built.objects, x.b.trees);
  }

  /** Equal records with equal sizing give equal shards. */
  lemma SameShards(c: Codec, w: Piece, x: Piece)
    requires Whole(c, w) && Whole(c, x) && w.records == x.records && Sizing(w.expected) == Sizing(x.expected)
    ensures w.b.filter == x.b.filter
  {
    hide Whole, Sums, FilterOk, Sizing, RunWriter.Holds, Merge.DistinctKeys;
    WholeSized(c, w);
    WholeSized(c, x);
    SumsOne(c, Merge.DistinctKeys(w.records), w.built.shards, w.b.size, w.b.filter, x.b.filter);
  }

  /** A shard of one run that stands at a path of another has the same bytes, unless it was sized anew. */
  lemma ShardAgrees(c: Codec, w: Piece, x: Piece, e: (Path, Bytes), f: (Path, Bytes))
    requires Whole(c, w) && Whole(c, x) && e in w.built.summary && f in x.built.summary && e.0 == f.0
    ensures w.records == x.records && Sizing(w.expected).0 == Sizing(x.expected).0
    ensures !Resized(x.expected, w.expected) ==> e.1 == f.1
  {
    hide Whole, EncodeShard, FilterOk, Sizing, RunWriter.Holds, Sums;
    ShardAt(c, w, e);
    ShardAt(c, x, f);
    WholeSized(c, w);
    WholeSized(c, x);
    SameName(c, w, x);
    if !Resized(x.expected, w.expected) {
      SizingPair(w.expected, x.expected);
      SameShards(c, w, x);
    }
  }

  lemma SizingPair(a: nat, b: nat)
    requires Sizing(a).0 == Sizing(b).0 && !Resized(b, a)
    ensures Sizing(a) == Sizing(b)
  {
  }

  lemma ShardsFree(c: Codec, disk: Disk, past: seq<Piece>, w: Piece)
    requires Sourced(c, disk, past) && Whole(c, w) && !Repeats(past, w.records, w.expected)
    ensures Consistent(disk.shards, w.built.summary)
  {
    hide Whole, InStore, Resized;
    var summary := w.built.summary;
    forall e | e in summary && e.0 in disk.shards ensures disk.shards[e.0] == e.1 {
      var k :| 0 <= k < |past| && (e.0, disk.shards[e.0]) in past[k].built.summary;
      ShardAgrees(c, w, past[k], e, (e.0, disk.shards[e.0]));
    }
    forall e, f | e in summary && f in summary && e.0 == f.0 ensures e.1 == f.1 {
      ShardAgrees(c, w, w, e, f);
      NotResized(w.expected);
    }
  }

  lemma NotResized(a: nat)
    ensures !Resized(a, a)
  {
  }

  /** Equal records stand under one root. */
  lemma SameDigest(c: Codec, w: Piece, x: Piece)
    requires Whole(c, w) && Whole(c, x) && w.records == x.records
    ensures w.built.root.digest == x.built.root.digest
  {
    hide MayContain, RunWriter.Holds, PowerOfTwo, FilterOk, Merge.DistinctKeys, Sums, ShardCount, BytesPerShard;
    hide Lossless, Layout, Bounded, Separates, TreeOut, TreeRecords, Routed, KeysOk, EncodeRoot, AllOf;
  }

  /** A run written again with another shard size finds its first path taken. */
  lemma ShardsTaken(c: Codec, disk: Disk, past: seq<Piece>, w: Piece)
    requires Sourced(c, disk, past) && Whole(c, w) && Repeats(past, w.records, w.expected)
    ensures !Consistent(disk.shards, w.built.summary)
  {
    hide Whole, Resized, Sums, Sizing, EncodeShard;
    var k :| 0 <= k < |past| && past[k].records == w.records && Resized(past[k].expected, w.expected);
    var x := past[k];
    ResizedParts(x.expected, w.expected);
    WholeSized(c, w);
    WholeSized(c, x);
    SameDigest(c, w, x);
    var e, f := w.built.summary[0], x.built.summary[0];
    assert e in w.built.summary && f in x.built.summary && e.0 == f.0;
    ShardLength(c, e.0.run, e.0.shards, w.b.filter.address[0]);
    ShardLength(c, e.0.run, e.0.shards, x.b.filter.address[0]);
    assert e.1 != f.1;
    assert disk.shards[f.0] == f.1;
  }

  lemma ResizedParts(a: nat, b: nat)
    requires Resized(a, b)
    ensures Sizing(a).0 == Sizing(b).0 && Sizing(a).1 != Sizing(b).1
  {
  }

  lemma ShardLength(c: Codec, run: Digest, shards: nat, bits: Bytes)
    ensures |EncodeShard(c, run, Address, 0, shards, bits)| == HEADER_BYTES + |bits| + 32
  {
    BodyFields(run, Address, 0, shards, bits);
  }

  /** A written run finds all its names free exactly when it does not repeat one with another shard size. */
  lemma RoomIff(c: Codec, disk: Disk, past: seq<Piece>, w: Piece)
    requires Sourced(c, disk, past) && Whole(c, w)
    ensures Room(c, disk, w.built) <==> !Repeats(past, w.records, w.expected)
  {
    hide Sourced, Whole, Repeats, Consistent;
    BlobsFree(c, disk, past, w);
    if Repeats(past, w.records, w.expected) { ShardsTaken(c, disk, past, w); } else { ShardsFree(c, disk, past, w); }
  }

  // ---------------------------------------------------------------- a stored run

  /** The hash separates the objects these records are laid out in. */
  ghost predicate Separates(c: Codec, records: seq<Record>)
  {
    Bounded(c, records) ==>
      AllClean(c, Layout(c, records)) && CleanObject(c, EncodeRoot(Indexes(c, Layout(c, records))))
  }

  /** The run was written from these records, and all of it is stored. */
  ghost predicate Kept(c: Codec, disk: Disk, records: seq<Record>, built: BuiltRun, b: Backing)
  {
    Lossless(c) && IsWritten(c, records, built, b) && Separates(c, records) && InStore(c, disk, built)
  }

  ghost predicate IsWritten(c: Codec, records: seq<Record>, built: BuiltRun, b: Backing)
  {
    exists expected :: Written(c, records, expected, built, b)
  }

  lemma KeptMore(c: Codec, before: Disk, after: Disk, records: seq<Record>, built: BuiltRun, b: Backing)
    requires Kept(c, before, records, built, b) && Grown(before, after)
    ensures Kept(c, after, records, built, b)
  {
    hide IsWritten, Separates, Lossless, Addressed;
  }

  lemma KeptParts(c: Codec, disk: Disk, records: seq<Record>, built: BuiltRun, b: Backing)
    requires Kept(c, disk, records, built, b)
    ensures Built(c, records, built.root, built.objects, b.trees) && AllClean(c, b.trees) && b.records == records
    ensures CleanObject(c, EncodeRoot(Indexes(c, b.trees))) && built.keys == |Merge.DistinctKeys(records)|
  {
    hide Built, AllClean, CleanObject, EncodeRoot, Layout, Bounded, MayContain, RunWriter.Holds, PowerOfTwo, FilterOk;
    hide Merge.DistinctKeys, Sums, ShardCount, BytesPerShard;
  }

  /** The store holds every object of the run's trees. */
  lemma KeptHolds(c: Codec, disk: Disk, records: seq<Record>, built: BuiltRun, b: Backing)
    requires Kept(c, disk, records, built, b)
    ensures RunMerge.Holds(c, Blobs(disk), b.trees)
  {
    hide TreeObject, TreeRecords, TreeOk, Routed, AllClean, CleanObject, EncodeRoot, KeysOk, RefOf, Written;
    hide Merge.DistinctKeys, Separates, Lossless;
    KeptParts(c, disk, records, built, b);
    forall t, p, o | 0 <= p < |b.trees| && TreeObject(c, b.trees[p], o) ensures Blobs(disk)(t, RefOf(c, o)) == Some(o) {
      assert TreeOut(c, p, b.trees[p], built.objects);
      ObjectFits(c, p, b.trees[p], o);
      ShortRef(c, o);
      var i :| 0 <= i < |built.objects| && built.objects[i] == o;
      assert Addressed(c, built.objects)[i] in Addressed(c, built.objects);
    }
  }

  lemma ShortRef(c: Codec, o: Bytes)
    requires |o| <= MAX_PAGE
    ensures RefOf(c, o).digest == c.sha(o)
  {
  }

  /** How a reader sees the run. */
  function ViewOf(c: Codec, built: BuiltRun, trees: seq<Tree>, start: U64, end: U64): View
  {
    View(start, end, built.root.digest, built.shards, Indexes(c, trees))
  }

  /** Everything a reader relies on holds of a stored run. */
  lemma KeptServes(c: Codec, disk: Disk, records: seq<Record>, built: BuiltRun, b: Backing, start: U64, end: U64)
    requires Kept(c, disk, records, built, b) && forall r :: r in records ==> start <= r.block <= end
    ensures
      var v := ViewOf(c, built, b.trees, start, end);
      && Backs(c, v, b) && FilterOk(b.filter, v.shards, b.size) && Genuine(c, v, b, Shards(disk))
      && Stored(c, b, Blobs(disk)) && Summarized(v, Shards(disk))
  {
    hide Written, Separates, Lossless, AllClean, CleanObject, EncodeRoot, Built, TreeObject, RefOf, EncodeShard;
    hide Backs, Merge.DistinctKeys;
    var expected :| Written(c, records, expected, built, b);
    KeptParts(c, disk, records, built, b);
    KeptHolds(c, disk, records, built, b);
    WrittenBacks(c, records, expected, built, b, start, end);
    var v := ViewOf(c, built, b.trees, start, end);
    BackedFilter(c, v, b);
    forall t, kind, i | 0 <= i < v.shards
      ensures Shards(disk)(t, Path(v.run, v.shards, kind, i))
              == Some(EncodeShard(c, v.run, kind, i, v.shards, Bits(b, kind, i)))
    {
      assert (Path(v.run, v.shards, kind, i), EncodeShard(c, v.run, kind, i, v.shards, Bits(b, kind, i)))
          in built.summary;
    }
  }

  lemma BackedFilter(c: Codec, v: View, b: Backing)
    requires Backs(c, v, b)
    ensures FilterOk(b.filter, v.shards, b.size)
  {
  }

  // ---------------------------------------------------------------- opening and merging stored runs

  /** The root bytes of a written run; the root object is emitted last. */
  function RootBytes(built: BuiltRun): Bytes { if built.objects == [] then [] else built.objects[|built.objects| - 1] }

  /** Decode the root of a stored run. */
  method Open(c: Codec, built: BuiltRun, ghost disk: Disk, ghost records: seq<Record>, ghost b: Backing)
    returns (indexes: seq<Ref>)
    requires Kept(c, disk, records, built, b)
    ensures indexes == Indexes(c, b.trees)
  {
    hide Kept, EncodeRoot, IsRoot, Matches, AllClean, CleanObject, Represents, Lossless, Merge.DistinctKeys;
    KeptRoot(c, disk, records, built, b);
    var r := DecodeRoot(c, built.root, RootBytes(built));
    indexes := r.value;
  }

  lemma KeptRoot(c: Codec, disk: Disk, records: seq<Record>, built: BuiltRun, b: Backing)
    requires Kept(c, disk, records, built, b)
    ensures RootBytes(built) == EncodeRoot(Indexes(c, b.trees)) && Matches(c, built.root, RootBytes(built))
    ensures IsRoot(RootBytes(built), Indexes(c, b.trees))
  {
    hide Written, Separates, Lossless, AllClean, CleanObject, EncodeRoot, TreeOut, TreeRecords, Routed, KeysOk, IsRoot;
    hide Matches, Merge.DistinctKeys, InStore;
    KeptParts(c, disk, records, built, b);
    BuiltRepresents(c, records, built.root, built.objects, b.trees);
  }

  function KeySum(runs: seq<BuiltRun>): nat
  {
    if runs == [] then 0 else runs[0].keys + KeySum(runs[1..])
  }

  /** Every run of the list was written from its records and is stored. */
  ghost predicate AllKept(c: Codec, disk: Disk, lists: seq<seq<Record>>, runs: seq<BuiltRun>, bs: seq<Backing>)
  {
    && Lossless(c) && |lists| == |runs| == |bs|
    && forall k :: 0 <= k < |runs| ==> Kept(c, disk, lists[k], runs[k], bs[k])
  }

  /** How many keys the inputs of a merge have, counted input by input. */
  function KeyTotal(lists: seq<seq<Record>>): nat
  {
    if lists == [] then 0 else |Merge.DistinctKeys(lists[0])| + KeyTotal(lists[1..])
  }

  lemma {:induction false} SumIsTotal(c: Codec, disk: Disk, lists: seq<seq<Record>>, runs: seq<BuiltRun>,
                                      bs: seq<Backing>)
    requires AllKept(c, disk, lists, runs, bs)
    ensures KeySum(runs) == KeyTotal(lists)
  {
    hide Kept, Lossless, Merge.DistinctKeys;
    if runs != [] {
      assert Kept(c, disk, lists[0], runs[0], bs[0]);
      KeptParts(c, disk, lists[0], runs[0], bs[0]);
      SumIsTotal(c, disk, lists[1..], runs[1..], bs[1..]);
    }
  }

  /** A run cannot be written: the builder refuses it, or more keys are expected than a summary takes. */
  ghost predicate Unwritable(c: Codec, records: seq<Record>, expected: nat)
  {
    expected > MAX_KEYS || !KeysOk(records) || !Bounded(c, records)
  }

  ghost function Inputs(lists: seq<seq<Record>>, runs: seq<BuiltRun>, bs: seq<Backing>): (inputs: seq<RunMerge.Input>)
    requires |lists| == |runs| == |bs|
    ensures |inputs| == |runs| && RunMerge.Records(inputs) == lists
  {
    var inputs := seq(|runs|, k requires 0 <= k < |runs| => RunMerge.Input(lists[k], bs[k].trees, runs[k].objects));
    assert RunMerge.Records(inputs) == lists;
    inputs
  }

  function Roots(runs: seq<BuiltRun>): (roots: seq<(Ref, Bytes)>)
    ensures |roots| == |runs|
  {
    seq(|runs|, k requires 0 <= k < |runs| => (runs[k].root, RootBytes(runs[k])))
  }

  /** Stored runs are what a merge asks for. */
  lemma KeptMergeable(c: Codec, disk: Disk, lists: seq<seq<Record>>, runs: seq<BuiltRun>, bs: seq<Backing>)
    requires AllKept(c, disk, lists, runs, bs)
    ensures RunMerge.AllBuilt(c, Roots(runs), Inputs(lists, runs, bs))
    ensures RunMerge.AllGenuine(c, Roots(runs), Inputs(lists, runs, bs))
    ensures RunMerge.AllHold(c, Blobs(disk), Inputs(lists, runs, bs))
  {
    hide Kept, Lossless, Built, AllClean, CleanObject, EncodeRoot, RootBytes, RunMerge.Holds, Blobs, Matches, IsRoot;
    hide Merge.DistinctKeys;
    forall k | 0 <= k < |runs|
      ensures RunMerge.IsBuilt(c, runs[k].root, Inputs(lists, runs, bs)[k])
      ensures RootBytes(runs[k]) == EncodeRoot(Indexes(c, bs[k].trees)) && RunMerge.Holds(c, Blobs(disk), bs[k].trees)
    {
      assert Kept(c, disk, lists[k], runs[k], bs[k]);
      KeptParts(c, disk, lists[k], runs[k], bs[k]);
      KeptRoot(c, disk, lists[k], runs[k], bs[k]);
      KeptHolds(c, disk, lists[k], runs[k], bs[k]);
    }
  }

  /** Merge stored runs from their bytes and write the result; refused exactly when that cannot be written. */
  method MergeKept(c: Codec, disk: Disk, runs: seq<BuiltRun>, ghost lists: seq<seq<Record>>, ghost bs: seq<Backing>)
    returns (r: Result<BuiltRun>, ghost b: Backing)
    requires AllKept(c, disk, lists, runs, bs) && Merge.Disjoint(lists)
    ensures r.Ok? ==> Written(c, Merge.MergeAll(lists), KeyTotal(lists), r.value, b)
    ensures r.Err? <==> Unwritable(c, Merge.MergeAll(lists), KeyTotal(lists))
  {
    hide Kept, Lossless, Written, KeysOk, Bounded, Merge.Disjoint, Merge.MergeAll, RunMerge.AllBuilt;
    hide RunMerge.AllGenuine, RunMerge.AllHold, Blobs;
    b := Backing([], [], Filter([], []), 0);
    KeptMergeable(c, disk, lists, runs, bs);
    SumIsTotal(c, disk, lists, runs, bs);
    var expected := KeySum(runs);
    if expected > MAX_KEYS {
      return Err, b;
    }
    r, b := RunMerge.Compact(c, Roots(runs), expected, Blobs(disk), Inputs(lists, runs, bs));
  }
}
