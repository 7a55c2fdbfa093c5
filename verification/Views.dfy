/**
 What a reader of a pinned head works on: one view per run, and what stands behind it,
 the built trees, the summary and the records both were made from.
 */
module Views {
  import opened Bytes
  import opened Versions
  import opened RunFormat
  import opened FenceIndex
  import opened RunTree
  import opened RunReader
  import opened RunBuilder
  import opened Bloom
  import opened Summary

  /** One run of the manifest, its root already decoded. */
  datatype View = View(start: U64, end: U64, run: Digest, shards: nat, indexes: seq<Ref>)

  datatype Backing = Backing(records: seq<Record>, trees: seq<Tree>, filter: Filter, size: nat)

  /** Whatever the store answers to the request numbered `nat`. */
  type Objects = (nat, Ref) -> Option<Bytes>
  type Summaries = (nat, Path) -> Option<Bytes>

  ghost predicate FilterBacks(c: Codec, v: View, b: Backing)
  {
    && FilterOk(b.filter, v.shards, b.size) && HEADER_BYTES + b.size + 32 <= MAX_SHARD
    && forall r :: r in b.records ==> MayContain(c, b.filter, v.shards, b.size, r.key)
  }

  ghost predicate TreesBack(c: Codec, v: View, b: Backing)
  {
    && |v.indexes| == PARTITIONS && Represents(c, v.indexes, b.trees)
    && (forall p :: 0 <= p < PARTITIONS ==> TreeRecords(b.trees[p]) == Routed(c, b.records, p))
    && Sorted(b.records) && forall r :: r in b.records ==> v.start <= r.block <= v.end
  }

  ghost predicate Backs(c: Codec, v: View, b: Backing)
  {
    TreesBack(c, v, b) && FilterBacks(c, v, b)
  }

  function Bits(b: Backing, kind: Kind, i: nat): Bytes
    requires i < |b.filter.address| && i < |b.filter.spill|
  {
    if kind == Address then b.filter.address[i] else b.filter.spill[i]
  }

  /** A shard in the store, if it is there, is the one its run was published with. */
  ghost predicate Genuine(c: Codec, v: View, b: Backing, summaries: Summaries)
    requires FilterOk(b.filter, v.shards, b.size)
  {
    forall t, kind, i :: 0 <= i < v.shards && summaries(t, Path(v.run, v.shards, kind, i)).Some? ==>
      summaries(t, Path(v.run, v.shards, kind, i)).value == EncodeShard(c, v.run, kind, i, v.shards, Bits(b, kind, i))
  }

  /** Views, oldest first, each with its backing and genuine shards. */
  ghost predicate Backed(c: Codec, views: seq<View>, bs: seq<Backing>, summaries: Summaries)
  {
    && |views| == |bs|
    && (forall j :: 0 <= j < |views| ==> Backs(c, views[j], bs[j]))
    && (forall j :: 0 <= j < |views| ==> Genuine(c, views[j], bs[j], summaries))
    && (forall i, j :: 0 <= i < j < |views| ==> views[i].end < views[j].start)
  }

  ghost function AllRecords(bs: seq<Backing>): set<Record>
  {
    set j, r | 0 <= j < |bs| && r in bs[j].records :: r
  }

  // ---------------------------------------------------------------- answers

  ghost predicate Invisible(b: Backing, key: Bytes, block: int)
  {
    forall r :: r in b.records ==> !Visible(r, key, block)
  }

  /** A search of one run, clamped to its end, answers for its records. */
  lemma RunAnswer(c: Codec, v: View, b: Backing, key: Bytes, block: nat)
    requires TreesBack(c, v, b)
    ensures
      var clamped := if block < v.end then block else v.end;
      IsAnswer(Contents(b.records), key, block, Search(TreeRecords(b.trees[Partition(c, key)]), key, clamped))
  {
    hide Search, IsAnswer, TreeRecords, Roots, Routed, Sorted, Partition;
    var clamped := if block < v.end then block else v.end;
    var p := Partition(c, key);
    var found := Search(TreeRecords(b.trees[p]), key, clamped);
    assert Roots(c, p, v.indexes[p], b.trees[p]);
    TreeSorted(c, p, v.indexes[p], b.trees[p]);
    SearchIsAnswer(TreeRecords(b.trees[p]), key, clamped);
    RoutedAnswer(c, b.records, key, clamped, found);
    AnswerClamped(Contents(b.records), v.end, key, block, found);
  }

  lemma TreeSorted(c: Codec, shard: nat, root: Ref, tree: Tree)
    requires Roots(c, shard, root, tree)
    ensures Sorted(TreeRecords(tree))
  {
  }

  /** The newest run that answers, answers for all. */
  lemma FoundAnswer(c: Codec, views: seq<View>, bs: seq<Backing>, summaries: Summaries, j: nat, key: Bytes,
                    block: int, value: Bytes)
    requires Backed(c, views, bs, summaries) && j < |bs|
    requires forall k :: j < k < |bs| ==> Invisible(bs[k], key, block)
    requires IsAnswer(Contents(bs[j].records), key, block, Some(value))
    ensures IsAnswer(AllRecords(bs), key, block, Some(value))
  {
    hide FilterBacks, Genuine, Represents, Sorted, Routed;
    var r :| Newest(Contents(bs[j].records), key, block, r) && r.value == value;
    assert r in bs[j].records && r in AllRecords(bs);
    forall q | q in AllRecords(bs) && Visible(q, key, block) ensures q.block <= r.block {
      var k :| 0 <= k < |bs| && q in bs[k].records;
      assert k <= j;
      assert Backs(c, views[j], bs[j]) && Backs(c, views[k], bs[k]);
      if k == j { assert q in Contents(bs[j].records); }
    }
    assert Newest(AllRecords(bs), key, block, r);
  }

  lemma NothingAnswer(bs: seq<Backing>, key: Bytes, block: int)
    requires forall k :: 0 <= k < |bs| ==> Invisible(bs[k], key, block)
    ensures IsAnswer(AllRecords(bs), key, block, None)
  {
  }

  // ---------------------------------------------------------------- exact summaries

  ghost predicate HasKey(records: seq<Record>, key: Bytes)
  {
    exists r :: r in records && r.key == key
  }

  /** More than the light limit of distinct keys share the group. */
  ghost predicate Heavy(records: seq<Record>, group: Bytes)
  {
    exists ks: seq<Bytes> ::
      && |ks| > HEAVY_GROUP && (forall i, j :: 0 <= i < j < |ks| ==> ks[i] != ks[j])
      && forall i :: 0 <= i < |ks| ==> HasKey(records, ks[i]) && Group(ks[i]) == group
  }

  /** The summary has no false positive about `key`: neither it nor its marker is found by chance. */
  ghost predicate Exact(c: Codec, v: View, b: Backing, key: Bytes)
    requires FilterOk(b.filter, v.shards, b.size)
  {
    && (MayContain(c, b.filter, v.shards, b.size, key) ==> HasKey(b.records, key))
    && (Contains(b.filter.address[AddressIndex(c, Group(key), v.shards)], c.sha(Marker(Group(key)))) ==>
          Heavy(b.records, Group(key)))
  }

  /** A granted key that does not answer sits in the run that straddles the block. */
  lemma MissStraddles(c: Codec, v: View, b: Backing, key: Bytes, block: int)
    requires Backs(c, v, b) && HasKey(b.records, key) && Invisible(b, key, block)
    ensures v.end > block
  {
    hide FilterBacks, Represents, Sorted, Routed;
    var r :| r in b.records && r.key == key;
    assert v.end <= block ==> Visible(r, key, block);
  }

  // ---------------------------------------------------------------- honest stores

  /** The store holds every object of the run. */
  ghost predicate Stored(c: Codec, b: Backing, objects: Objects)
  {
    forall t, p, o :: 0 <= p < |b.trees| && TreeObject(c, b.trees[p], o) ==> objects(t, RefOf(c, o)) == Some(o)
  }

  /** The store holds every shard of the run. */
  ghost predicate Summarized(v: View, summaries: Summaries)
  {
    forall t, kind, i :: 0 <= i < v.shards ==> summaries(t, Path(v.run, v.shards, kind, i)).Some?
  }

  lemma ObjectFits(c: Codec, shard: nat, tree: Tree, o: Bytes)
    requires TreeOk(c, shard, tree) && TreeObject(c, tree, o)
    ensures 0 < |o| <= MAX_PAGE && Matches(c, RefOf(c, o), o)
  {
    hide PageObject, LeafObject, InternalObject, TreeRecords, Sorted, RecordOk;
    if i, j :| 0 <= i < |tree| && 0 <= j < |tree[i]| && o == PageObject(c, tree[i][j]) {
      assert LeafFits(c, tree[i]);
      assert PageFits(c, tree[i][j]);
    } else if i :| 0 <= i < |tree| && o == LeafObject(c, tree[i]) {
      assert LeafFits(c, tree[i]);
    }
  }
}
