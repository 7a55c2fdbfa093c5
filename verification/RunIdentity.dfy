/**
 A run's root reference names its records. Where the hash separates the objects of two
 runs, equal roots stand over equal trees, and equal trees hold equal records.
 */
module RunIdentity {
  import opened Bytes
  import opened Versions
  import opened RunFormat
  import opened FenceIndex
  import opened RunTree
  import opened RunReader
  import opened RunBuilder
  import PageLists

  /** Two readings of an index agree up to any fence. */
  lemma {:induction false} IndexPrefix(c: Codec, magic: Bytes, bytes: Bytes, shard: nat, fs: seq<Fence>,
                                       gs: seq<Fence>, i: nat)
    requires IsIndex(c, magic, bytes, shard, fs) && IsIndex(c, magic, bytes, shard, gs) && i <= |fs| && i <= |gs|
    ensures fs[..i] == gs[..i]
  {
    hide IsIndex, EncodeFences, ReadFence;
    if i > 0 {
      IndexPrefix(c, magic, bytes, shard, fs, gs, i - 1);
      IndexAt(c, magic, bytes, shard, fs, i - 1);
      IndexAt(c, magic, bytes, shard, gs, i - 1);
      assert fs[..i] == fs[..i - 1] + [fs[i - 1]] && gs[..i] == gs[..i - 1] + [gs[i - 1]];
    }
  }

  /** A byte string is the index of at most one list of fences. */
  lemma IndexUnique(c: Codec, magic: Bytes, bytes: Bytes, shard: nat, fs: seq<Fence>, gs: seq<Fence>)
    requires IsIndex(c, magic, bytes, shard, fs) && IsIndex(c, magic, bytes, shard, gs)
    ensures fs == gs
  {
    hide IsIndex, EncodeFences;
    IndexCount(c, magic, bytes, shard, fs);
    IndexCount(c, magic, bytes, shard, gs);
    IndexPrefix(c, magic, bytes, shard, fs, gs, |fs|);
    assert fs[..|fs|] == fs && gs[..|gs|] == gs;
  }

  /** A byte string is the root over at most one list of references. */
  lemma RootUnique(bytes: Bytes, refs: seq<Ref>, others: seq<Ref>)
    requires IsRoot(bytes, refs) && IsRoot(bytes, others)
    ensures refs == others
  {
    hide IsRoot, ReadRef;
    RootAt(bytes, refs, 0);
    RootAt(bytes, others, 0);
    forall p | 0 <= p < PARTITIONS ensures refs[p] == others[p] {
      RootAt(bytes, refs, p);
      RootAt(bytes, others, p);
    }
  }

  /** Of clean objects, one reference names one. */
  lemma SameRef(c: Codec, o: Bytes, q: Bytes)
    requires |o| <= MAX_PAGE && |q| <= MAX_PAGE && CleanObject(c, o) && RefOf(c, o) == RefOf(c, q)
    ensures o == q
  {
  }

  /** The tree of a partition as a builder lays it out, over objects the hash separates. */
  ghost predicate Sound(c: Codec, shard: nat, tree: Tree)
  {
    TreeOk(c, shard, tree) && Clean(c, tree) && Lossless(c)
  }

  lemma Owned(c: Codec, shard: nat, tree: Tree, o: Bytes)
    requires Sound(c, shard, tree) && TreeObject(c, tree, o)
    ensures CleanObject(c, o) && 0 < |o| <= MAX_PAGE
  {
    hide PageObject, LeafObject, InternalObject, TreeRecords, Sorted, RecordOk, CleanObject, Lossless;
    if i, j :| 0 <= i < |tree| && 0 <= j < |tree[i]| && o == PageObject(c, tree[i][j]) {
      assert LeafFits(c, tree[i]);
      assert PageFits(c, tree[i][j]);
    } else if i :| 0 <= i < |tree| && o == LeafObject(c, tree[i]) {
      assert LeafFits(c, tree[i]);
    }
  }

  lemma SamePage(c: Codec, shard: nat, a: Tree, b: Tree, i: nat, j: nat, k: nat)
    requires Sound(c, shard, a) && Sound(c, shard, b) && i < |a| && j < |b| && k < |a[i]| && k < |b[j]|
    requires RefOf(c, PageObject(c, a[i][k])) == RefOf(c, PageObject(c, b[j][k]))
    ensures a[i][k] == b[j][k]
  {
    hide PageObject, LeafObject, TreeRecords, Sorted, CleanObject, Lossless, EncodePage, RefOf, Clean;
    assert TreeObject(c, a, PageObject(c, a[i][k])) && TreeObject(c, b, PageObject(c, b[j][k]));
    Owned(c, shard, a, PageObject(c, a[i][k]));
    Owned(c, shard, b, PageObject(c, b[j][k]));
    SameRef(c, PageObject(c, a[i][k]), PageObject(c, b[j][k]));
    PageIsOk(c, shard, a, i, k);
    PageIsOk(c, shard, b, j, k);
    assert LeafFits(c, a[i]) && LeafFits(c, b[j]);
    assert PageFits(c, a[i][k]) && PageFits(c, b[j][k]);
    PageLists.PageObjectInjective(c, a[i][k], b[j][k]);
  }

  lemma SameLeaf(c: Codec, shard: nat, a: Tree, b: Tree, i: nat, j: nat)
    requires Sound(c, shard, a) && Sound(c, shard, b) && i < |a| && j < |b|
    requires RefOf(c, LeafObject(c, a[i])) == RefOf(c, LeafObject(c, b[j]))
    ensures a[i] == b[j]
  {
    hide PageObject, LeafObject, CleanObject, IsIndex, RefOf, TreeOk, Clean, Lossless;
    assert TreeObject(c, a, LeafObject(c, a[i])) && TreeObject(c, b, LeafObject(c, b[j]));
    Owned(c, shard, a, LeafObject(c, a[i]));
    Owned(c, shard, b, LeafObject(c, b[j]));
    SameRef(c, LeafObject(c, a[i]), LeafObject(c, b[j]));
    LeafIsIndex(c, shard, a, i);
    LeafIsIndex(c, shard, b, j);
    var fs, gs := Fences(c, a[i]), Fences(c, b[j]);
    IndexUnique(c, INDEX_MAGIC, LeafObject(c, a[i]), shard, fs, gs);
    forall k | 0 <= k < |a[i]| ensures a[i][k] == b[j][k] {
      assert fs[k] == gs[k];
      SamePage(c, shard, a, b, i, j, k);
    }
  }

  /** The object a partition's reference names. */
  lemma TopOwned(c: Codec, shard: nat, tree: Tree)
    requires Sound(c, shard, tree) && tree != []
    ensures TreeRef(c, tree) == RefOf(c, RootObject(c, tree)) && TreeRef(c, tree).digest != ZERO
    ensures CleanObject(c, RootObject(c, tree)) && |RootObject(c, tree)| <= MAX_PAGE
    ensures RootObject(c, tree)[..4] == if |tree| == 1 then INDEX_MAGIC else INTERNAL_MAGIC
  {
    hide PageObject, LeafObject, InternalObject, TreeOk, Clean, Lossless;
    Owned(c, shard, tree, RootObject(c, tree));
    Magics(c, tree, 0);
  }

  /** Partitions under one reference are equal. */
  lemma SameTree(c: Codec, shard: nat, a: Tree, b: Tree)
    requires Sound(c, shard, a) && Sound(c, shard, b) && TreeRef(c, a) == TreeRef(c, b)
    ensures a == b
  {
    hide PageObject, LeafObject, InternalObject, TreeOk, Clean, Lossless, RefOf, IsIndex, CleanObject;
    if a != [] { TopOwned(c, shard, a); }
    if b != [] { TopOwned(c, shard, b); }
    if a != [] && b != [] {
      SameRef(c, RootObject(c, a), RootObject(c, b));
      if |a| == 1 {
        SameLeaf(c, shard, a, b, 0, 0);
      } else {
        InternalIsIndex(c, shard, a);
        InternalIsIndex(c, shard, b);
        IndexUnique(c, INTERNAL_MAGIC, InternalObject(c, a), shard, Parents(c, a), Parents(c, b));
        forall i | 0 <= i < |a| ensures a[i] == b[i] {
          assert Parents(c, a)[i] == Parents(c, b)[i];
          SameLeaf(c, shard, a, b, i, i);
        }
      }
    }
  }

  /** Sorted records are determined by what is routed to each partition. */
  lemma SameRouted(c: Codec, a: seq<Record>, b: seq<Record>)
    requires Sorted(a) && Sorted(b) && forall p :: 0 <= p < PARTITIONS ==> Routed(c, a, p) == Routed(c, b, p)
    ensures a == b
  {
    hide Sorted, Partition;
    forall r ensures r in a <==> r in b {
      var p := Partition(c, r.key);
      assert r in Routed(c, a, p) <==> r in a;
      assert r in Routed(c, b, p) <==> r in b;
      PartitionBound(c, r.key);
    }
    SortedUnique(a, b);
  }

  lemma PartitionBound(c: Codec, key: Bytes)
    ensures 0 <= Partition(c, key) < PARTITIONS
  {
  }

  /** The run stands on clean objects under a clean root. */
  ghost predicate Named(c: Codec, records: seq<Record>, root: Ref, objects: seq<Bytes>, trees: seq<Tree>)
  {
    && Built(c, records, root, objects, trees) && Lossless(c) && AllClean(c, trees)
    && CleanObject(c, EncodeRoot(Indexes(c, trees)))
  }

  lemma NamedTree(c: Codec, records: seq<Record>, root: Ref, objects: seq<Bytes>, trees: seq<Tree>, p: nat)
    requires Named(c, records, root, objects, trees) && p < PARTITIONS
    ensures |trees| == PARTITIONS && Sound(c, p, trees[p]) && TreeRecords(trees[p]) == Routed(c, records, p)
    ensures Sorted(records)
  {
    hide TreeRecords, Routed, EncodeRoot, CleanObject, TreeOk, TreeObject, Lossless, AllOf;
    assert TreeOut(c, p, trees[p], objects);
  }

  lemma NamedRoot(c: Codec, records: seq<Record>, root: Ref, objects: seq<Bytes>, trees: seq<Tree>)
    requires Named(c, records, root, objects, trees)
    ensures IsRoot(EncodeRoot(Indexes(c, trees)), Indexes(c, trees))
    ensures root.digest == c.sha(EncodeRoot(Indexes(c, trees)))
    ensures CleanObject(c, EncodeRoot(Indexes(c, trees)))
  {
    hide Built, EncodeRoot, CleanObject, AllClean, Lossless, IsRoot;
    BuiltRepresents(c, records, root, objects, trees);
  }

  /** Runs under one root digest hold the same records. */
  lemma SameRoot(c: Codec, records: seq<Record>, root: Ref, objects: seq<Bytes>, trees: seq<Tree>,
                 others: seq<Record>, other: Ref, more: seq<Bytes>, copies: seq<Tree>)
    requires Named(c, records, root, objects, trees) && Named(c, others, other, more, copies)
    requires root.digest == other.digest
    ensures records == others
  {
    hide Named, EncodeRoot, IsRoot, Sound, TreeRecords, Routed, TreeRef;
    NamedRoot(c, records, root, objects, trees);
    NamedRoot(c, others, other, more, copies);
    RootUnique(EncodeRoot(Indexes(c, trees)), Indexes(c, trees), Indexes(c, copies));
    NamedTree(c, records, root, objects, trees, 0);
    NamedTree(c, others, other, more, copies, 0);
    forall p | 0 <= p < PARTITIONS ensures Routed(c, records, p) == Routed(c, others, p) {
      NamedTree(c, records, root, objects, trees, p);
      NamedTree(c, others, other, more, copies, p);
      assert Indexes(c, trees)[p] == Indexes(c, copies)[p];
      SameTree(c, p, trees[p], copies[p]);
    }
    SameRouted(c, records, others);
  }
}
