/**
 The page lists of a merge. Over runs that share no version, no page is listed twice and
 no index object is listed as a page, so the windows of the read-ahead are kept.
 */
module PageLists {
  import opened Bytes
  import opened Versions
  import opened RunFormat
  import opened FenceIndex
  import opened RunTree
  import opened RunReader
  import opened ReadAhead
  import opened RunScanner
  import opened RunWalk

  /** All pages of a tree, in scan order. */
  function AllPages(tree: Tree): seq<Page> { Flatten(tree) }

  lemma RefsConcat(c: Codec, a: seq<Page>, b: seq<Page>)
    ensures PageRefs(c, a + b) == PageRefs(c, a) + PageRefs(c, b)
  {
  }

  lemma {:induction false} TreePagesAre(c: Codec, tree: Tree)
    ensures TreePages(c, tree) == PageRefs(c, AllPages(tree))
  {
    hide PageRefs, PageObject;
    if tree == [] {
      FlattenNil<Page>();
      NoRefs(c);
    } else {
      var last := |tree| - 1;
      TreePagesAre(c, tree[..last]);
      PagesMore(c, tree, last);
      assert tree[..last + 1] == tree;
      RefsConcat(c, AllPages(tree[..last]), tree[last]);
    }
  }

  lemma NoRefs(c: Codec)
    ensures PageRefs(c, []) == []
  {
  }

  lemma {:induction false} FlattenTwice(tree: Tree)
    ensures TreeRecords(tree) == Flatten(AllPages(tree))
  {
    if tree == [] {
      FlattenNil<Record>();
      assert LeafLists(tree) == [];
    } else {
      var last := |tree| - 1;
      var front := tree[..last];
      FlattenTwice(front);
      assert LeafLists(tree)[..last] == LeafLists(front);
      FlattenConcat(AllPages(front), tree[last]);
    }
  }

  lemma {:induction false} FlattenConcat(a: seq<Page>, b: seq<Page>)
    ensures Flatten(a + b) == Flatten(a) + Flatten(b)
  {
    FlattenSplit<Record>(a + b, |a|);
    assert (a + b)[..|a|] == a && (a + b)[|a|..] == b;
  }

  // ---------------------------------------------------------------- pages of one tree

  /** Page `k` of the tree: it is well formed, and an object of the tree. */
  lemma PageOf(c: Codec, shard: nat, tree: Tree, k: nat)
    requires TreeOk(c, shard, tree) && k < |AllPages(tree)|
    ensures IsPage(c, EncodePage(AllPages(tree)[k]), None, AllPages(tree)[k])
    ensures forall r :: r in AllPages(tree)[k] ==> r in TreeRecords(tree)
    ensures k < |TreePages(c, tree)| && TreePages(c, tree)[k] == RefOf(c, PageObject(c, AllPages(tree)[k]))
    ensures TreeObject(c, tree, PageObject(c, AllPages(tree)[k])) && PageFits(c, AllPages(tree)[k])
  {
    hide PageObject, Sorted, EncodePage, LeafObject;
    var page := AllPages(tree)[k];
    TreePagesAre(c, tree);
    FlattenTwice(tree);
    PartSorted(AllPages(tree), k);
    var i, j := PageIn(tree, k);
    PageIsOk(c, shard, tree, i, j);
    assert TreeObject(c, tree, PageObject(c, tree[i][j]));
    assert LeafFits(c, tree[i]);
  }

  lemma {:induction false} PageIn(tree: Tree, k: nat) returns (i: nat, j: nat)
    requires k < |AllPages(tree)|
    ensures i < |tree| && j < |tree[i]| && tree[i][j] == AllPages(tree)[k]
  {
    var last := |tree| - 1;
    var front := AllPages(tree[..last]);
    if k < |front| {
      i, j := PageIn(tree[..last], k);
    } else {
      i, j := last, k - |front|;
    }
  }

  lemma SameTreePages(tree: Tree, k: nat, n: nat)
    requires Sorted(TreeRecords(tree)) && k < n < |AllPages(tree)|
    ensures AllPages(tree)[k] != AllPages(tree)[n]
  {
    FlattenTwice(tree);
    FirstsSorted(AllPages(tree), k, n);
    BeforeIrreflexive(At(AllPages(tree)[k][0]));
  }

  /** Equal page objects hold equal records. */
  lemma PageObjectInjective(c: Codec, p: Page, q: Page)
    requires Lossless(c) && PageObject(c, p) == PageObject(c, q)
    requires IsPage(c, EncodePage(p), None, p) && IsPage(c, EncodePage(q), None, q)
    requires |EncodePage(p)| <= MAX_PAGE && |EncodePage(q)| <= MAX_PAGE
    ensures p == q
  {
    hide EncodePage, IsPage, BigEndian;
    assert PageObject(c, p)[13..] == c.compress(EncodePage(p));
    assert PageObject(c, q)[13..] == c.compress(EncodePage(q));
    assert c.decompress(c.compress(EncodePage(p))) == Some(EncodePage(p));
    assert c.decompress(c.compress(EncodePage(q))) == Some(EncodePage(q));
    PageUnique(c, EncodePage(p), None, p, q);
  }

  // ---------------------------------------------------------------- many runs

  /** Two trees share no version. */
  ghost predicate Unshared(a: Tree, b: Tree)
  {
    forall r, q :: r in TreeRecords(a) && q in TreeRecords(b) ==> At(r) != At(q)
  }

  /** The partitions of the merged runs, one after the other, and their page lists. */
  ghost predicate Listed(c: Codec, trees: seq<Tree>, lists: seq<seq<Ref>>)
  {
    && |trees| == |lists| && Lossless(c)
    && (forall l :: 0 <= l < |trees| ==> TreeOk(c, l % PARTITIONS, trees[l]) && Clean(c, trees[l]))
    && (forall l :: 0 <= l < |trees| ==> lists[l] == TreePages(c, trees[l]))
  }

  ghost predicate AllUnshared(trees: seq<Tree>)
  {
    forall l, m :: 0 <= l < m < |trees| ==> Unshared(trees[l], trees[m])
  }

  lemma SameDigest(c: Codec, a: Tree, b: Tree, sa: nat, sb: nat, k: nat, n: nat)
    requires Lossless(c) && TreeOk(c, sa, a) && TreeOk(c, sb, b) && Clean(c, a)
    requires k < |TreePages(c, a)| && n < |TreePages(c, b)| && TreePages(c, a)[k].digest == TreePages(c, b)[n].digest
    ensures k < |AllPages(a)| && n < |AllPages(b)| && AllPages(a)[k] == AllPages(b)[n]
    ensures forall r :: r in AllPages(a)[k] ==> r in TreeRecords(a) && r in TreeRecords(b)
  {
    hide TreeOk, PageObject, EncodePage, IsPage, TreeRecords, AllPages, Clean, TreeObject, TreePages;
    TreePagesAre(c, a);
    TreePagesAre(c, b);
    PageOf(c, sa, a, k);
    PageOf(c, sb, b, n);
    ObjectIs(c, a, PageObject(c, AllPages(a)[k]), PageObject(c, AllPages(b)[n]));
    PageObjectInjective(c, AllPages(a)[k], AllPages(b)[n]);
  }

  /** Runs that share no version list no page twice. */
  lemma ListsDistinct(c: Codec, trees: seq<Tree>, lists: seq<seq<Ref>>)
    requires Listed(c, trees, lists) && AllUnshared(trees)
    ensures DistinctPages(lists)
  {
    hide TreeOk, TreeRecords, AllPages, Clean, TreePages, Lossless, Unshared;
    forall l, k, m, n | 0 <= l < |lists| && 0 <= k < |lists[l]| && 0 <= m < |lists| && 0 <= n < |lists[m]|
      && lists[l][k].digest == lists[m][n].digest
      ensures l == m && k == n
    {
      SameDigest(c, trees[l], trees[m], l % PARTITIONS, m % PARTITIONS, k, n);
      PagesApart(c, trees, l, k, m, n);
    }
  }

  lemma PagesApart(c: Codec, trees: seq<Tree>, l: nat, k: nat, m: nat, n: nat)
    requires AllUnshared(trees) && l < |trees| && m < |trees|
    requires forall i :: 0 <= i < |trees| ==> TreeOk(c, i % PARTITIONS, trees[i])
    requires k < |AllPages(trees[l])| && n < |AllPages(trees[m])| && AllPages(trees[l])[k] == AllPages(trees[m])[n]
    requires forall r :: r in AllPages(trees[l])[k] ==> r in TreeRecords(trees[l]) && r in TreeRecords(trees[m])
    ensures l == m && k == n
  {
    hide TreeRecords, AllPages, Sorted, LeafFits, RecordOk;
    var first := AllPages(trees[l])[k][0];
    assert first in AllPages(trees[l])[k];
    assert !Unshared(trees[l], trees[m]) && !Unshared(trees[m], trees[l]);
    assert l == m;
    assert TreeOk(c, l % PARTITIONS, trees[l]);
    if k < n { SameTreePages(trees[l], k, n); }
    if n < k { SameTreePages(trees[l], n, k); }
  }

  /** And an index object is never listed as a page. */
  lemma ListsApart(c: Codec, trees: seq<Tree>, lists: seq<seq<Ref>>, l: nat)
    requires Listed(c, trees, lists) && l < |trees|
    ensures IndexesApart(c, lists, trees[l])
  {
    hide TreeOk, TreeRecords, Clean, TreePages, Lossless, LeafObject, InternalObject, RefOf;
    var tree := trees[l];
    assert TreeOk(c, l % PARTITIONS, tree);
    forall i | 0 <= i < |tree| ensures !InSomeList(lists, RefOf(c, LeafObject(c, tree[i])).digest) {
      Magics(c, tree, i);
      IndexSmall(c, l % PARTITIONS, tree, i);
      NotListed(c, trees, lists, LeafObject(c, tree[i]));
    }
    if |tree| > 1 {
      Magics(c, tree, 0);
      IndexSmall(c, l % PARTITIONS, tree, 0);
      NotListed(c, trees, lists, InternalObject(c, tree));
    }
  }

  lemma IndexSmall(c: Codec, shard: nat, tree: Tree, i: nat)
    requires TreeOk(c, shard, tree) && i < |tree|
    ensures |LeafObject(c, tree[i])| <= MAX_INDEX && (|tree| > 1 ==> |InternalObject(c, tree)| <= MAX_INDEX)
  {
    assert LeafFits(c, tree[i]);
  }

  lemma NotListed(c: Codec, trees: seq<Tree>, lists: seq<seq<Ref>>, o: Bytes)
    requires Listed(c, trees, lists) && 4 <= |o| <= MAX_INDEX && o[..4] != COMPRESSED_MAGIC
    ensures !InSomeList(lists, RefOf(c, o).digest)
  {
    hide TreeOk, TreeRecords, Clean, TreePages, Lossless, AllPages;
    if InSomeList(lists, RefOf(c, o).digest) {
      var m, k :| 0 <= m < |lists| && 0 <= k < |lists[m]| && lists[m][k].digest == RefOf(c, o).digest;
      PageNotIndex(c, m % PARTITIONS, trees[m], k, o);
    }
  }

  lemma PageNotIndex(c: Codec, shard: nat, tree: Tree, k: nat, o: Bytes)
    requires TreeOk(c, shard, tree) && Clean(c, tree) && k < |TreePages(c, tree)|
    requires 4 <= |o| <= MAX_INDEX && o[..4] != COMPRESSED_MAGIC
    ensures TreePages(c, tree)[k].digest != RefOf(c, o).digest
  {
    hide TreeOk, TreeRecords, Clean, TreePages, AllPages, PageObject, TreeObject, IsPage;
    TreePagesAre(c, tree);
    PageOf(c, shard, tree, k);
    PageMagic(c, AllPages(tree)[k]);
    if TreePages(c, tree)[k].digest == RefOf(c, o).digest {
      ObjectIs(c, tree, PageObject(c, AllPages(tree)[k]), o);
    }
  }

  lemma PageMagic(c: Codec, page: Page)
    ensures PageObject(c, page)[..4] == COMPRESSED_MAGIC
  {
  }
}
