/**
 Walking a run: its index objects and its data pages in scan order, without reading a
 page. Garbage collection marks exactly these, and the read-ahead lists its pages by them.
 */
module RunWalk {
  import opened Bytes
  import opened Versions
  import opened RunFormat
  import opened FenceIndex
  import opened RunTree
  import opened RunReader
  import opened RunScanner

  /** The store holds every object of the tree and returns it. */
  ghost predicate Serving(c: Codec, tree: Tree, fetch: Fetch)
  {
    forall asked, o :: TreeObject(c, tree, o) ==> fetch(asked, RefOf(c, o)) == Some(o)
  }

  function Data(fences: seq<Fence>): (refs: seq<Ref>)
    ensures |refs| == |fences| && forall i :: 0 <= i < |fences| ==> refs[i] == fences[i].data
  {
    seq(|fences|, i requires 0 <= i < |fences| => fences[i].data)
  }

  lemma DataOfLeaf(c: Codec, leaf: Leaf)
    ensures Data(Fences(c, leaf)) == PageRefs(c, leaf)
  {
  }

  lemma {:induction false} PagesMore(c: Codec, tree: Tree, i: nat)
    requires i < |tree|
    ensures TreePages(c, tree[..i + 1]) == TreePages(c, tree[..i]) + PageRefs(c, tree[i])
  {
    hide PageRefs, PageObject;
    if i == 0 {
      assert tree[..1] == [tree[0]];
    } else {
      PagesMore(c, tree[1..], i - 1);
      assert tree[..i + 1][1..] == tree[1..][..i] && tree[..i][1..] == tree[1..][..i - 1];
      assert tree[1..][i - 1] == tree[i];
    }
  }

  /** The index references found are those of the internal root and of the leaves. */
  function IndexRefs(c: Codec, tree: Tree): seq<Ref>
  {
    if tree == [] then [] else if |tree| == 1 then [TreeRef(c, tree)] else [TreeRef(c, tree)] + Data(Parents(c, tree))
  }

  /** The leaves under an internal root. */
  method WalkLeaves(c: Codec, shard: nat, parents: seq<Fence>, fetch: Fetch, before: seq<Ref>, ghost root: Ref,
                    ghost tree: Tree)
    returns (r: Result<(seq<Ref>, seq<Ref>)>)
    ensures Roots(c, shard, root, tree) && parents == Parents(c, tree) && r.Ok? ==>
              r.value == (before + Data(parents), TreePages(c, tree))
    ensures Roots(c, shard, root, tree) && parents == Parents(c, tree) && Serving(c, tree, fetch) ==> r.Ok?
  {
    hide TreeOk, Clean, LeafObject, IsIndex, TreePages, PageRefs, Lossless, TreeRef;
    var refs, pages: seq<Ref> := before, [];
    NoPages(c);
    for i := 0 to |parents|
      invariant refs == before + Data(parents[..i])
      invariant Roots(c, shard, root, tree) && parents == Parents(c, tree) ==> pages == TreePages(c, tree[..i])
    {
      var parent := parents[i];
      ghost var good := Roots(c, shard, root, tree) && parents == Parents(c, tree);
      if good { LeafBytes(c, shard, tree, i, []); }
      if !RefOk(parent.data, MAX_INDEX) {
        return Err;
      }
      var bytes := fetch(refs + [parent.data], parent.data);
      refs := refs + [parent.data];
      assert Data(parents[..i + 1]) == Data(parents[..i]) + [parent.data];
      if bytes.None? {
        return Err;
      }
      var leaf := DecodeIndex(c, parent.data, bytes.value, shard, INDEX_MAGIC);
      if good {
        LeafBytes(c, shard, tree, i, bytes.value);
        DataOfLeaf(c, tree[i]);
        PagesMore(c, tree, i);
      }
      if leaf.Err? {
        return Err;
      }
      pages := pages + Data(leaf.value);
    }
    assert parents[..|parents|] == parents;
    assert |parents| == |tree| ==> tree[..|parents|] == tree;
    return Ok((refs, pages));
  }

  lemma NoPages(c: Codec)
    ensures TreePages(c, []) == []
  {
  }

  /** The index objects and data pages of one partition. */
  method WalkPartition(c: Codec, shard: nat, root: Ref, fetch: Fetch, ghost tree: Tree)
    returns (r: Result<(seq<Ref>, seq<Ref>)>)
    ensures Roots(c, shard, root, tree) && r.Ok? ==> r.value == (IndexRefs(c, tree), TreePages(c, tree))
    ensures Roots(c, shard, root, tree) && Serving(c, tree, fetch) ==> r.Ok?
  {
    hide TreeOk, Clean, LeafObject, InternalObject, IsIndex, PageRefs, Lossless;
    if Roots(c, shard, root, tree) && tree != [] { RootVerified(c, shard, root, tree, []); }
    if root == DEFAULT_REF {
      return Ok(([], []));
    }
    if !RefOk(root, MAX_INDEX) {
      return Err;
    }
    var bytes := fetch([], root);
    if bytes.None? {
      return Err;
    }
    if Roots(c, shard, root, tree) { RootVerified(c, shard, root, tree, bytes.value); }
    assert |bytes.value| >= 4 && bytes.value[..4] == INTERNAL_MAGIC ==> INTERNAL_MAGIC <= bytes.value;
    if INTERNAL_MAGIC <= bytes.value {
      var parents := DecodeIndex(c, root, bytes.value, shard, INTERNAL_MAGIC);
      if Roots(c, shard, root, tree) && |tree| > 1 { InternalIsIndex(c, shard, tree); }
      if parents.Err? {
        return Err;
      }
      r := WalkLeaves(c, shard, parents.value, fetch, [root], root, tree);
      return;
    }
    var leaf := DecodeIndex(c, root, bytes.value, shard, INDEX_MAGIC);
    if Roots(c, shard, root, tree) && |tree| == 1 {
      LeafIsIndex(c, shard, tree, 0);
      DataOfLeaf(c, tree[0]);
      PagesMore(c, tree, 0);
      assert tree[..1] == tree && tree[..0] == [];
      NoPages(c);
    }
    if leaf.Err? {
      return Err;
    }
    assert Roots(c, shard, root, tree) ==> |tree| == 1;
    assert Roots(c, shard, root, tree) ==> TreePages(c, tree) == Data(leaf.value);
    return Ok(([root], Data(leaf.value)));
  }

  /** Every object of a partition is found: nothing a run needs is left unmarked. */
  lemma WalkComplete(c: Codec, tree: Tree, o: Bytes)
    requires TreeObject(c, tree, o)
    ensures RefOf(c, o) in IndexRefs(c, tree) || RefOf(c, o) in TreePages(c, tree)
  {
    hide PageObject, LeafObject, InternalObject, TreePages, RefOf;
    if i :| 0 <= i < |tree| && o == LeafObject(c, tree[i]) {
      assert |tree| > 1 ==> Data(Parents(c, tree))[i] == RefOf(c, o);
    } else if i, j :| 0 <= i < |tree| && 0 <= j < |tree[i]| && o == PageObject(c, tree[i][j]) {
      PageFound(c, tree, i, j);
    }
  }

  lemma {:induction false} PageFound(c: Codec, tree: Tree, i: nat, j: nat)
    requires i < |tree| && j < |tree[i]|
    ensures RefOf(c, PageObject(c, tree[i][j])) in TreePages(c, tree)
  {
    hide PageObject, RefOf;
    if i == 0 {
      assert PageRefs(c, tree[0])[j] in PageRefs(c, tree[0]);
    } else {
      PageFound(c, tree[1..], i - 1, j);
    }
  }

  /** And nothing else is: every reference found belongs to an object of the partition. */
  lemma WalkSound(c: Codec, tree: Tree, ref: Ref)
    requires ref in IndexRefs(c, tree) || ref in TreePages(c, tree)
    ensures exists o :: TreeObject(c, tree, o) && ref == RefOf(c, o)
  {
    hide PageObject, LeafObject, InternalObject, TreePages, RefOf;
    if ref in IndexRefs(c, tree) {
      if ref == TreeRef(c, tree) {
        assert TreeObject(c, tree, RootObject(c, tree));
      } else {
        var i :| 0 <= i < |tree| && Data(Parents(c, tree))[i] == ref;
        assert TreeObject(c, tree, LeafObject(c, tree[i]));
      }
    } else {
      var i, j := PageOrigin(c, tree, ref);
      assert TreeObject(c, tree, PageObject(c, tree[i][j]));
    }
  }

  lemma {:induction false} PageOrigin(c: Codec, tree: Tree, ref: Ref) returns (i: nat, j: nat)
    requires ref in TreePages(c, tree)
    ensures i < |tree| && j < |tree[i]| && ref == RefOf(c, PageObject(c, tree[i][j]))
  {
    hide PageObject, RefOf;
    if ref in PageRefs(c, tree[0]) {
      i := 0;
      j :| 0 <= j < |tree[0]| && PageRefs(c, tree[0])[j] == ref;
    } else {
      i, j := PageOrigin(c, tree[1..], ref);
      i := i + 1;
    }
  }
}
