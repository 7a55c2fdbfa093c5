/**
 The run scanner: sixteen partition cursors that read pages in order, merged by their
 fronts. Scanning a built run through the read-ahead returns exactly its input, in order.
 */
module RunScanner {
  import opened Bytes
  import opened Versions
  import opened RunFormat
  import opened FenceIndex
  import opened RunTree
  import opened RunReader
  import opened ReadAhead
  import opened RunBuilder

  datatype Cursor = Cursor(root: Ref, initialized: bool, parents: seq<Fence>, parentPos: nat, leaf: seq<Fence>,
                           fencePos: nat, page: seq<Record>, previous: Option<Version>, previousFence: Option<Version>)

  function NewCursor(root: Ref): Cursor { Cursor(root, false, [], 0, [], 0, [], None, None) }

  /** Where a cursor stands in its tree: leaves opened, pages taken of the last one, records returned. */
  datatype Place = Place(tree: Tree, leafNo: nat, pageNo: nat, seen: seq<Record>)

  ghost predicate PlaceOk(pl: Place)
  {
    && pl.leafNo <= |pl.tree|
    && (if pl.leafNo == 0 then pl.pageNo == 0 else pl.pageNo <= |pl.tree[pl.leafNo - 1]|)
  }

  /** The pages of the open leaf that were not taken yet. */
  function Left(pl: Place): seq<Page>
    requires PlaceOk(pl)
  {
    if pl.leafNo == 0 then [] else pl.tree[pl.leafNo - 1][pl.pageNo..]
  }

  function Unread(pl: Place): seq<Record>
    requires PlaceOk(pl)
  {
    Flatten(Left(pl)) + TreeRecords(pl.tree[pl.leafNo..])
  }

  // ---------------------------------------------------------------- page references

  function PageRefs(c: Codec, pages: seq<Page>): (refs: seq<Ref>)
    ensures |refs| == |pages| && forall j :: 0 <= j < |pages| ==> refs[j] == RefOf(c, PageObject(c, pages[j]))
  {
    seq(|pages|, j requires 0 <= j < |pages| => RefOf(c, PageObject(c, pages[j])))
  }

  /** The data pages of a partition, in scan order. */
  function TreePages(c: Codec, tree: Tree): seq<Ref>
  {
    if tree == [] then [] else PageRefs(c, tree[0]) + TreePages(c, tree[1..])
  }

  function Pending(c: Codec, pl: Place): seq<Ref>
    requires PlaceOk(pl)
  {
    PageRefs(c, Left(pl)) + TreePages(c, pl.tree[pl.leafNo..])
  }

  // ---------------------------------------------------------------- moving on

  function OpenLeaf(pl: Place): Place { pl.(leafNo := pl.leafNo + 1, pageNo := 0) }

  function TakePage(pl: Place): Place { pl.(pageNo := pl.pageNo + 1) }

  lemma TreeTail(tree: Tree)
    requires tree != []
    ensures TreeRecords(tree) == LeafRecords(tree[0]) + TreeRecords(tree[1..])
  {
    hide LeafRecords;
    var lists := LeafLists(tree);
    FlattenSplit(lists, 1);
    FlattenTake(lists, 0);
    FlattenNil<Record>();
    assert lists[..0] == [];
    assert lists[1..] == LeafLists(tree[1..]);
  }

  lemma PagesTail(pages: seq<Page>)
    requires pages != []
    ensures Flatten(pages) == pages[0] + Flatten(pages[1..])
  {
    FlattenSplit(pages, 1);
    FlattenTake(pages, 0);
    FlattenNil<Record>();
    assert pages[..0] == [];
  }

  /** Opening the next leaf leaves the unread records and pending pages as they are. */
  lemma OpenedLeaf(c: Codec, pl: Place)
    requires PlaceOk(pl) && Left(pl) == [] && pl.leafNo < |pl.tree|
    ensures PlaceOk(OpenLeaf(pl)) && Left(OpenLeaf(pl)) == pl.tree[pl.leafNo]
    ensures Unread(OpenLeaf(pl)) == Unread(pl) && Pending(c, OpenLeaf(pl)) == Pending(c, pl)
  {
    hide TreeRecords, PageObject;
    var rest := pl.tree[pl.leafNo..];
    assert rest[1..] == pl.tree[pl.leafNo + 1..];
    TreeTail(rest);
    FlattenNil<Record>();
    assert pl.tree[pl.leafNo][0..] == pl.tree[pl.leafNo];
    assert PageRefs(c, []) == [];
  }

  lemma TookPage(c: Codec, pl: Place)
    requires PlaceOk(pl) && Left(pl) != []
    ensures PlaceOk(TakePage(pl)) && Left(TakePage(pl)) == Left(pl)[1..]
    ensures Unread(pl) == Left(pl)[0] + Unread(TakePage(pl))
    ensures Pending(c, pl) == [RefOf(c, PageObject(c, Left(pl)[0]))] + Pending(c, TakePage(pl))
  {
    hide TreeRecords, PageObject, TreePages;
    PagesTail(Left(pl));
    assert PageRefs(c, Left(pl)) == [RefOf(c, PageObject(c, Left(pl)[0]))] + PageRefs(c, Left(pl)[1..]);
  }

  // ---------------------------------------------------------------- one cursor

  /** The buffers of a cursor hold what its place says. */
  ghost predicate Buffers(c: Codec, cur: Cursor, pl: Place)
  {
    && PlaceOk(pl)
    && (cur.initialized ==>
          && cur.fencePos <= |cur.leaf| && cur.leaf[cur.fencePos..] == Fences(c, Left(pl))
          && cur.parentPos <= |cur.parents| && cur.parents[cur.parentPos..] == Parents(c, pl.tree[pl.leafNo..]))
    && (!cur.initialized ==> cur == NewCursor(cur.root) && pl == Place(pl.tree, 0, 0, []))
  }

  /** The records are split between returned, buffered and unread; the order marks are of earlier records. */
  ghost predicate Progress(cur: Cursor, pl: Place)
    requires PlaceOk(pl)
  {
    && TreeRecords(pl.tree) == pl.seen + cur.page + Unread(pl)
    && (cur.previous.Some? ==> exists r :: r in pl.seen && At(r) == cur.previous.value)
    && (cur.previousFence.Some? ==> exists r :: r in pl.seen + cur.page && At(r) == cur.previousFence.value)
  }

  ghost predicate CursorOk(c: Codec, shard: nat, cur: Cursor, pl: Place)
  {
    PlaceOk(pl) && Roots(c, shard, cur.root, pl.tree) && Buffers(c, cur, pl) && Progress(cur, pl)
  }

  /** What a cursor still has to return. */
  function Remaining(cur: Cursor, pl: Place): seq<Record>
    requires PlaceOk(pl)
  {
    cur.page + Unread(pl)
  }

  lemma NewCursorOk(c: Codec, shard: nat, root: Ref, tree: Tree)
    requires Roots(c, shard, root, tree)
    ensures CursorOk(c, shard, NewCursor(root), Place(tree, 0, 0, []))
    ensures Remaining(NewCursor(root), Place(tree, 0, 0, [])) == TreeRecords(tree)
    ensures Pending(c, Place(tree, 0, 0, [])) == TreePages(c, tree)
  {
    hide TreeRecords, PageObject, TreePages, Roots;
    FlattenNil<Record>();
    assert tree[0..] == tree;
    assert PageRefs(c, []) == [];
  }

  /** The lists of the read-ahead agree with the cursor about the pages to come. */
  ghost predicate Tied(c: Codec, lists: seq<seq<Ref>>, asked: seq<nat>, l: nat, pl: Place)
  {
    && PlaceOk(pl) && |asked| == |lists| && l < |lists| && asked[l] <= |lists[l]|
    && lists[l][asked[l]..] == Pending(c, pl)
  }

  /** No index object of the tree is listed as a page. */
  ghost predicate IndexesApart(c: Codec, lists: seq<seq<Ref>>, tree: Tree)
  {
    && (forall i :: 0 <= i < |tree| ==> !InSomeList(lists, RefOf(c, LeafObject(c, tree[i])).digest))
    && (|tree| > 1 ==> !InSomeList(lists, RefOf(c, InternalObject(c, tree)).digest))
  }

  /** The read-ahead serves the tree: all its references resolve to its objects. */
  ghost predicate ServesTree(c: Codec, ahead: Ahead, tree: Tree)
  {
    ahead.ServesAll() && forall o :: TreeObject(c, tree, o) ==> ahead.Serves(RefOf(c, o))
  }

  /** How a step may change the read-ahead: it stays valid, and every state it goes through keeps the windows. */
  twostate predicate Kept(ahead: Ahead)
    reads ahead
  {
    && ahead.Valid() && old(ahead.history) <= ahead.history
    && (DistinctPages(ahead.lists) && Within(ahead.lists, old(ahead.history)) ==> Within(ahead.lists, ahead.history))
  }

  /** Bytes with the digest of the root are the root, and decode as what it is. */
  lemma RootBytes(c: Codec, shard: nat, root: Ref, tree: Tree, bytes: Bytes)
    requires Roots(c, shard, root, tree) && tree != [] && c.sha(bytes) == root.digest
    ensures Matches(c, root, bytes) && (INTERNAL_MAGIC <= bytes <==> |tree| > 1)
    ensures |tree| > 1 ==> IsIndex(c, INTERNAL_MAGIC, bytes, shard, Parents(c, tree))
    ensures |tree| == 1 ==> IsIndex(c, INDEX_MAGIC, bytes, shard, Fences(c, tree[0]))
  {
    hide TreeOk, LeafObject, InternalObject, IsIndex, Clean;
    var o := RootObject(c, tree);
    RootVerified(c, shard, root, tree, bytes);
    RootVerified(c, shard, root, tree, o);
    ObjectIs(c, tree, o, bytes);
    if |tree| > 1 { InternalIsIndex(c, shard, tree); } else { LeafIsIndex(c, shard, tree, 0); }
  }

  lemma ObjectIs(c: Codec, tree: Tree, o: Bytes, bytes: Bytes)
    requires Clean(c, tree) && TreeObject(c, tree, o) && c.sha(bytes) == c.sha(o)
    ensures bytes == o
  {
    assert CleanObject(c, o);
  }

  lemma LeafBytes(c: Codec, shard: nat, tree: Tree, i: nat, bytes: Bytes)
    requires TreeOk(c, shard, tree) && Clean(c, tree) && i < |tree|
    ensures RefOk(RefOf(c, LeafObject(c, tree[i])), MAX_INDEX) && TreeObject(c, tree, LeafObject(c, tree[i]))
    ensures c.sha(bytes) == RefOf(c, LeafObject(c, tree[i])).digest ==>
              && Matches(c, RefOf(c, LeafObject(c, tree[i])), bytes)
              && IsIndex(c, INDEX_MAGIC, bytes, shard, Fences(c, tree[i]))
  {
    hide TreeOk, LeafObject, IsIndex, Clean;
    ParentFence(c, shard, tree, i);
    LeafVerified(c, shard, tree, i, bytes);
    LeafIsIndex(c, shard, tree, i);
    if c.sha(bytes) == RefOf(c, LeafObject(c, tree[i])).digest {
      ObjectIs(c, tree, LeafObject(c, tree[i]), bytes);
      LeafVerified(c, shard, tree, i, bytes);
    }
  }

  lemma PageBytes(c: Codec, shard: nat, tree: Tree, i: nat, j: nat, bytes: Bytes)
    requires TreeOk(c, shard, tree) && Clean(c, tree) && i < |tree| && j < |tree[i]|
    ensures RefOk(RefOf(c, PageObject(c, tree[i][j])), MAX_PAGE) && TreeObject(c, tree, PageObject(c, tree[i][j]))
    ensures c.sha(bytes) == RefOf(c, PageObject(c, tree[i][j])).digest ==>
              && Matches(c, RefOf(c, PageObject(c, tree[i][j])), bytes)
              && IsPageObject(c, bytes, shard, tree[i][j])
  {
    hide TreeOk, PageObject, IsPageObject, Clean;
    LeafFence(c, shard, tree, i, j);
    PageVerified(c, shard, tree, i, j, bytes);
    if c.sha(bytes) == RefOf(c, PageObject(c, tree[i][j])).digest {
      ObjectIs(c, tree, PageObject(c, tree[i][j]), bytes);
    }
  }

  /** Read the root of the partition, once. */
  method OpenRoot(c: Codec, shard: nat, cur: Cursor, ahead: Ahead, ghost pl: Place)
    returns (r: Result<Cursor>, ghost next: Place)
    requires ahead.Valid() && ahead.c == c && CursorOk(c, shard, cur, pl) && IndexesApart(c, ahead.lists, pl.tree)
    modifies ahead`clock, ahead`ready, ahead`asked, ahead`history
    ensures Kept(ahead) && ahead.asked == old(ahead.asked)
    ensures r.Ok? ==> && CursorOk(c, shard, r.value, next) && r.value.initialized && next.tree == pl.tree
                      && Remaining(r.value, next) == Remaining(cur, pl) && Pending(c, next) == Pending(c, pl)
    ensures ServesTree(c, ahead, pl.tree) ==> r.Ok?
  {
    hide TreeOk, TreeRecords, LeafObject, InternalObject, IsIndex, Clean, DistinctPages, AllWindows, InSomeList;
    hide Unread, Pending, Lossless;
    next := pl;
    if cur.initialized {
      return Ok(cur), next;
    }
    ghost var tree := pl.tree;
    assert tree[0..] == tree;
    if tree != [] { RootVerified(c, shard, cur.root, tree, []); }
    if cur.root == DEFAULT_REF {
      assert Parents(c, tree) == [] && Fences(c, []) == [];
      return Ok(cur.(initialized := true)), next;
    }
    if !RefOk(cur.root, MAX_INDEX) {
      return Err, next;
    }
    RootListed(c, shard, cur.root, tree, ahead.lists);
    var bytes := ahead.Get(cur.root, |ahead.lists|);
    if bytes.None? {
      return Err, next;
    }
    RootBytes(c, shard, cur.root, tree, bytes.value);
    if INTERNAL_MAGIC <= bytes.value {
      var decoded := DecodeIndex(c, cur.root, bytes.value, shard, INTERNAL_MAGIC);
      if decoded.Err? {
        return Err, next;
      }
      assert Fences(c, Left(pl)) == [];
      return Ok(cur.(initialized := true, parents := decoded.value)), next;
    }
    var decoded := DecodeIndex(c, cur.root, bytes.value, shard, INDEX_MAGIC);
    if decoded.Err? {
      return Err, next;
    }
    OpenedLeaf(c, pl);
    next := OpenLeaf(pl);
    assert Parents(c, tree[1..]) == [];
    return Ok(cur.(initialized := true, leaf := decoded.value)), next;
  }

  lemma RootListed(c: Codec, shard: nat, root: Ref, tree: Tree, lists: seq<seq<Ref>>)
    requires Roots(c, shard, root, tree) && IndexesApart(c, lists, tree) && tree != []
    ensures !InSomeList(lists, root.digest)
  {
    hide TreeOk, LeafObject, InternalObject, Clean, InSomeList;
    RootVerified(c, shard, root, tree, []);
  }

  /** Open the next fence leaf under the internal root. */
  method NextLeaf(c: Codec, shard: nat, cur: Cursor, ahead: Ahead, ghost pl: Place)
    returns (r: Result<Cursor>, ghost next: Place)
    requires ahead.Valid() && ahead.c == c && CursorOk(c, shard, cur, pl) && IndexesApart(c, ahead.lists, pl.tree)
    requires cur.initialized && cur.fencePos == |cur.leaf| && cur.parentPos < |cur.parents|
    modifies ahead`clock, ahead`ready, ahead`asked, ahead`history
    ensures Kept(ahead) && ahead.asked == old(ahead.asked)
    ensures r.Ok? ==> && CursorOk(c, shard, r.value, next) && r.value.initialized && next.tree == pl.tree
                      && r.value.fencePos < |r.value.leaf| && r.value.page == cur.page
                      && Remaining(r.value, next) == Remaining(cur, pl) && Pending(c, next) == Pending(c, pl)
    ensures ServesTree(c, ahead, pl.tree) ==> r.Ok?
  {
    hide TreeOk, TreeRecords, LeafObject, InternalObject, IsIndex, Clean, DistinctPages, AllWindows, InSomeList;
    hide Unread, Pending, TreeRef, Lossless;
    next := pl;
    var parent := cur.parents[cur.parentPos];
    ghost var at := pl.leafNo;
    LaterParents(c, cur, pl);
    LeafBytes(c, shard, pl.tree, at, []);
    if !RefOk(parent.data, MAX_INDEX) {
      return Err, next;
    }
    var bytes := ahead.Get(parent.data, |ahead.lists|);
    if bytes.None? {
      return Err, next;
    }
    LeafBytes(c, shard, pl.tree, at, bytes.value);
    var leaf := DecodeIndex(c, parent.data, bytes.value, shard, INDEX_MAGIC);
    if leaf.Err? {
      return Err, next;
    }
    if leaf.value == [] || Mark(leaf.value[0]) != Mark(parent) {
      return Err, next;
    }
    OpenedLeaf(c, pl);
    next := OpenLeaf(pl);
    r := Ok(cur.(leaf := leaf.value, fencePos := 0, parentPos := cur.parentPos + 1));
  }

  lemma LaterParents(c: Codec, cur: Cursor, pl: Place)
    requires Buffers(c, cur, pl) && cur.initialized && cur.fencePos == |cur.leaf| && cur.parentPos < |cur.parents|
    ensures pl.leafNo < |pl.tree| && cur.parents[cur.parentPos] == ParentOf(c, pl.tree[pl.leafNo]) && Left(pl) == []
    ensures cur.parents[cur.parentPos + 1..] == Parents(c, pl.tree[pl.leafNo + 1..])
  {
    hide LeafObject, PageObject;
    var ps := cur.parents[cur.parentPos..];
    var rest := pl.tree[pl.leafNo..];
    assert |ps| == |rest| > 0;
    assert ps[0] == ParentOf(c, rest[0]);
    assert cur.parents[cur.parentPos + 1..] == ps[1..];
    assert pl.tree[pl.leafNo + 1..] == rest[1..];
  }

  /** Only list `l` of the read-ahead was asked for pages. */
  ghost predicate OnlyList(before: seq<nat>, after: seq<nat>, l: nat)
  {
    |before| == |after| && forall m :: 0 <= m < |before| && m != l ==> before[m] == after[m]
  }

  /** Take and decode the page behind a fence. */
  method TakePageOf(c: Codec, shard: nat, fence: Fence, ahead: Ahead, ghost l: nat, ghost root: Ref, ghost pl: Place)
    returns (r: Result<seq<Record>>)
    requires ahead.Valid() && ahead.c == c && Roots(c, shard, root, pl.tree) && Tied(c, ahead.lists, ahead.asked, l, pl)
    requires Left(pl) != [] && fence == FenceOf(c, Left(pl)[0])
    modifies ahead`clock, ahead`ready, ahead`asked, ahead`history
    ensures Kept(ahead) && OnlyList(old(ahead.asked), ahead.asked, l)
    ensures r.Ok? ==> && r.value == Left(pl)[0] && PlaceOk(TakePage(pl))
                      && Tied(c, ahead.lists, ahead.asked, l, TakePage(pl)) && ahead.asked == Taken(old(ahead.asked), l)
    ensures ServesTree(c, ahead, pl.tree) ==> r.Ok?
  {
    hide TreeOk, TreeRef, Clean, DistinctPages, AllWindows, IsPageObject, PageObject, Next, Lossless, Unread;
    hide Pending, RefOf;
    assert PlaceOk(pl);
    hide Tied;
    TookPage(c, pl);
    TiedNext(c, ahead.lists, ahead.asked, l, pl);
    ghost var i, j := pl.leafNo - 1, pl.pageNo;
    assert Left(pl)[0] == pl.tree[i][j];
    PageBytes(c, shard, pl.tree, i, j, []);
    if !RefOk(fence.data, MAX_PAGE) {
      return Err;
    }
    var bytes := ahead.Get(fence.data, l);
    if bytes.None? {
      return Err;
    }
    PageBytes(c, shard, pl.tree, i, j, bytes.value);
    r := DecodePage(c, fence.data, bytes.value, shard);
  }

  /** Read the page behind the next fence of the open leaf. */
  method NextPage(c: Codec, shard: nat, cur: Cursor, ahead: Ahead, ghost l: nat, ghost pl: Place)
    returns (r: Result<Cursor>, ghost next: Place)
    requires ahead.Valid() && ahead.c == c && CursorOk(c, shard, cur, pl) && Tied(c, ahead.lists, ahead.asked, l, pl)
    requires cur.initialized && cur.fencePos < |cur.leaf| && cur.page == []
    modifies ahead`clock, ahead`ready, ahead`asked, ahead`history
    ensures Kept(ahead) && OnlyList(old(ahead.asked), ahead.asked, l)
    ensures r.Ok? ==> && CursorOk(c, shard, r.value, next) && r.value.page != [] && next.tree == pl.tree
                      && r.value.initialized && Remaining(r.value, next) == Remaining(cur, pl)
                      && Tied(c, ahead.lists, ahead.asked, l, next) && ahead.asked == Taken(old(ahead.asked), l)
    ensures ServesTree(c, ahead, pl.tree) ==> r.Ok?
  {
    hide Roots, Tied, PageObject, DistinctPages, AllWindows, Progress, ServesTree, Unread;
    next := pl;
    var fence := cur.leaf[cur.fencePos];
    LeftFence(c, cur, pl);
    PageOrder(c, shard, cur, pl);
    if cur.previousFence.Some? && !Before(cur.previousFence.value, Mark(fence)) {
      return Err, next;
    }
    var records := TakePageOf(c, shard, fence, ahead, l, cur.root, pl);
    if records.Err? {
      return Err, next;
    }
    if records.value == [] || At(records.value[0]) != Mark(fence) {
      return Err, next;
    }
    if cur.previous.Some? && !Before(cur.previous.value, Mark(fence)) {
      return Err, next;
    }
    TookPage(c, pl);
    PageProgress(c, cur, pl, records.value);
    next := TakePage(pl);
    r := Ok(cur.(fencePos := cur.fencePos + 1, previousFence := Some(Mark(fence)), page := records.value));
  }

  lemma LeftFence(c: Codec, cur: Cursor, pl: Place)
    requires Buffers(c, cur, pl) && cur.initialized && cur.fencePos < |cur.leaf|
    ensures pl.leafNo > 0 && pl.pageNo < |pl.tree[pl.leafNo - 1]|
    ensures Left(pl) != [] && Left(pl)[0] == pl.tree[pl.leafNo - 1][pl.pageNo]
    ensures cur.leaf[cur.fencePos] == FenceOf(c, Left(pl)[0])
    ensures cur.leaf[cur.fencePos + 1..] == Fences(c, Left(pl)[1..])
  {
    hide PageObject, LeafObject;
    var fs := cur.leaf[cur.fencePos..];
    assert |fs| == |Left(pl)| > 0;
    assert fs[0] == FenceOf(c, Left(pl)[0]);
    assert cur.leaf[cur.fencePos + 1..] == fs[1..];
  }

  /** The order checks of the cursor never fire: the next page starts behind everything read. */
  lemma PageOrder(c: Codec, shard: nat, cur: Cursor, pl: Place)
    requires CursorOk(c, shard, cur, pl) && PlaceOk(pl) && cur.page == [] && Left(pl) != []
    ensures cur.previousFence.Some? ==> Before(cur.previousFence.value, At(Left(pl)[0][0]))
    ensures cur.previous.Some? ==> Before(cur.previous.value, At(Left(pl)[0][0]))
  {
    hide TreeRecords, Before, Flatten, Clean, Roots, Buffers, PageObject, LeafObject, Pending, FenceOf;
    TookPage(c, pl);
    var page := Left(pl)[0];
    var rest := Unread(TakePage(pl));
    RootsSorted(c, shard, cur.root, pl.tree);
    assert TreeRecords(pl.tree) == pl.seen + page + rest;
    SortedPiece(pl.seen, page, rest);
    assert forall r :: r in pl.seen + cur.page ==> r in pl.seen;
  }

  lemma RootsSorted(c: Codec, shard: nat, root: Ref, tree: Tree)
    requires Roots(c, shard, root, tree)
    ensures Sorted(TreeRecords(tree))
  {
  }

  lemma TiedNext(c: Codec, lists: seq<seq<Ref>>, asked: seq<nat>, l: nat, pl: Place)
    requires Tied(c, lists, asked, l, pl) && Left(pl) != [] && PlaceOk(TakePage(pl))
    requires Pending(c, pl) == [RefOf(c, PageObject(c, Left(pl)[0]))] + Pending(c, TakePage(pl))
    ensures Next(lists, asked, RefOf(c, PageObject(c, Left(pl)[0])), l)
    ensures Tied(c, lists, Taken(asked, l), l, TakePage(pl))
  {
    hide Pending, PageObject;
    var rest := lists[l][asked[l]..];
    assert rest[0] == lists[l][asked[l]];
    assert lists[l][asked[l] + 1..] == rest[1..];
  }

  lemma PageProgress(c: Codec, cur: Cursor, pl: Place, page: seq<Record>)
    requires PlaceOk(pl) && Progress(cur, pl) && Left(pl) != [] && page == Left(pl)[0] && cur.page == []
    requires PlaceOk(TakePage(pl))
    requires Unread(pl) == page + Unread(TakePage(pl))
    ensures Progress(cur.(fencePos := cur.fencePos + 1, previousFence := Some(At(page[0])), page := page), TakePage(pl))
  {
    hide TreeRecords, Unread;
    assert pl.seen + [] + (page + Unread(TakePage(pl))) == pl.seen + page + Unread(TakePage(pl));
    assert page[0] in pl.seen + page;
  }

  lemma Exhausted(c: Codec, cur: Cursor, pl: Place)
    requires Buffers(c, cur, pl) && cur.initialized && cur.fencePos == |cur.leaf| && cur.parentPos == |cur.parents|
    ensures Unread(pl) == [] && Buffers(c, cur.(leaf := [], fencePos := 0), pl)
  {
    hide PageObject, LeafObject;
    assert |Parents(c, pl.tree[pl.leafNo..])| == 0;
    assert |Fences(c, Left(pl))| == 0;
    FlattenNil<Record>();
    assert LeafLists(pl.tree[pl.leafNo..]) == [];
  }

  /** Make the next record of a partition available, unless it is exhausted. */
  method Ready(c: Codec, shard: nat, cur: Cursor, ahead: Ahead, ghost l: nat, ghost pl: Place)
    returns (r: Result<Cursor>, ghost next: Place)
    requires ahead.Valid() && ahead.c == c && CursorOk(c, shard, cur, pl)
    requires Tied(c, ahead.lists, ahead.asked, l, pl) && IndexesApart(c, ahead.lists, pl.tree)
    modifies ahead`clock, ahead`ready, ahead`asked, ahead`history
    ensures Kept(ahead) && OnlyList(old(ahead.asked), ahead.asked, l)
    ensures r.Ok? ==> && CursorOk(c, shard, r.value, next) && next.tree == pl.tree
                      && Remaining(r.value, next) == Remaining(cur, pl)
                      && Tied(c, ahead.lists, ahead.asked, l, next)
                      && (r.value.page == [] ==> Remaining(cur, pl) == [])
    ensures ServesTree(c, ahead, pl.tree) ==> r.Ok?
  {
    hide Roots, DistinctPages, AllWindows, Progress, ServesTree, Unread, Pending, IndexesApart, Buffers;
    var ready;
    ready, next := OpenRoot(c, shard, cur, ahead, pl);
    if ready.Err? {
      return Err, next;
    }
    var now := ready.value;
    while now.page == []
      invariant Kept(ahead) && OnlyList(old(ahead.asked), ahead.asked, l)
      invariant CursorOk(c, shard, now, next) && now.initialized && next.tree == pl.tree
      invariant Remaining(now, next) == Remaining(cur, pl) && Tied(c, ahead.lists, ahead.asked, l, next)
      decreases if now.page == [] then 1 else 0
    {
      BufferBounds(c, now, next);
      if now.fencePos == |now.leaf| {
        if now.parentPos == |now.parents| {
          Exhausted(c, now, next);
          ClearedProgress(now, next);
          return Ok(now.(leaf := [], fencePos := 0)), next;
        }
        var leafed;
        leafed, next := NextLeaf(c, shard, now, ahead, next);
        if leafed.Err? {
          return Err, next;
        }
        now := leafed.value;
      }
      var taken;
      taken, next := NextPage(c, shard, now, ahead, l, next);
      if taken.Err? {
        return Err, next;
      }
      now := taken.value;
    }
    return Ok(now), next;
  }

  lemma BufferBounds(c: Codec, cur: Cursor, pl: Place)
    requires Buffers(c, cur, pl) && cur.initialized
    ensures PlaceOk(pl) && cur.fencePos <= |cur.leaf| && cur.parentPos <= |cur.parents|
  {
  }

  lemma ClearedProgress(cur: Cursor, pl: Place)
    requires PlaceOk(pl) && Progress(cur, pl)
    ensures Progress(cur.(leaf := [], fencePos := 0), pl)
  {
  }

  // ---------------------------------------------------------------- merging the partitions

  lemma {:induction false} RoutedTail(c: Codec, rs: seq<Record>, p: nat)
    requires rs != []
    ensures Routed(c, rs, p) == (if Partition(c, rs[0].key) == p then [rs[0]] else []) + Routed(c, rs[1..], p)
  {
    var last := |rs| - 1;
    if last > 0 {
      RoutedTail(c, rs[..last], p);
      assert rs[..last][1..] == rs[1..][..last - 1];
      assert rs[1..][last - 1] == rs[last];
    } else {
      assert rs[..last] == [] && rs[1..] == [];
    }
  }

  /** The cursors hold the partitions of the records still to come. */
  ghost predicate Holding(c: Codec, cursors: seq<Cursor>, places: seq<Place>, rest: seq<Record>)
  {
    && |cursors| == |places| == PARTITIONS && Sorted(rest)
    && (forall p :: 0 <= p < PARTITIONS ==> CursorOk(c, p, cursors[p], places[p]))
    && (forall p :: 0 <= p < PARTITIONS ==> Remaining(cursors[p], places[p]) == Routed(c, rest, p))
  }

  ghost predicate AllTied(c: Codec, lists: seq<seq<Ref>>, asked: seq<nat>, base: nat, places: seq<Place>)
  {
    && |asked| == |lists| && |places| == PARTITIONS && base + PARTITIONS <= |lists|
    && (forall p :: 0 <= p < PARTITIONS ==> Tied(c, lists, asked, base + p, places[p]))
    && (forall p :: 0 <= p < PARTITIONS ==> IndexesApart(c, lists, places[p].tree))
  }

  ghost predicate Fronts(cursors: seq<Cursor>, places: seq<Place>, upto: nat)
  {
    && upto <= |cursors| == |places|
    && forall p :: 0 <= p < upto ==>
         PlaceOk(places[p]) && (cursors[p].page == [] ==> Remaining(cursors[p], places[p]) == [])
  }

  /** The partition whose front is smallest. */
  method Choose(cursors: seq<Cursor>) returns (chosen: Option<nat>)
    ensures chosen.None? ==> forall p :: 0 <= p < |cursors| ==> cursors[p].page == []
    ensures chosen.Some? ==> && chosen.value < |cursors| && cursors[chosen.value].page != []
                             && forall p :: 0 <= p < |cursors| && cursors[p].page != [] ==>
                                  !Before(At(cursors[p].page[0]), At(cursors[chosen.value].page[0]))
  {
    chosen := None;
    for i := 0 to |cursors|
      invariant chosen.None? ==> forall p :: 0 <= p < i ==> cursors[p].page == []
      invariant chosen.Some? ==> && chosen.value < i && cursors[chosen.value].page != []
                                 && forall p :: 0 <= p < i && cursors[p].page != [] ==>
                                      !Before(At(cursors[p].page[0]), At(cursors[chosen.value].page[0]))
    {
      if cursors[i].page != [] {
        if chosen.None? {
          BeforeIrreflexive(At(cursors[i].page[0]));
          chosen := Some(i);
        } else if Before(At(cursors[i].page[0]), At(cursors[chosen.value].page[0])) {
          ghost var was := cursors[chosen.value].page[0];
          forall p | 0 <= p <= i && cursors[p].page != []
            ensures !Before(At(cursors[p].page[0]), At(cursors[i].page[0]))
          {
            BeforeIrreflexive(At(cursors[i].page[0]));
            if p < i && Before(At(cursors[p].page[0]), At(cursors[i].page[0])) {
              BeforeTransitive(At(cursors[p].page[0]), At(cursors[i].page[0]), At(was));
            }
          }
          chosen := Some(i);
        }
      }
    }
  }

  /** The smallest front is the first record still to come. */
  lemma FrontIsNext(c: Codec, cursors: seq<Cursor>, places: seq<Place>, rest: seq<Record>, chosen: Option<nat>)
    requires chosen.None? ==> forall p :: 0 <= p < |cursors| ==> cursors[p].page == []
    requires chosen.Some? ==> && chosen.value < |cursors| && cursors[chosen.value].page != []
                              && forall p :: 0 <= p < |cursors| && cursors[p].page != [] ==>
                                   !Before(At(cursors[p].page[0]), At(cursors[chosen.value].page[0]))
    requires Holding(c, cursors, places, rest) && Fronts(cursors, places, PARTITIONS)
    ensures chosen.None? <==> rest == []
    ensures chosen.Some? ==> cursors[chosen.value].page[0] == rest[0] && chosen.value == Partition(c, rest[0].key)
  {
    hide CursorOk, Before, Routed, PlaceOk, Unread;
    if rest != [] {
      var p := Partition(c, rest[0].key);
      RoutedTail(c, rest, p);
      assert Remaining(cursors[p], places[p])[0] == rest[0];
      assert cursors[p].page[0] == rest[0];
    }
    if chosen.Some? {
      var f := cursors[chosen.value].page[0];
      assert Remaining(cursors[chosen.value], places[chosen.value])[0] == f;
      assert f in Routed(c, rest, chosen.value);
      var i :| 0 <= i < |rest| && rest[i] == f;
      assert i > 0 ==> Before(At(rest[0]), At(rest[i]));
    }
  }

  function Pop(cur: Cursor): Cursor
    requires cur.page != []
  {
    cur.(page := cur.page[1..], previous := Some(At(cur.page[0])))
  }

  function Returned(pl: Place, r: Record): Place { pl.(seen := pl.seen + [r]) }

  lemma Popped(c: Codec, shard: nat, cur: Cursor, pl: Place)
    requires CursorOk(c, shard, cur, pl) && cur.page != []
    ensures CursorOk(c, shard, Pop(cur), Returned(pl, cur.page[0]))
    ensures Remaining(cur, pl) == [cur.page[0]] + Remaining(Pop(cur), Returned(pl, cur.page[0]))
  {
    hide Roots, TreeRecords, Flatten;
    var r := cur.page[0];
    var next := Returned(pl, r);
    assert cur.initialized;
    assert Left(next) == Left(pl) && Unread(next) == Unread(pl);
    assert pl.seen + cur.page + Unread(pl) == next.seen + cur.page[1..] + Unread(next);
    assert r in next.seen;
    assert forall q :: q in pl.seen + cur.page ==> q in next.seen + cur.page[1..];
  }

  lemma PoppedAll(c: Codec, cursors: seq<Cursor>, places: seq<Place>, rest: seq<Record>, at: nat)
    requires Holding(c, cursors, places, rest) && rest != [] && at == Partition(c, rest[0].key)
    requires cursors[at].page != [] && cursors[at].page[0] == rest[0]
    ensures Holding(c, cursors[at := Pop(cursors[at])], places[at := Returned(places[at], rest[0])], rest[1..])
  {
    hide CursorOk, Before, Routed, Partition, Pop, Returned, Remaining;
    Popped(c, at, cursors[at], places[at]);
    var after := cursors[at := Pop(cursors[at])];
    var moved := places[at := Returned(places[at], rest[0])];
    forall p | 0 <= p < PARTITIONS
      ensures CursorOk(c, p, after[p], moved[p]) && PlaceOk(moved[p])
      ensures Remaining(after[p], moved[p]) == Routed(c, rest[1..], p)
    {
      RoutedTail(c, rest, p);
      CursorPlace(c, p, after[p], moved[p]);
      if p == at {
        assert Routed(c, rest, at)[1..] == Remaining(after[at], moved[at]);
        assert Routed(c, rest, at)[1..] == Routed(c, rest[1..], at);
      }
    }
  }

  lemma CursorPlace(c: Codec, shard: nat, cur: Cursor, pl: Place)
    requires CursorOk(c, shard, cur, pl)
    ensures PlaceOk(pl)
  {
  }

  // ---------------------------------------------------------------- the scanner

  class Scanner {
    const c: Codec
    var cursors: seq<Cursor>
    var failed: bool
    /** The first page list of this run in the read-ahead, and what the cursors stand for. */
    ghost const base: nat
    ghost var places: seq<Place>
    ghost var rest: seq<Record>

    ghost predicate Valid(ahead: Ahead)
      reads this, ahead
    {
      && ahead.Valid() && ahead.c == c && Holding(c, cursors, places, rest)
      && AllTied(c, ahead.lists, ahead.asked, base, places)
    }

    /** The store behind the read-ahead holds every object of the run. */
    ghost predicate Served(ahead: Ahead)
      reads this
    {
      forall p :: 0 <= p < |places| ==> ServesTree(c, ahead, places[p].tree)
    }

    constructor (c: Codec, indexes: seq<Ref>, ahead: Ahead, ghost base: nat, ghost trees: seq<Tree>,
                 ghost records: seq<Record>)
      requires Represents(c, indexes, trees) && Sorted(records) && ahead.Valid() && ahead.c == c
      requires forall p :: 0 <= p < PARTITIONS ==> TreeRecords(trees[p]) == Routed(c, records, p)
      requires base + PARTITIONS <= |ahead.lists|
      requires forall p :: 0 <= p < PARTITIONS ==>
                 ahead.lists[base + p] == TreePages(c, trees[p]) && ahead.asked[base + p] == 0
      requires forall p :: 0 <= p < PARTITIONS ==> IndexesApart(c, ahead.lists, trees[p])
      ensures Valid(ahead) && !failed && rest == records && this.c == c && this.base == base
      ensures Trees(places) == trees
    {
      hide Roots, TreeRecords, Routed, Sorted, TreePages, IndexesApart;
      this.c, this.base, failed, rest := c, base, false, records;
      var starts := seq(PARTITIONS, p requires 0 <= p < PARTITIONS => NewCursor(indexes[p]));
      cursors := starts;
      ghost var at := seq(PARTITIONS, p requires 0 <= p < PARTITIONS => Place(trees[p], 0, 0, []));
      places := at;
      new;
      forall p | 0 <= p < PARTITIONS
        ensures && CursorOk(c, p, starts[p], at[p]) && Remaining(starts[p], at[p]) == Routed(c, records, p)
                && Tied(c, ahead.lists, ahead.asked, base + p, at[p])
      {
        NewCursorOk(c, p, indexes[p], trees[p]);
        assert ahead.lists[base + p][0..] == ahead.lists[base + p];
      }
      assert Trees(places) == trees;
    }

    /** Make the front of every partition available. */
    method ReadyAll(ahead: Ahead) returns (ok: bool)
      requires Valid(ahead)
      modifies this`cursors, this`places, ahead`clock, ahead`ready, ahead`asked, ahead`history
      ensures Kept(ahead)
      ensures OnlyLists(old(ahead.asked), ahead.asked, base)
      ensures ok ==> Valid(ahead) && Fronts(cursors, places, PARTITIONS)
      ensures ok ==> Trees(places) == old(Trees(places))
      ensures old(Served(ahead)) ==> ok
    {
      hide CursorOk, Tied, IndexesApart, DistinctPages, AllWindows, ServesTree, Holding, AllTied, Fronts, Remaining;
      hide Routed;
      ghost var trees := Trees(places);
      PlacesLength(c, cursors, places, rest);
      FrontsNone(cursors, places);
      for p := 0 to PARTITIONS
        invariant Valid(ahead) && Kept(ahead) && Fronts(cursors, places, p) && Trees(places) == trees
        invariant OnlyLists(old(ahead.asked), ahead.asked, base)
      {
        PlacesLength(c, cursors, places, rest);
        AtPartition(c, cursors, places, rest, ahead.lists, ahead.asked, base, p);
        ghost var asked := ahead.asked;
        assert trees[p] == places[p].tree;
        var ready, next := Ready(c, p, cursors[p], ahead, base + p, places[p]);
        OnlyListsStep(old(ahead.asked), asked, ahead.asked, base, p);
        if ready.Err? {
          return false;
        }
        HoldingStep(c, cursors, places, rest, p, ready.value, next);
        TiedStep(c, ahead.lists, asked, ahead.asked, base, places, p, next);
        FrontsStep(c, cursors, places, p, ready.value, next);
        cursors, places := cursors[p := ready.value], places[p := next];
        assert Trees(places) == trees;
      }
      return true;
    }

    /** Return the next record of the run: the first of `rest`, until `rest` is empty. */
    method Next(ahead: Ahead) returns (r: Result<Option<Record>>)
      requires failed || Valid(ahead)
      modifies this`cursors, this`places, this`failed, this`rest, ahead`clock, ahead`ready, ahead`asked, ahead`history
      ensures old(failed) ==> r.Err? && failed
      ensures !old(failed) ==> Kept(ahead) && OnlyLists(old(ahead.asked), ahead.asked, base)
      ensures failed <==> r.Err?
      ensures r.Ok? ==> Valid(ahead) && Trees(places) == old(Trees(places))
      ensures r.Ok? ==> r.value == if old(rest) == [] then None else Some(old(rest)[0])
      ensures r.Ok? ==> rest == if old(rest) == [] then [] else old(rest)[1..]
      ensures !old(failed) && old(Served(ahead)) ==> r.Ok? && Served(ahead)
    {
      hide CursorOk, Tied, IndexesApart, DistinctPages, AllWindows, ServesTree, Holding, AllTied, Remaining, Routed;
      hide Fronts;
      if failed {
        return Err;
      }
      ghost var was := Trees(places);
      var ok := ReadyAll(ahead);
      if !ok {
        failed := true;
        return Err;
      }
      PlacesLength(c, cursors, places, rest);
      var chosen := Choose(cursors);
      FrontIsNext(c, cursors, places, rest, chosen);
      if chosen.None? {
        return Ok(None);
      }
      var shard := chosen.value;
      var record := cursors[shard].page[0];
      PoppedAll(c, cursors, places, rest, shard);
      TiedPopped(c, ahead.lists, ahead.asked, base, places, shard, record);
      cursors := cursors[shard := Pop(cursors[shard])];
      places := places[shard := Returned(places[shard], record)];
      rest := rest[1..];
      assert Trees(places) == was;
      return Ok(Some(record));
    }
  }

  lemma TiedPopped(c: Codec, lists: seq<seq<Ref>>, asked: seq<nat>, base: nat, places: seq<Place>, p: nat, r: Record)
    requires AllTied(c, lists, asked, base, places) && p < PARTITIONS
    ensures AllTied(c, lists, asked, base, places[p := Returned(places[p], r)])
  {
    hide IndexesApart, PageObject, TreePages;
    var moved := places[p := Returned(places[p], r)];
    forall q | 0 <= q < PARTITIONS
      ensures Tied(c, lists, asked, base + q, moved[q]) && IndexesApart(c, lists, moved[q].tree)
    {
      assert Tied(c, lists, asked, base + q, places[q]);
      assert Left(moved[q]) == Left(places[q]);
    }
  }

  function Trees(places: seq<Place>): (trees: seq<Tree>)
    ensures |trees| == |places| && forall p :: 0 <= p < |places| ==> trees[p] == places[p].tree
  {
    seq(|places|, p requires 0 <= p < |places| => places[p].tree)
  }

  /** Only the sixteen lists from `base` on were asked for pages. */
  ghost predicate OnlyLists(before: seq<nat>, after: seq<nat>, base: nat)
  {
    && |before| == |after|
    && forall m :: 0 <= m < |before| && !(base <= m < base + PARTITIONS) ==> before[m] == after[m]
  }

  lemma OnlyListsStep(first: seq<nat>, before: seq<nat>, after: seq<nat>, base: nat, p: nat)
    requires OnlyLists(first, before, base) && OnlyList(before, after, base + p) && p < PARTITIONS
    ensures OnlyLists(first, after, base)
  {
  }

  lemma PlacesLength(c: Codec, cursors: seq<Cursor>, places: seq<Place>, rest: seq<Record>)
    requires Holding(c, cursors, places, rest)
    ensures |cursors| == |places| == PARTITIONS
  {
  }

  lemma FrontsNone(cursors: seq<Cursor>, places: seq<Place>)
    requires |cursors| == |places|
    ensures Fronts(cursors, places, 0)
  {
  }

  lemma AtPartition(c: Codec, cursors: seq<Cursor>, places: seq<Place>, rest: seq<Record>,
                    lists: seq<seq<Ref>>, asked: seq<nat>, base: nat, p: nat)
    requires Holding(c, cursors, places, rest) && AllTied(c, lists, asked, base, places) && p < PARTITIONS
    ensures |cursors| == |places| == PARTITIONS && CursorOk(c, p, cursors[p], places[p])
    ensures Tied(c, lists, asked, base + p, places[p]) && IndexesApart(c, lists, places[p].tree)
  {
    hide CursorOk, Tied, IndexesApart, Routed;
  }

  lemma HoldingStep(c: Codec, cursors: seq<Cursor>, places: seq<Place>, rest: seq<Record>, p: nat, cur: Cursor,
                    pl: Place)
    requires Holding(c, cursors, places, rest) && p < PARTITIONS
    requires CursorOk(c, p, cur, pl) && Remaining(cur, pl) == Remaining(cursors[p], places[p])
    ensures Holding(c, cursors[p := cur], places[p := pl], rest)
  {
    hide CursorOk, Routed, Remaining, Sorted;
    CursorPlace(c, p, cur, pl);
    assert Remaining(cur, pl) == Routed(c, rest, p);
    var moved := places[p := pl];
    forall q | 0 <= q < PARTITIONS ensures PlaceOk(moved[q]) {
      CursorPlace(c, q, cursors[p := cur][q], moved[q]);
    }
  }

  lemma TiedStep(c: Codec, lists: seq<seq<Ref>>, before: seq<nat>, after: seq<nat>, base: nat, places: seq<Place>,
                 p: nat, pl: Place)
    requires AllTied(c, lists, before, base, places) && OnlyList(before, after, base + p) && p < PARTITIONS
    requires Tied(c, lists, after, base + p, pl) && pl.tree == places[p].tree
    ensures AllTied(c, lists, after, base, places[p := pl])
  {
    hide Tied, IndexesApart;
    var moved := places[p := pl];
    forall q | 0 <= q < PARTITIONS
      ensures Tied(c, lists, after, base + q, moved[q]) && IndexesApart(c, lists, moved[q].tree)
    {
      if q != p { TiedSame(c, lists, before, after, base + q, places[q]); }
    }
  }

  lemma FrontsStep(c: Codec, cursors: seq<Cursor>, places: seq<Place>, p: nat, cur: Cursor, pl: Place)
    requires Fronts(cursors, places, p) && p < |cursors| && CursorOk(c, p, cur, pl)
    requires cur.page == [] ==> Remaining(cur, pl) == []
    ensures Fronts(cursors[p := cur], places[p := pl], p + 1)
  {
    hide Remaining, Roots, Buffers, Progress;
  }

  lemma TiedSame(c: Codec, lists: seq<seq<Ref>>, before: seq<nat>, after: seq<nat>, l: nat, pl: Place)
    requires Tied(c, lists, before, l, pl) && |after| == |before| && l < |after| && after[l] == before[l]
    ensures Tied(c, lists, after, l, pl)
  {
  }

  /** A place with nothing unread has no page to come. */
  lemma NothingPending(c: Codec, pl: Place)
    requires PlaceOk(pl) && Unread(pl) == []
    ensures Pending(c, pl) == []
  {
    hide PageObject, LeafRecords;
    if Left(pl) != [] { FlattenFirst(Left(pl)); }
    var rest := pl.tree[pl.leafNo..];
    if rest != [] {
      LeafFirst(rest[0]);
      FlattenFirst(LeafLists(rest));
    }
  }

  /** Every page of lists `base` to `base + 15` was taken. */
  ghost predicate Drained(lists: seq<seq<Ref>>, asked: seq<nat>, base: nat)
  {
    && |asked| == |lists| && base + PARTITIONS <= |lists|
    && forall l :: base <= l < base + PARTITIONS ==> asked[l] == |lists[l]|
  }

  /** A scanner with nothing left has taken every page of its run. */
  lemma EndDrains(c: Codec, cursors: seq<Cursor>, places: seq<Place>, lists: seq<seq<Ref>>, asked: seq<nat>, base: nat)
    requires Holding(c, cursors, places, []) && AllTied(c, lists, asked, base, places)
    ensures Drained(lists, asked, base)
  {
    hide Unread, Pending, IndexesApart, CursorOk, Sorted;
    forall l | base <= l < base + PARTITIONS ensures asked[l] == |lists[l]| {
      var p := l - base;
      assert Tied(c, lists, asked, base + p, places[p]);
      assert Remaining(cursors[p], places[p]) == Routed(c, [], p) == [];
      NothingPending(c, places[p]);
    }
  }

  /** Scanning to the end returns exactly the records of the run, in order. */
  method ScanAll(scanner: Scanner, ahead: Ahead) returns (ok: bool, out: seq<Record>)
    requires scanner.Valid(ahead) && !scanner.failed
    modifies scanner, ahead`clock, ahead`ready, ahead`asked, ahead`history
    ensures ok ==> out == old(scanner.rest) && Drained(ahead.lists, ahead.asked, scanner.base)
    ensures old(scanner.Served(ahead)) ==> ok
    ensures ok ==> Kept(ahead)
  {
    hide Holding, AllTied, DistinctPages, AllWindows, ServesTree;
    out := [];
    var more := true;
    while more
      invariant scanner.Valid(ahead) && !scanner.failed && Kept(ahead)
      invariant out + scanner.rest == old(scanner.rest) && (!more ==> scanner.rest == [])
      invariant old(scanner.Served(ahead)) ==> scanner.Served(ahead)
      decreases |scanner.rest|, more
    {
      var next := scanner.Next(ahead);
      if next.Err? {
        return false, out;
      }
      if next.value.None? {
        more := false;
      } else {
        out := out + [next.value.value];
      }
    }
    EndDrains(scanner.c, scanner.cursors, scanner.places, ahead.lists, ahead.asked, scanner.base);
    return true, out;
  }
}
