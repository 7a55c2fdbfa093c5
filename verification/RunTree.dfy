/**
 The objects of one built run: data pages under fence leaves under an optional internal
 root, one tree per hash partition, and the run root that names all sixteen.
 */
module RunTree {
  import opened Bytes
  import opened Versions
  import opened RunFormat
  import opened FenceIndex

  type Page = p: seq<Record> | p != [] witness [Record([], 0, [])]
  type Leaf = l: seq<Page> | l != [] witness [[Record([], 0, [])]]

  /** The leaves of one partition, in key order. */
  type Tree = seq<Leaf>

  // ---------------------------------------------------------------- concatenation

  function Flatten<T>(parts: seq<seq<T>>): seq<T>
  {
    if parts == [] then [] else Flatten(parts[..|parts| - 1]) + parts[|parts| - 1]
  }

  lemma FlattenMore<T>(parts: seq<seq<T>>, part: seq<T>)
    ensures Flatten(parts + [part]) == Flatten(parts) + part
  {
    assert (parts + [part])[..|parts|] == parts;
  }

  lemma {:induction false} FlattenSplit<T>(parts: seq<seq<T>>, i: nat)
    requires i <= |parts|
    ensures Flatten(parts) == Flatten(parts[..i]) + Flatten(parts[i..])
  {
    if i == |parts| {
      assert parts[..i] == parts;
    } else {
      var front, last := parts[..|parts| - 1], parts[|parts| - 1];
      FlattenSplit(front, i);
      assert front[..i] == parts[..i];
      assert parts[i..] == front[i..] + [last];
      FlattenMore(front[i..], last);
    }
  }

  lemma FlattenTake<T>(parts: seq<seq<T>>, i: nat)
    requires i < |parts|
    ensures Flatten(parts[..i + 1]) == Flatten(parts[..i]) + parts[i]
  {
    assert parts[..i + 1][..i] == parts[..i];
  }

  lemma FlattenAround<T>(parts: seq<seq<T>>, i: nat)
    requires i < |parts|
    ensures Flatten(parts) == Flatten(parts[..i]) + parts[i] + Flatten(parts[i + 1..])
  {
    hide Flatten;
    FlattenSplit(parts, i + 1);
    FlattenTake(parts, i);
  }

  lemma {:induction false} FlattenFirst<T>(parts: seq<seq<T>>)
    requires parts != [] && parts[0] != []
    ensures Flatten(parts) != [] && Flatten(parts)[0] == parts[0][0]
  {
    if |parts| == 1 {
      assert parts[..0] == [];
    } else {
      FlattenFirst(parts[..|parts| - 1]);
    }
  }

  function LeafRecords(leaf: Leaf): seq<Record> { Flatten(leaf) }

  function LeafLists(tree: Tree): (ls: seq<seq<Record>>)
    ensures |ls| == |tree| && forall i :: 0 <= i < |tree| ==> ls[i] == LeafRecords(tree[i])
  {
    seq(|tree|, i requires 0 <= i < |tree| => LeafRecords(tree[i]))
  }

  function TreeRecords(tree: Tree): seq<Record> { Flatten(LeafLists(tree)) }

  // ---------------------------------------------------------------- objects

  /** The reference of an object; every object of a run is far below 4 GiB. */
  function RefOf(c: Codec, bytes: Bytes): Ref
  {
    if |bytes| < 0x1_0000_0000 then Ref(c.sha(bytes), |bytes|) else DEFAULT_REF
  }

  function PageObject(c: Codec, page: Page): (s: Bytes)
    ensures |s| >= 13
  {
    var payload := EncodePage(page);
    var packed := c.compress(payload);
    COMPRESSED_MAGIC + [VERSION] + BigEndian(|payload|, 4) + BigEndian(|packed|, 4) + packed
  }

  function FenceOf(c: Codec, page: Page): Fence
  {
    Fence(page[0].key, page[0].block, RefOf(c, PageObject(c, page)))
  }

  function Fences(c: Codec, pages: seq<Page>): (fs: seq<Fence>)
    ensures |fs| == |pages| && forall i :: 0 <= i < |pages| ==> fs[i] == FenceOf(c, pages[i])
  {
    seq(|pages|, i requires 0 <= i < |pages| => FenceOf(c, pages[i]))
  }

  function LeafObject(c: Codec, leaf: Leaf): (s: Bytes)
    ensures |s| >= 9
  {
    EncodeIndex(INDEX_MAGIC, Fences(c, leaf))
  }

  function ParentOf(c: Codec, leaf: Leaf): Fence
  {
    Fence(leaf[0][0].key, leaf[0][0].block, RefOf(c, LeafObject(c, leaf)))
  }

  function Parents(c: Codec, tree: Tree): (fs: seq<Fence>)
    ensures |fs| == |tree| && forall i :: 0 <= i < |tree| ==> fs[i] == ParentOf(c, tree[i])
  {
    seq(|tree|, i requires 0 <= i < |tree| => ParentOf(c, tree[i]))
  }

  function InternalObject(c: Codec, tree: Tree): (s: Bytes)
    ensures |s| >= 9
  {
    EncodeIndex(INTERNAL_MAGIC, Parents(c, tree))
  }

  function TreeRef(c: Codec, tree: Tree): Ref
  {
    if tree == [] then DEFAULT_REF
    else if |tree| == 1 then RefOf(c, LeafObject(c, tree[0]))
    else RefOf(c, InternalObject(c, tree))
  }

  /** The objects of one partition are exactly its pages, leaves and internal root. */
  ghost predicate TreeObject(c: Codec, tree: Tree, bytes: Bytes)
  {
    || (exists i, j :: 0 <= i < |tree| && 0 <= j < |tree[i]| && bytes == PageObject(c, tree[i][j]))
    || (exists i :: 0 <= i < |tree| && bytes == LeafObject(c, tree[i]))
    || (|tree| > 1 && bytes == InternalObject(c, tree))
  }

  // ---------------------------------------------------------------- well-formed trees

  ghost predicate PageFits(c: Codec, page: Page)
  {
    |EncodePage(page)| <= MAX_PAGE && |PageObject(c, page)| <= MAX_PAGE
  }

  ghost predicate LeafFits(c: Codec, leaf: Leaf)
  {
    |LeafObject(c, leaf)| <= MAX_INDEX && forall j :: 0 <= j < |leaf| ==> PageFits(c, leaf[j])
  }

  /** Every leaf of the tree obeys its bounds; the whole is sorted and of one partition. */
  ghost predicate TreeOk(c: Codec, shard: nat, tree: Tree)
  {
    && Sorted(TreeRecords(tree))
    && (forall r :: r in TreeRecords(tree) ==> RecordOk(c, r, Some(shard)))
    && (forall i :: 0 <= i < |tree| ==> LeafFits(c, tree[i]))
    && (|tree| > 1 ==> |InternalObject(c, tree)| <= MAX_INDEX)
  }

  /** Nothing else hashes like an object of the tree, and none hashes to zero. */
  ghost predicate Clean(c: Codec, tree: Tree)
  {
    forall o :: TreeObject(c, tree, o) ==> CleanObject(c, o)
  }

  ghost predicate CleanObject(c: Codec, o: Bytes)
  {
    c.sha(o) != ZERO && forall x :: c.sha(x) == c.sha(o) ==> x == o
  }

  // ---------------------------------------------------------------- sorted pieces

  lemma SortedPiece(left: seq<Record>, mid: seq<Record>, right: seq<Record>)
    requires Sorted(left + mid + right)
    ensures Sorted(mid)
    ensures mid != [] ==> forall i :: 0 <= i < |left| ==> Before(At(left[i]), At(mid[0]))
  {
    var all := left + mid + right;
    forall i, j | 0 <= i < j < |mid| ensures Before(At(mid[i]), At(mid[j])) {
      assert all[|left| + i] == mid[i] && all[|left| + j] == mid[j];
    }
    if mid != [] {
      forall i | 0 <= i < |left| ensures Before(At(left[i]), At(mid[0])) {
        assert all[i] == left[i] && all[|left|] == mid[0];
      }
    }
  }

  /** The first records of sorted, nonempty pieces are sorted. */
  lemma FirstsSorted(parts: seq<seq<Record>>, i: nat, j: nat)
    requires Sorted(Flatten(parts)) && i < j < |parts| && parts[i] != [] && parts[j] != []
    ensures Before(At(parts[i][0]), At(parts[j][0]))
  {
    FlattenAround(parts, j);
    var left := Flatten(parts[..j]);
    SortedPiece(left, parts[j], Flatten(parts[j + 1..]));
    FlattenAround(parts[..j], i);
    var at := |Flatten(parts[..j][..i])|;
    assert left[at] == parts[i][0];
  }

  lemma PartSorted(parts: seq<seq<Record>>, i: nat)
    requires Sorted(Flatten(parts)) && i < |parts|
    ensures Sorted(parts[i])
    ensures forall r :: r in parts[i] ==> r in Flatten(parts)
  {
    FlattenAround(parts, i);
    SortedPiece(Flatten(parts[..i]), parts[i], Flatten(parts[i + 1..]));
  }
}
