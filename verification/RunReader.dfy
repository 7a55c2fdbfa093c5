/**
 Point lookups in a run. Whatever bytes a fetch returns, an answer is the answer over the
 records the run was built from, found with at most three fetches.
 */
module RunReader {
  import opened Bytes
  import opened Versions
  import opened RunFormat
  import opened FenceIndex
  import opened RunTree

  // ---------------------------------------------------------------- decoding built objects

  lemma FirstsOrdered(c: Codec, shard: nat, tree: Tree, i: nat)
    requires TreeOk(c, shard, tree) && i < |tree|
    ensures Sorted(LeafRecords(tree[i]))
    ensures forall r :: r in LeafRecords(tree[i]) ==> RecordOk(c, r, Some(shard))
  {
    PartSorted(LeafLists(tree), i);
  }

  lemma PageRecords(leaf: Leaf, j: nat)
    requires Sorted(LeafRecords(leaf)) && j < |leaf|
    ensures Sorted(leaf[j])
    ensures forall r :: r in leaf[j] ==> r in LeafRecords(leaf)
  {
    PartSorted(leaf, j);
  }

  lemma LeafFirst(leaf: Leaf)
    ensures LeafRecords(leaf) != [] && LeafRecords(leaf)[0] == leaf[0][0]
  {
    FlattenFirst(leaf);
  }

  /** A fence leaf of a well-formed tree decodes to the fences of its pages. */
  lemma LeafIsIndex(c: Codec, shard: nat, tree: Tree, i: nat)
    requires TreeOk(c, shard, tree) && Clean(c, tree) && i < |tree|
    ensures IsIndex(c, INDEX_MAGIC, LeafObject(c, tree[i]), shard, Fences(c, tree[i]))
  {
    hide EncodeIndex, EncodePage, RecordOk, Sorted, LeafRecords;
    var leaf := tree[i];
    var fs := Fences(c, leaf);
    FirstsOrdered(c, shard, tree, i);
    forall j, k | 0 <= j < k < |fs| ensures Before(Mark(fs[j]), Mark(fs[k])) {
      LeafOrder(leaf, j, k);
    }
    forall f | f in fs ensures FenceOk(c, INDEX_MAGIC, shard, f) {
      var j :| 0 <= j < |fs| && fs[j] == f;
      LeafFence(c, shard, tree, i, j);
    }
  }

  lemma LeafOrder(leaf: Leaf, j: nat, k: nat)
    requires Sorted(LeafRecords(leaf)) && j < k < |leaf|
    ensures Before(At(leaf[j][0]), At(leaf[k][0]))
  {
    FirstsSorted(leaf, j, k);
  }

  lemma LeafFence(c: Codec, shard: nat, tree: Tree, i: nat, j: nat)
    requires TreeOk(c, shard, tree) && Clean(c, tree) && i < |tree| && j < |tree[i]|
    ensures FenceOk(c, INDEX_MAGIC, shard, FenceOf(c, tree[i][j]))
  {
    hide EncodePage, PageObject, LeafObject, Sorted, LeafRecords, Flatten;
    var leaf := tree[i];
    FirstsOrdered(c, shard, tree, i);
    PageRecords(leaf, j);
    assert leaf[j][0] in leaf[j];
    assert RecordOk(c, leaf[j][0], Some(shard));
    assert TreeObject(c, tree, PageObject(c, leaf[j]));
    assert PageFits(c, leaf[j]);
  }

  lemma InternalIsIndex(c: Codec, shard: nat, tree: Tree)
    requires TreeOk(c, shard, tree) && Clean(c, tree) && |tree| > 1
    ensures IsIndex(c, INTERNAL_MAGIC, InternalObject(c, tree), shard, Parents(c, tree))
  {
    hide EncodeIndex, EncodePage, RecordOk;
    var fs := Parents(c, tree);
    forall j, k | 0 <= j < k < |fs| ensures Before(Mark(fs[j]), Mark(fs[k])) {
      LeafFirst(tree[j]);
      LeafFirst(tree[k]);
      FirstsSorted(LeafLists(tree), j, k);
    }
    forall f | f in fs ensures FenceOk(c, INTERNAL_MAGIC, shard, f) {
      var j :| 0 <= j < |fs| && fs[j] == f;
      ParentFence(c, shard, tree, j);
    }
  }

  lemma ParentFence(c: Codec, shard: nat, tree: Tree, i: nat)
    requires TreeOk(c, shard, tree) && Clean(c, tree) && i < |tree|
    ensures FenceOk(c, INTERNAL_MAGIC, shard, ParentOf(c, tree[i]))
  {
    hide EncodePage, PageObject, LeafObject, Sorted, Flatten;
    FirstsOrdered(c, shard, tree, i);
    LeafFirst(tree[i]);
    assert LeafRecords(tree[i])[0] in LeafRecords(tree[i]);
    assert RecordOk(c, tree[i][0][0], Some(shard));
    assert TreeObject(c, tree, LeafObject(c, tree[i]));
    assert LeafFits(c, tree[i]);
  }

  /** A leaf and an internal root never share a magic, so a root is read as what it is. */
  lemma Magics(c: Codec, tree: Tree, i: nat)
    requires i < |tree|
    ensures LeafObject(c, tree[i])[..4] == INDEX_MAGIC
    ensures InternalObject(c, tree)[..4] == INTERNAL_MAGIC
  {
    hide EncodeFences, BigEndian;
  }

  // ---------------------------------------------------------------- data pages

  ghost predicate IsPageObject(c: Codec, bytes: Bytes, shard: nat, page: Page)
  {
    bytes == PageObject(c, page) && PageFits(c, page) && PageOk(c, page, Some(shard))
  }

  /** Verify, unpack and parse a data page. */
  method DecodePage(c: Codec, ref: Ref, bytes: Bytes, shard: nat) returns (r: Result<seq<Record>>)
    ensures r.Ok? ==> && Matches(c, ref, bytes) && 13 <= |bytes| <= MAX_PAGE
                      && c.decompress(bytes[13..]).Some?
                      && IsPage(c, c.decompress(bytes[13..]).value, Some(shard), r.value)
    ensures Matches(c, ref, bytes) && Lossless(c) ==>
              forall page: Page :: IsPageObject(c, bytes, shard, page) ==> r == Ok(page)
  {
    hide EncodePage, PageOk, BigEndian, FromBigEndian;
    forall page: Page | IsPageObject(c, bytes, shard, page)
      ensures 13 <= |bytes| <= MAX_PAGE && bytes[..4] == COMPRESSED_MAGIC && bytes[4] == VERSION
      ensures FromBigEndian(bytes[5..9]) == |EncodePage(page)| && FromBigEndian(bytes[9..13]) == |bytes| - 13
      ensures bytes[13..] == c.compress(EncodePage(page))
    {
      PageFields(c, page);
    }
    if |bytes| > MAX_PAGE || !Matches(c, ref, bytes) {
      return Err;
    }
    if |bytes| < 13 || bytes[..4] != COMPRESSED_MAGIC || bytes[4] != VERSION {
      return Err;
    }
    var decodedLen := FromBigEndian(bytes[5..9]);
    if decodedLen > MAX_PAGE || FromBigEndian(bytes[9..13]) != |bytes| - 13 {
      return Err;
    }
    var decoded := c.decompress(bytes[13..]);
    if decoded.None? || |decoded.value| != decodedLen {
      return Err;
    }
    r := ParsePage(c, decoded.value, Some(shard));
  }

  lemma PageFields(c: Codec, page: Page)
    requires PageFits(c, page)
    ensures
      var bytes := PageObject(c, page);
      && 13 <= |bytes| && bytes[..4] == COMPRESSED_MAGIC && bytes[4] == VERSION
      && FromBigEndian(bytes[5..9]) == |EncodePage(page)| && FromBigEndian(bytes[9..13]) == |bytes| - 13
      && bytes[13..] == c.compress(EncodePage(page))
  {
    hide EncodePage, BigEndian, FromBigEndian;
    var payload := EncodePage(page);
    var packed := c.compress(payload);
    var bytes := PageObject(c, page);
    Widths();
    ReadWritten(|payload|, 4);
    ReadWritten(|packed|, 4);
    assert bytes[..4] == COMPRESSED_MAGIC;
    assert bytes[5..9] == BigEndian(|payload|, 4);
    assert bytes[9..13] == BigEndian(|packed|, 4);
    assert bytes[13..] == packed;
  }

  lemma PageIsOk(c: Codec, shard: nat, tree: Tree, i: nat, j: nat)
    requires TreeOk(c, shard, tree) && i < |tree| && j < |tree[i]|
    ensures PageOk(c, tree[i][j], Some(shard)) && PageFits(c, tree[i][j])
  {
    hide Sorted, RecordOk, EncodePage;
    var page := tree[i][j];
    FirstsOrdered(c, shard, tree, i);
    PageRecords(tree[i], j);
    assert LeafFits(c, tree[i]);
    PageSmall(c, page, Some(shard));
  }

  lemma PageSmall(c: Codec, page: Page, shard: Option<nat>)
    requires |EncodePage(page)| <= MAX_PAGE && forall r :: r in page ==> RecordOk(c, r, shard)
    ensures |page| < 0x1_0000_0000
  {
    RecordsSize(c, page, shard);
  }

  // ---------------------------------------------------------------- searching pieces

  /** The entry before the partition point decides the search, in a piece as in the whole. */
  lemma SearchPiece(left: seq<Record>, mid: seq<Record>, right: seq<Record>, key: Bytes, block: int)
    requires Sorted(left + mid + right) && mid != [] && !Before(Version(key, block), At(mid[0]))
    requires right != [] ==> Before(Version(key, block), At(right[0]))
    ensures Search(left + mid + right, key, block) == Search(mid, key, block)
  {
    var target := Version(key, block);
    var all := left + mid + right;
    var m := PartitionPoint(Stamps(mid), target);
    SortedPiece(left, mid, right);
    forall i | 0 <= i < |left| + m ensures !Before(target, Stamps(all)[i]) {
      if i < |left| {
        if Before(target, At(left[i])) { BeforeTransitive(target, At(left[i]), At(mid[0])); }
      } else {
        assert all[i] == mid[i - |left|];
      }
    }
    PointUnique(Stamps(all), target, |left| + m);
  }

  lemma PointUnique(vs: seq<Version>, target: Version, n: nat)
    requires n <= |vs| && (forall i :: 0 <= i < n ==> !Before(target, vs[i]))
    requires n < |vs| ==> Before(target, vs[n])
    ensures n == PartitionPoint(vs, target)
  {
    var m := PartitionPoint(vs, target);
    assert m < |vs| ==> Before(target, vs[m]);
  }

  /** Searching the piece chosen by its first record is searching all pieces. */
  lemma SearchParts(parts: seq<seq<Record>>, firsts: seq<Version>, key: Bytes, block: int)
    requires Sorted(Flatten(parts)) && |firsts| == |parts|
    requires forall i :: 0 <= i < |parts| ==> parts[i] != [] && firsts[i] == At(parts[i][0])
    ensures
      var n := PartitionPoint(firsts, Version(key, block));
      Search(Flatten(parts), key, block) == if n == 0 then None else Search(parts[n - 1], key, block)
  {
    hide Flatten, Search, Sorted;
    var target := Version(key, block);
    var n := PartitionPoint(firsts, target);
    var right := Flatten(parts[n..]);
    if n < |parts| { FlattenFirst(parts[n..]); }
    if n == 0 {
      assert parts[n..] == parts;
      SearchNone(parts, key, block);
    } else {
      FlattenAround(parts, n - 1);
      if n == |parts| { FlattenNil<Record>(); }
      SearchPiece(Flatten(parts[..n - 1]), parts[n - 1], right, key, block);
    }
  }

  lemma FlattenNil<T>()
    ensures Flatten<T>([]) == []
  {
  }

  lemma SearchNone(parts: seq<seq<Record>>, key: Bytes, block: int)
    requires parts == [] || (parts[0] != [] && Before(Version(key, block), At(parts[0][0])))
    ensures Search(Flatten(parts), key, block) == None
  {
    if parts != [] { FlattenFirst(parts); }
    PointUnique(Stamps(Flatten(parts)), Version(key, block), 0);
  }

  // ---------------------------------------------------------------- one partition

  /** What a stateful fetch answers to a request, given the earlier requests of the lookup. */
  type Fetch = (seq<Ref>, Ref) -> Option<Bytes>

  /** The partition behind `root` is `tree`, and the hash separates its objects. */
  ghost predicate Roots(c: Codec, shard: nat, root: Ref, tree: Tree)
  {
    Lossless(c) && root == TreeRef(c, tree) && TreeOk(c, shard, tree) && Clean(c, tree)
  }

  /** The last request of a lookup was answered. */
  predicate Answered(fetch: Fetch, asked: seq<Ref>)
  {
    asked == [] || fetch(asked[..|asked| - 1], asked[|asked| - 1]).Some?
  }

  /** At most two earlier requests, each within the page bound. */
  ghost predicate Short(asked: seq<Ref>)
  {
    |asked| <= 2 && forall ref :: ref in asked ==> ref.length <= MAX_PAGE
  }

  /** The store holds every object of the tree and returns it within a lookup. */
  ghost predicate Honest(c: Codec, tree: Tree, fetch: Fetch)
  {
    forall asked, o :: Short(asked) && TreeObject(c, tree, o) ==> fetch(asked, RefOf(c, o)) == Some(o)
  }

  lemma HonestAt(c: Codec, tree: Tree, fetch: Fetch, asked: seq<Ref>, o: Bytes)
    requires Short(asked) && TreeObject(c, tree, o)
    ensures Honest(c, tree, fetch) ==> fetch(asked, RefOf(c, o)) == Some(o)
  {
  }

  /** Bytes that match the reference of an object are that object. */
  lemma Verified(c: Codec, tree: Tree, o: Bytes, bytes: Bytes)
    requires Clean(c, tree) && TreeObject(c, tree, o) && |o| <= MAX_PAGE
    ensures Matches(c, RefOf(c, o), bytes) <==> bytes == o
  {
    assert CleanObject(c, o);
  }

  /** The root object of a nonempty partition: a fence leaf, or an internal root over several. */
  function RootObject(c: Codec, tree: Tree): Bytes
    requires tree != []
  {
    if |tree| == 1 then LeafObject(c, tree[0]) else InternalObject(c, tree)
  }

  lemma RootVerified(c: Codec, shard: nat, root: Ref, tree: Tree, bytes: Bytes)
    requires Roots(c, shard, root, tree) && tree != []
    ensures RefOk(root, MAX_INDEX)
    ensures TreeObject(c, tree, RootObject(c, tree)) && root == RefOf(c, RootObject(c, tree))
    ensures Matches(c, root, bytes) <==> bytes == RootObject(c, tree)
    ensures (RootObject(c, tree)[..4] == INTERNAL_MAGIC) <==> |tree| > 1
  {
    hide LeafObject, InternalObject, Sorted, TreeRecords;
    Magics(c, tree, 0);
    assert LeafFits(c, tree[0]);
    assert TreeObject(c, tree, RootObject(c, tree));
    assert CleanObject(c, RootObject(c, tree));
    Verified(c, tree, RootObject(c, tree), bytes);
  }

  // ---------------------------------------------------------------- how many fetches

  /** The first record of the leaf is at or before the target. */
  predicate Reaches(leaf: Leaf, key: Bytes, block: int)
  {
    !Before(Version(key, block), At(leaf[0][0]))
  }

  /** The fetches of a lookup: the root; then, if it reaches the target, the leaf below it, and the page. */
  function SearchGets(tree: Tree, key: Bytes, block: int): (n: nat)
    ensures n <= 3
  {
    if key == [] || tree == [] then 0 else if !Reaches(tree[0], key, block) then 1 else if |tree| == 1 then 2 else 3
  }

  /** `n` fetches located leaf `at`, or found that the partition starts after the target. */
  ghost predicate LocatedBy(c: Codec, tree: Tree, key: Bytes, block: int, found: Option<Located>, n: nat, at: nat)
  {
    match found
    case None => |tree| > 1 && n == 1 && !Reaches(tree[0], key, block)
    case Some(loc) =>
      Matches(c, loc.ref, loc.bytes) ==>
        && at < |tree| && n == (if |tree| == 1 then 1 else 2)
        && (|tree| > 1 ==> Reaches(tree[0], key, block) && Reaches(tree[at], key, block))
  }

  /** A fence leaf located by a lookup, with the first version its parent promised. */
  datatype Located = Located(ref: Ref, bytes: Bytes, start: Option<Version>)

  /** If its bytes verify, the located leaf is leaf `at`, and it decides the search. */
  ghost predicate Leads(c: Codec, tree: Tree, key: Bytes, block: int, loc: Located, at: nat)
  {
    Matches(c, loc.ref, loc.bytes) ==>
      && at < |tree| && loc.bytes == LeafObject(c, tree[at])
      && (loc.start.Some? ==> loc.start.value == At(tree[at][0][0]))
      && Search(TreeRecords(tree), key, block) == Search(LeafRecords(tree[at]), key, block)
  }

  lemma SearchTree(c: Codec, shard: nat, tree: Tree, key: Bytes, block: int)
    requires TreeOk(c, shard, tree)
    ensures
      var n := PartitionPoint(Marks(Parents(c, tree)), Version(key, block));
      Search(TreeRecords(tree), key, block)
        == if n == 0 then None else Search(LeafRecords(tree[n - 1]), key, block)
  {
    hide Search, PartitionPoint, Flatten, Sorted, LeafRecords, LeafObject, LeafFits, RecordOk, InternalObject;
    forall i | 0 <= i < |tree|
      ensures LeafLists(tree)[i] != [] && Mark(Parents(c, tree)[i]) == At(LeafLists(tree)[i][0])
    {
      LeafFirst(tree[i]);
    }
    SearchParts(LeafLists(tree), Marks(Parents(c, tree)), key, block);
  }

  lemma SearchOnly(tree: Tree, key: Bytes, block: int)
    requires |tree| == 1
    ensures Search(TreeRecords(tree), key, block) == Search(LeafRecords(tree[0]), key, block)
  {
    hide Search;
    TreeOnly(tree);
  }

  lemma TreeOnly(tree: Tree)
    requires |tree| == 1
    ensures TreeRecords(tree) == LeafRecords(tree[0])
  {
    FlattenTake(LeafLists(tree), 0);
    assert LeafLists(tree)[..1] == LeafLists(tree);
    FlattenNil<Record>();
    assert LeafLists(tree)[..0] == [];
  }

  lemma SearchLeafRecords(c: Codec, leaf: Leaf, key: Bytes, block: int)
    requires Sorted(LeafRecords(leaf))
    ensures
      var n := PartitionPoint(Marks(Fences(c, leaf)), Version(key, block));
      Search(LeafRecords(leaf), key, block) == if n == 0 then None else Search(leaf[n - 1], key, block)
  {
    hide Search, PartitionPoint, Flatten, Sorted, PageObject;
    var fs := Fences(c, leaf);
    forall i | 0 <= i < |leaf| ensures leaf[i] != [] && Marks(fs)[i] == At(leaf[i][0]) {
      assert fs[i] == FenceOf(c, leaf[i]);
    }
    SearchParts(leaf, Marks(fs), key, block);
  }

  lemma ParentsReach(c: Codec, tree: Tree, key: Bytes, block: int, n: nat)
    requires n == PartitionPoint(Marks(Parents(c, tree)), Version(key, block))
    ensures n <= |tree| && (n > 0 ==> Reaches(tree[0], key, block) && Reaches(tree[n - 1], key, block))
    ensures n == 0 && tree != [] ==> !Reaches(tree[0], key, block)
  {
    hide LeafObject, PartitionPoint;
    forall i | 0 <= i < |tree| ensures Marks(Parents(c, tree))[i] == At(tree[i][0][0]) {
      assert Parents(c, tree)[i] == ParentOf(c, tree[i]);
    }
  }

  lemma FencesReach(c: Codec, leaf: Leaf, key: Bytes, block: int)
    ensures PartitionPoint(Marks(Fences(c, leaf)), Version(key, block)) > 0 <==> Reaches(leaf, key, block)
  {
    hide PageObject, PartitionPoint;
    assert Fences(c, leaf)[0] == FenceOf(c, leaf[0]);
    assert Marks(Fences(c, leaf))[0] == At(leaf[0][0]);
  }

  /** Below an internal root, fetch the leaf whose interval covers the target. */
  method FollowParents(c: Codec, shard: nat, root: Ref, parents: seq<Fence>, key: Bytes, block: U64, fetch: Fetch,
                       ghost tree: Tree)
    returns (r: Result<Option<Located>>, asked: seq<Ref>, ghost at: nat)
    requires root.length <= MAX_INDEX
    ensures |asked| <= 2 && forall ref :: ref in asked ==> ref.length <= MAX_INDEX
    ensures r.Ok? ==> asked == [root] || Answered(fetch, asked)
    ensures Roots(c, shard, root, tree) && parents == Parents(c, tree) && r.Ok? ==>
              if r.value.None? then Search(TreeRecords(tree), key, block) == None
              else Leads(c, tree, key, block, r.value.value, at)
    ensures Roots(c, shard, root, tree) && |tree| > 1 && parents == Parents(c, tree) && r.Ok? ==>
              LocatedBy(c, tree, key, block, r.value, |asked|, at)
    ensures Roots(c, shard, root, tree) && parents == Parents(c, tree) && Honest(c, tree, fetch) ==>
              r.Ok? && (r.value.Some? ==> Matches(c, r.value.value.ref, r.value.value.bytes))
  {
    hide TreeOk, Search, LeafObject, InternalObject, TreeRecords, PartitionPoint, Clean, CleanObject, TreeRef;
    hide Honest, TreeObject, Reaches, Matches, RefOf, Leads, LocatedBy, Lossless;
    asked, at := [root], 0;
    var position := PartitionPoint(Marks(parents), Version(key, block));
    if position == 0 {
      if Roots(c, shard, root, tree) && parents == Parents(c, tree) { FollowedNowhere(c, shard, tree, key, block); }
      return Ok(None), asked, at;
    }
    var entry := parents[position - 1];
    at := position - 1;
    if Roots(c, shard, root, tree) && parents == Parents(c, tree) {
      ParentFence(c, shard, tree, at);
      LeafVerified(c, shard, tree, at, []);
      HonestAt(c, tree, fetch, [root], LeafObject(c, tree[at]));
    }
    if !RefOk(entry.data, MAX_INDEX) {
      return Err, asked, at;
    }
    var answer := fetch(asked, entry.data);
    asked := asked + [entry.data];
    if answer.None? {
      return Err, asked, at;
    }
    r := Ok(Some(Located(entry.data, answer.value, Some(Mark(entry)))));
    if Roots(c, shard, root, tree) && parents == Parents(c, tree) {
      LeafVerified(c, shard, tree, at, answer.value);
      Followed(c, shard, tree, key, block, at, answer.value);
    }
  }

  /** The target comes before the whole partition. */
  lemma FollowedNowhere(c: Codec, shard: nat, tree: Tree, key: Bytes, block: int)
    requires TreeOk(c, shard, tree) && PartitionPoint(Marks(Parents(c, tree)), Version(key, block)) == 0
    ensures Search(TreeRecords(tree), key, block) == None
    ensures |tree| > 1 ==> LocatedBy(c, tree, key, block, None, 1, 0)
  {
    hide TreeOk, Search, LeafObject, TreeRecords, PartitionPoint, Reaches;
    SearchTree(c, shard, tree, key, block);
    ParentsReach(c, tree, key, block, 0);
  }

  /** The leaf chosen by its parent entry decides the search. */
  lemma Followed(c: Codec, shard: nat, tree: Tree, key: Bytes, block: int, at: nat, bytes: Bytes)
    requires TreeOk(c, shard, tree) && Clean(c, tree)
    requires PartitionPoint(Marks(Parents(c, tree)), Version(key, block)) == at + 1
    ensures
      var entry := Parents(c, tree)[at];
      var loc := Located(entry.data, bytes, Some(Mark(entry)));
      Leads(c, tree, key, block, loc, at) && (|tree| > 1 ==> LocatedBy(c, tree, key, block, Some(loc), 2, at))
  {
    hide TreeOk, Search, LeafObject, TreeRecords, PartitionPoint, Reaches, Clean, Matches, RefOf;
    SearchTree(c, shard, tree, key, block);
    ParentsReach(c, tree, key, block, at + 1);
    LeafVerified(c, shard, tree, at, bytes);
    assert Parents(c, tree)[at] == ParentOf(c, tree[at]);
  }

  /** Fetch the root of a partition and locate the fence leaf that covers the target. */
  method FindLeaf(c: Codec, shard: nat, root: Ref, key: Bytes, block: U64, fetch: Fetch, ghost tree: Tree)
    returns (r: Result<Option<Located>>, asked: seq<Ref>, ghost at: nat)
    ensures |asked| <= 2 && forall ref :: ref in asked ==> ref.length <= MAX_INDEX
    ensures r.Ok? ==> Answered(fetch, asked)
    ensures Roots(c, shard, root, tree) && tree != [] && r.Ok? ==>
              if r.value.None? then Search(TreeRecords(tree), key, block) == None
              else Leads(c, tree, key, block, r.value.value, at)
    ensures Roots(c, shard, root, tree) && tree != [] && r.Ok? ==> LocatedBy(c, tree, key, block, r.value, |asked|, at)
    ensures Roots(c, shard, root, tree) && tree != [] && Honest(c, tree, fetch) ==>
              r.Ok? && (r.value.Some? ==> Matches(c, r.value.value.ref, r.value.value.bytes))
  {
    hide TreeOk, Search, LeafObject, InternalObject, TreeRecords, PartitionPoint, IsIndex, Clean, CleanObject, TreeRef;
    hide Honest, TreeObject;
    asked, at := [], 0;
    if Roots(c, shard, root, tree) && tree != [] {
      RootVerified(c, shard, root, tree, []);
      HonestAt(c, tree, fetch, [], RootObject(c, tree));
    }
    if !RefOk(root, MAX_INDEX) {
      return Err, asked, at;
    }
    var answer := fetch(asked, root);
    asked := [root];
    if answer.None? {
      return Err, asked, at;
    }
    var bytes := answer.value;
    if Roots(c, shard, root, tree) && tree != [] {
      RootVerified(c, shard, root, tree, bytes);
      if |tree| == 1 { SearchOnly(tree, key, block); }
    }
    if !(INTERNAL_MAGIC <= bytes) {
      return Ok(Some(Located(root, bytes, None))), asked, at;
    }
    assert bytes[..4] == INTERNAL_MAGIC;
    var decoded := DecodeIndex(c, root, bytes, shard, INTERNAL_MAGIC);
    if Roots(c, shard, root, tree) && |tree| > 1 {
      InternalIsIndex(c, shard, tree);
    }
    if decoded.Err? {
      return Err, asked, at;
    }
    r, asked, at := FollowParents(c, shard, root, decoded.value, key, block, fetch, tree);
  }

  lemma LeafVerified(c: Codec, shard: nat, tree: Tree, i: nat, bytes: Bytes)
    requires TreeOk(c, shard, tree) && Clean(c, tree) && i < |tree|
    ensures Matches(c, RefOf(c, LeafObject(c, tree[i])), bytes) <==> bytes == LeafObject(c, tree[i])
    ensures TreeObject(c, tree, LeafObject(c, tree[i]))
  {
    hide LeafObject, Sorted, TreeRecords;
    assert LeafFits(c, tree[i]);
    assert TreeObject(c, tree, LeafObject(c, tree[i]));
    Verified(c, tree, LeafObject(c, tree[i]), bytes);
  }

  // ---------------------------------------------------------------- the leaf and its page

  lemma PageVerified(c: Codec, shard: nat, tree: Tree, i: nat, j: nat, bytes: Bytes)
    requires TreeOk(c, shard, tree) && Clean(c, tree) && i < |tree| && j < |tree[i]|
    ensures TreeObject(c, tree, PageObject(c, tree[i][j]))
    ensures Matches(c, RefOf(c, PageObject(c, tree[i][j])), bytes) ==>
              IsPageObject(c, bytes, shard, tree[i][j])
    ensures Matches(c, RefOf(c, PageObject(c, tree[i][j])), PageObject(c, tree[i][j]))
  {
    hide PageObject, LeafObject, Sorted, TreeRecords, PageOk;
    PageIsOk(c, shard, tree, i, j);
    assert TreeObject(c, tree, PageObject(c, tree[i][j]));
    Verified(c, tree, PageObject(c, tree[i][j]), bytes);
    Verified(c, tree, PageObject(c, tree[i][j]), PageObject(c, tree[i][j]));
  }

  /** Everything `SearchLeaf` needs of a located leaf whose bytes verify. */
  ghost predicate AtLeaf(c: Codec, shard: nat, tree: Tree, loc: Located, at: nat)
  {
    && Lossless(c) && TreeOk(c, shard, tree) && Clean(c, tree) && at < |tree|
    && (Matches(c, loc.ref, loc.bytes) ==>
          && loc.bytes == LeafObject(c, tree[at])
          && (loc.start.Some? ==> loc.start.value == At(tree[at][0][0])))
  }

  /** `fence` is the fence of page `j` of leaf `at`. */
  ghost predicate AtPage(c: Codec, shard: nat, tree: Tree, at: nat, j: nat, fence: Fence)
  {
    && Lossless(c) && TreeOk(c, shard, tree) && Clean(c, tree)
    && at < |tree| && j < |tree[at]| && fence == FenceOf(c, tree[at][j])
  }

  /** Fetch and decode the data page behind a fence. */
  method FetchPage(c: Codec, shard: nat, fence: Fence, fetch: Fetch, before: seq<Ref>,
                   ghost tree: Tree, ghost at: nat, ghost j: nat)
    returns (r: Result<seq<Record>>, asked: seq<Ref>)
    ensures asked == before || (asked == before + [fence.data] && fence.data.length <= MAX_PAGE)
    ensures r.Ok? ==> asked == before + [fence.data] && Answered(fetch, asked)
    ensures AtPage(c, shard, tree, at, j, fence) && r.Ok? ==> r.value == tree[at][j]
    ensures AtPage(c, shard, tree, at, j, fence) && Honest(c, tree, fetch) && Short(before) ==> r.Ok?
  {
    hide TreeOk, PageObject, Clean, CleanObject, Honest, TreeObject, Short;
    asked := before;
    if AtPage(c, shard, tree, at, j, fence) {
      LeafFence(c, shard, tree, at, j);
    }
    if !RefOk(fence.data, MAX_PAGE) {
      return Err, asked;
    }
    var answer := fetch(asked, fence.data);
    asked := asked + [fence.data];
    if AtPage(c, shard, tree, at, j, fence) {
      PageVerified(c, shard, tree, at, j, if answer.Some? then answer.value else []);
      if Short(before) { HonestAt(c, tree, fetch, before, PageObject(c, tree[at][j])); }
    }
    if answer.None? {
      return Err, asked;
    }
    r := DecodePage(c, fence.data, answer.value, shard);
    if r.Ok? && (r.value == [] || At(r.value[0]) != Mark(fence)) {
      return Err, asked;
    }
  }

  /** Decode a located leaf, fetch the one page that can hold the target and search it. */
  method SearchLeaf(c: Codec, shard: nat, loc: Located, key: Bytes, block: U64, fetch: Fetch, before: seq<Ref>,
                    ghost tree: Tree, ghost at: nat)
    returns (r: Result<Option<Bytes>>, asked: seq<Ref>)
    ensures |before| <= |asked| <= |before| + 1 && asked[..|before|] == before
    ensures |asked| > |before| ==> asked[|before|].length <= MAX_PAGE
    ensures AtLeaf(c, shard, tree, loc, at) && r.Ok? ==> r.value == Search(LeafRecords(tree[at]), key, block)
    ensures r.Ok? ==> Matches(c, loc.ref, loc.bytes) && (asked == before || Answered(fetch, asked))
    ensures AtLeaf(c, shard, tree, loc, at) && r.Ok? ==>
              |asked| == |before| + if Reaches(tree[at], key, block) then 1 else 0
    ensures (AtLeaf(c, shard, tree, loc, at) && Matches(c, loc.ref, loc.bytes) && Honest(c, tree, fetch)
             && Short(before)) ==> r.Ok?
  {
    hide TreeOk, LeafObject, PageObject, TreeRecords, LeafRecords, PartitionPoint, IsIndex, Clean, CleanObject, Search;
    hide Reaches, Honest, Short, Before, Matches, Lossless;
    asked := before;
    var target := Version(key, block);
    var decoded := DecodeIndex(c, loc.ref, loc.bytes, shard, INDEX_MAGIC);
    if AtLeaf(c, shard, tree, loc, at) {
      LeafIsIndex(c, shard, tree, at);
      FirstsOrdered(c, shard, tree, at);
      SearchLeafRecords(c, tree[at], key, block);
      FencesReach(c, tree[at], key, block);
    }
    if decoded.Err? {
      return Err, asked;
    }
    var fences := decoded.value;
    if loc.start.Some? && (fences == [] || Mark(fences[0]) != loc.start.value) {
      return Err, asked;
    }
    var position := PartitionPoint(Marks(fences), target);
    if position == 0 {
      return Ok(None), asked;
    }
    var page, all := FetchPage(c, shard, fences[position - 1], fetch, before, tree, at, position - 1);
    asked := all;
    if page.Err? {
      return Err, asked;
    }
    r := SearchPage(page.value, key, block);
  }

  /** The last step of a lookup: the candidate before the partition point of the page. */
  method SearchPage(records: seq<Record>, key: Bytes, block: U64) returns (r: Result<Option<Bytes>>)
    ensures r == Ok(Search(records, key, block))
  {
    var upper := PartitionPoint(Stamps(records), Version(key, block));
    if upper == 0 {
      return Ok(None);
    }
    var candidate := records[upper - 1];
    if candidate.key == key {
      return Ok(Some(candidate.value));
    }
    return Ok(None);
  }

  // ---------------------------------------------------------------- the run

  /** The run directory names one well-formed tree per partition. */
  ghost predicate Represents(c: Codec, indexes: seq<Ref>, trees: seq<Tree>)
  {
    && |indexes| == |trees| == PARTITIONS
    && forall p :: 0 <= p < PARTITIONS ==> Roots(c, p, indexes[p], trees[p])
  }

  ghost predicate AllHonest(c: Codec, trees: seq<Tree>, fetch: Fetch)
  {
    forall p :: 0 <= p < |trees| ==> Honest(c, trees[p], fetch)
  }

  /**
   Look a key up in a run. At most three objects are fetched; whatever the fetches
   return, an answer is the search over the records of the key's partition; and a store
   that holds the run's objects always yields an answer.
   */
  method Lookup(c: Codec, indexes: seq<Ref>, key: Bytes, block: U64, fetch: Fetch, ghost trees: seq<Tree>)
    returns (r: Result<Option<Bytes>>, asked: seq<Ref>)
    requires |indexes| == PARTITIONS
    ensures |asked| <= 3 && forall ref :: ref in asked ==> ref.length <= MAX_PAGE
    ensures r.Ok? ==> Answered(fetch, asked)
    ensures Represents(c, indexes, trees) && r.Ok? ==>
              r.value == Search(TreeRecords(trees[Partition(c, key)]), key, block)
    ensures Represents(c, indexes, trees) && r.Ok? ==>
              |asked| == SearchGets(trees[Partition(c, key)], key, block)
    ensures Represents(c, indexes, trees) && AllHonest(c, trees, fetch) ==> r.Ok?
  {
    hide TreeOk, LeafObject, TreeRecords, LeafRecords, Clean, Search, Reaches, Honest, TreeRef, Matches, RefOf;
    hide Partition;
    asked := [];
    var shard := Partition(c, key);
    if Represents(c, indexes, trees) {
      assert Roots(c, shard, indexes[shard], trees[shard]);
    }
    if key == [] {
      if Represents(c, indexes, trees) { EmptyKey(c, shard, trees[shard], block); }
      return Ok(None), asked;
    }
    var root := indexes[shard];
    ghost var tree := if Represents(c, indexes, trees) then trees[shard] else [];
    if root == DEFAULT_REF {
      if Represents(c, indexes, trees) {
        if tree != [] { RootVerified(c, shard, root, tree, []); }
        EmptyTree(key, block);
      }
      return Ok(None), asked;
    }
    if Represents(c, indexes, trees) { NonemptyRoot(c, tree); }
    r, asked := LookupTree(c, shard, root, key, block, fetch, tree);
  }

  /** A lookup below the root of one partition. */
  method LookupTree(c: Codec, shard: nat, root: Ref, key: Bytes, block: U64, fetch: Fetch, ghost tree: Tree)
    returns (r: Result<Option<Bytes>>, asked: seq<Ref>)
    ensures |asked| <= 3 && forall ref :: ref in asked ==> ref.length <= MAX_PAGE
    ensures r.Ok? ==> Answered(fetch, asked)
    ensures Roots(c, shard, root, tree) && tree != [] && r.Ok? ==> r.value == Search(TreeRecords(tree), key, block)
    ensures Roots(c, shard, root, tree) && tree != [] && key != [] && r.Ok? ==> |asked| == SearchGets(tree, key, block)
    ensures Roots(c, shard, root, tree) && tree != [] && Honest(c, tree, fetch) ==> r.Ok?
  {
    hide TreeOk, LeafObject, TreeRecords, LeafRecords, Clean, Search, Reaches, Honest, TreeRef, Matches, RefOf;
    hide Lossless;
    var found, first, at := FindLeaf(c, shard, root, key, block, fetch, tree);
    asked := first;
    if found.Err? {
      return Err, asked;
    }
    if found.value.None? {
      return Ok(None), asked;
    }
    var page;
    r, page := SearchLeaf(c, shard, found.value.value, key, block, fetch, first, tree, at);
    asked := page;
  }

  lemma NonemptyRoot(c: Codec, tree: Tree)
    requires TreeRef(c, tree) != DEFAULT_REF
    ensures tree != []
  {
  }

  lemma EmptyTree(key: Bytes, block: int)
    ensures Search(TreeRecords([]), key, block) == None
  {
    SearchNone([], key, block);
  }

  /** No record has an empty key, so an empty key is never found. */
  lemma EmptyKey(c: Codec, shard: nat, tree: Tree, block: int)
    requires TreeOk(c, shard, tree)
    ensures Search(TreeRecords(tree), [], block) == None
  {
    var rs := TreeRecords(tree);
    var n := PartitionPoint(Stamps(rs), Version([], block));
    if n > 0 { assert rs[n - 1] in rs && RecordOk(c, rs[n - 1], Some(shard)); }
  }
}
