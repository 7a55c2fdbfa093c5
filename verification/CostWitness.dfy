/**
 A head whose cold account-plus-storage read exceeds the documented 1 + runs + 6 GETs. The
 account and the slot are written at block 0 and again at block 5; the read asks for block 3,
 so the younger run, which also holds an account that sorts first, is searched in vain twice.
 The hash is a toy one that puts every key into one partition.
 */
module CostWitness {
  import opened Bytes
  import opened Versions
  import opened RunFormat
  import opened FenceIndex
  import opened RunTree
  import opened RunReader
  import opened RunBuilder
  import opened Bloom
  import opened Summary
  import opened Views
  import opened Keys
  import opened StateReads
  import opened ReadCost
  import DocumentedCost
  import RunWriter
  import Worker

  // ---------------------------------------------------------------- the records

  const ADDRESS: Hash20 := [1, 0, 0, 0, 0, 0, 0, 0, 0, 0, 0, 0, 0, 0, 0, 0, 0, 0, 0, 0]
  const NEIGHBOUR: Hash20 := [0, 0, 0, 0, 0, 0, 0, 0, 0, 0, 0, 0, 0, 0, 0, 0, 0, 0, 0, 0]

  function Live(): Bytes { EncodeState(AccountState(true, 0, 0, ZERO32, ZERO32)) }

  function Owner(): Bytes { AccountKey(ADDRESS) }

  function Slot(): Bytes { StorageKey(ADDRESS, 0, ZERO32) }

  function Elder(): (page: Page)
    ensures |page| == 2
  {
    [Record(Owner(), 0, Live()), Record(Slot(), 0, ZERO32)]
  }

  function Young(): (page: Page)
    ensures |page| == 3
  {
    [Record(AccountKey(NEIGHBOUR), 1, Live()), Record(Owner(), 5, Live()), Record(Slot(), 5, ZERO32)]
  }

  lemma KeyOrder()
    ensures Less(AccountKey(NEIGHBOUR), Owner()) && Less(Owner(), Slot()) && Less(AccountKey(NEIGHBOUR), Slot())
    ensures Owner() != Slot() && AccountKey(NEIGHBOUR) != Owner() && AccountKey(NEIGHBOUR) != Slot()
    ensures |Owner()| == 21 && |Slot()| == 61 && |AccountKey(NEIGHBOUR)| == 21
  {
    hide U64Bytes;
    StorageFields(ADDRESS, 0, ZERO32);
    assert AccountKey(NEIGHBOUR)[1..] == NEIGHBOUR && Owner()[1..] == ADDRESS;
  }

  lemma PagesSorted()
    ensures Sorted(Elder()) && Sorted(Young())
  {
    hide Owner, Slot, AccountKey, Live;
    KeyOrder();
  }

  // ---------------------------------------------------------------- the hash

  function Tag(n: Byte): (d: Digest)
    ensures d[0] == n
  {
    ZERO[0 := n]
  }

  /** A page object under a compression that changes nothing. */
  function PageBytes(page: Page): Bytes
  {
    var payload := EncodePage(page);
    COMPRESSED_MAGIC + [VERSION] + BigEndian(|payload|, 4) + BigEndian(|payload|, 4) + payload
  }

  /** The fence leaf over one page with the digest `Tag(n)`. */
  function LeafBytes(page: Page, n: Byte): Bytes
  {
    EncodeIndex(INDEX_MAGIC, [Fence(page[0].key, page[0].block, Ref(Tag(n), |PageBytes(page)| % 0x1_0000_0000))])
  }

  function Toy(x: Bytes): Digest
  {
    if x == PageBytes(Elder()) then Tag(1)
    else if x == PageBytes(Young()) then Tag(2)
    else if x == LeafBytes(Elder(), 1) then Tag(3)
    else if x == LeafBytes(Young(), 2) then Tag(4)
    else Tag(5)
  }

  function ToyCodec(): Codec { Codec(x => Toy(x), x => x, x => Some(x)) }

  // ---------------------------------------------------------------- the hash separates the objects

  lemma {:induction false} RecordsConcat(rs: seq<Record>, r: Record)
    ensures |EncodeRecords(rs + [r])| == |EncodeRecords(rs)| + 16 + |r.key| + |r.value|
  {
    assert (rs + [r])[..|rs|] == rs;
  }

  lemma PageLengths()
    ensures |PageBytes(Elder())| == 13 + 9 + 227 && |PageBytes(Young())| == 13 + 9 + 345
    ensures PageBytes(Elder())[..4] == PageBytes(Young())[..4] == COMPRESSED_MAGIC
  {
    hide EncodeRecords, Owner, Slot, AccountKey, EncodeState;
    KeyOrder();
    var e, y := Elder(), Young();
    EmptyRecords();
    assert e == [] + [e[0]] + [e[1]] && y == [] + [y[0]] + [y[1]] + [y[2]];
    RecordsConcat([], e[0]);
    RecordsConcat([e[0]], e[1]);
    RecordsConcat([], y[0]);
    RecordsConcat([y[0]], y[1]);
    RecordsConcat([y[0], y[1]], y[2]);
    assert [] + [e[0]] == [e[0]] && [] + [y[0]] == [y[0]] && [y[0]] + [y[1]] == [y[0], y[1]];
  }

  lemma EmptyRecords()
    ensures EncodeRecords([]) == []
  {
  }

  /** A one-fence index starts with its magic and shows its key. */
  lemma IndexKey(f: Fence)
    requires |f.key| == 21
    ensures
      var x := EncodeIndex(INDEX_MAGIC, [f]);
      |x| == 78 && x[..4] == INDEX_MAGIC && x[13..34] == f.key
  {
    hide BigEndian, EncodeRef;
    var fs := [f];
    assert fs[..0] == [];
    assert EncodeFences(fs) == EncodeFence(f);
  }

  lemma ObjectsApart()
    ensures PageBytes(Elder()) != PageBytes(Young())
    ensures LeafBytes(Elder(), 1) != LeafBytes(Young(), 2)
    ensures |LeafBytes(Elder(), 1)| == |LeafBytes(Young(), 2)| == 78
    ensures forall page :: page in [Elder(), Young()] ==>
              PageBytes(page) != LeafBytes(Elder(), 1) && PageBytes(page) != LeafBytes(Young(), 2)
  {
    hide PageBytes, EncodeIndex, Owner, AccountKey, Slot, Live, Tag;
    KeyOrder();
    PageLengths();
    IndexKey(Fence(Elder()[0].key, 0, Ref(Tag(1), |PageBytes(Elder())| % 0x1_0000_0000)));
    IndexKey(Fence(Young()[0].key, 1, Ref(Tag(2), |PageBytes(Young())| % 0x1_0000_0000)));
  }

  /** The four objects have digests of their own. */
  lemma ToyDigests()
    ensures Toy(PageBytes(Elder())) == Tag(1) && Toy(PageBytes(Young())) == Tag(2)
    ensures Toy(LeafBytes(Elder(), 1)) == Tag(3) && Toy(LeafBytes(Young(), 2)) == Tag(4)
    ensures forall x :: Toy(x)[0] == 1 ==> x == PageBytes(Elder())
    ensures forall x :: Toy(x)[0] == 2 ==> x == PageBytes(Young())
    ensures forall x :: Toy(x)[0] == 3 ==> x == LeafBytes(Elder(), 1)
    ensures forall x :: Toy(x)[0] == 4 ==> x == LeafBytes(Young(), 2)
    ensures forall x :: 0 < Toy(x)[0] <= 5
  {
    hide PageBytes, LeafBytes, Elder, Young, Tag;
    ObjectsApart();
  }

  lemma OnePartition(key: Bytes)
    ensures Partition(ToyCodec(), key) == 0
  {
    ToyDigests();
    assert ToyCodec().sha(key) == Toy(key);
  }

  // ---------------------------------------------------------------- the two runs

  function Trees(page: Page): (ts: seq<Tree>)
    ensures |ts| == PARTITIONS && ts[0] == [[page]] && forall p :: 0 < p < PARTITIONS ==> ts[p] == []
  {
    seq(PARTITIONS, p => if p == 0 then [[page]] else [])
  }

  lemma OnePage(page: Page)
    ensures TreeRecords([[page]]) == page && TreeRecords([]) == []
  {
    var leaf: Leaf := [page];
    var tree: Tree := [leaf];
    TreeOnly(tree);
    FlattenTake(leaf, 0);
    assert leaf[..1] == leaf && leaf[..0] == [];
  }

  lemma {:induction false} AllRouted(rs: seq<Record>, p: nat)
    ensures Routed(ToyCodec(), rs, p) == if p == 0 then rs else []
  {
    hide ToyCodec, Partition;
    if rs != [] {
      var front, last := rs[..|rs| - 1], rs[|rs| - 1];
      assert rs == front + [last];
      AllRouted(front, p);
      OnePartition(last.key);
    }
  }

  lemma PageObjectIs(page: Page)
    ensures PageObject(ToyCodec(), page) == PageBytes(page)
  {
    hide EncodePage, BigEndian;
  }

  lemma LeafObjectIs(page: Page, n: Byte)
    requires Toy(PageBytes(page)) == Tag(n) && |PageBytes(page)| < 0x1_0000_0000
    ensures LeafObject(ToyCodec(), [page]) == LeafBytes(page, n)
  {
    hide PageObject, PageBytes, EncodeIndex, Toy, Tag;
    PageObjectIs(page);
    var leaf: Leaf := [page];
    assert ToyCodec().sha(PageBytes(page)) == Toy(PageBytes(page));
    assert Fences(ToyCodec(), leaf)
        == [Fence(page[0].key, page[0].block, Ref(Tag(n), |PageBytes(page)| % 0x1_0000_0000))];
  }

  /** What the hash gives the page `page` and the leaf over it. */
  ghost predicate Hashed(page: Page, n: Byte, m: Byte)
  {
    && |EncodePage(page)| < 400 && |PageBytes(page)| < 400 && |LeafBytes(page, n)| == 78
    && Toy(PageBytes(page)) == Tag(n) && Toy(LeafBytes(page, n)) == Tag(m) && n > 0 && m > 0
    && (forall x :: Toy(x)[0] == n ==> x == PageBytes(page))
    && (forall x :: Toy(x)[0] == m ==> x == LeafBytes(page, n))
    && Sorted(page) && forall r :: r in page ==> |r.key| in {21, 61} && |r.value| <= 81
  }

  lemma BothHashed()
    ensures Hashed(Elder(), 1, 3) && Hashed(Young(), 2, 4)
  {
    hide Toy, Tag, Owner, Slot, AccountKey, LeafBytes, EncodeState, Sorted, EncodeRecords;
    KeyOrder();
    PagesSorted();
    PageLengths();
    ObjectsApart();
    ToyDigests();
    PayloadLength(Elder());
    PayloadLength(Young());
  }

  lemma PayloadLength(page: Page)
    ensures |PageBytes(page)| == 13 + |EncodePage(page)|
  {
  }

  lemma ToyClean(o: Bytes, n: Byte)
    requires Toy(o) == Tag(n) && n > 0 && forall x :: Toy(x)[0] == n ==> x == o
    ensures CleanObject(ToyCodec(), o)
  {
    hide Toy, Tag;
    assert forall x :: ToyCodec().sha(x) == Toy(x);
  }

  lemma TreeStands(page: Page, n: Byte, m: Byte)
    requires Hashed(page, n, m)
    ensures TreeOk(ToyCodec(), 0, [[page]]) && Clean(ToyCodec(), [[page]])
    ensures forall o :: TreeObject(ToyCodec(), [[page]], o) ==> o == PageBytes(page) || o == LeafBytes(page, n)
    ensures |PageObject(ToyCodec(), page)| < 400 && |LeafObject(ToyCodec(), [page])| == 78
  {
    hide Toy, Tag, PageBytes, LeafBytes, ToyCodec, PageObject, LeafObject, EncodePage, Sorted, Partition, CleanObject;
    var c, leaf := ToyCodec(), [page];
    OnePage(page);
    PageObjectIs(page);
    LeafObjectIs(page, n);
    ToyClean(PageBytes(page), n);
    ToyClean(LeafBytes(page, n), m);
    forall r | r in page ensures RecordOk(c, r, Some(0)) { OnePartition(r.key); }
    assert LeafFits(c, leaf);
  }

  lemma RunStands(page: Page, n: Byte, m: Byte)
    requires Hashed(page, n, m)
    ensures Represents(ToyCodec(), Indexes(ToyCodec(), Trees(page)), Trees(page))
    ensures forall p :: 0 <= p < PARTITIONS ==> TreeRecords(Trees(page)[p]) == Routed(ToyCodec(), page, p)
  {
    hide Hashed, ToyCodec, PageObject, LeafObject, Clean, TreeOk, TreeRecords, Routed, TreeRef;
    var c, trees := ToyCodec(), Trees(page);
    TreeStands(page, n, m);
    EmptyStands();
    OnePage(page);
    forall p | 0 <= p < PARTITIONS ensures Roots(c, p, Indexes(c, trees)[p], trees[p])
      && TreeRecords(trees[p]) == Routed(c, page, p)
    {
      AllRouted(page, p);
      EmptyTreeOk(c, p);
    }
  }

  lemma EmptyStands()
    ensures Lossless(ToyCodec())
  {
  }

  lemma EmptyTreeOk(c: Codec, p: nat)
    ensures TreeOk(c, p, []) && Clean(c, [])
  {
  }

  // ---------------------------------------------------------------- the stores

  function Find(ref: Ref): Option<Bytes>
  {
    if ref.digest[0] == 1 then Some(PageBytes(Elder()))
    else if ref.digest[0] == 2 then Some(PageBytes(Young()))
    else if ref.digest[0] == 3 then Some(LeafBytes(Elder(), 1))
    else if ref.digest[0] == 4 then Some(LeafBytes(Young(), 2))
    else None
  }

  function FindShard(path: Path, run: Digest, shards: nat, out: seq<(Path, Bytes)>): Option<Bytes>
    requires |out| == 2 * shards
  {
    if path.run == run && path.shards == shards && path.index < shards
    then Some(if path.kind == Address then out[path.index].1 else out[shards + path.index].1) else None
  }

  lemma RunStored(page: Page, n: Byte, m: Byte, b: Backing, objects: Objects)
    requires (page, n, m) in [(Elder(), 1, 3), (Young(), 2, 4)] && Hashed(page, n, m) && b.trees == Trees(page)
    requires forall t, ref :: objects(t, ref) == Find(ref)
    ensures Stored(ToyCodec(), b, objects)
  {
    hide Toy, PageBytes, LeafBytes, ToyCodec, Elder, Young, TreeObject, RefOf, Sorted, EncodePage, TreeOk, Clean;
    hide PageObject, LeafObject;
    TreeStands(page, n, m);
    forall t, p, o | 0 <= p < |b.trees| && TreeObject(ToyCodec(), b.trees[p], o)
      ensures objects(t, RefOf(ToyCodec(), o)) == Some(o)
    {
      EmptyHolds(o);
      DigestIs(o);
    }
  }

  lemma EmptyHolds(o: Bytes)
    ensures !TreeObject(ToyCodec(), [], o)
  {
  }

  lemma DigestIs(o: Bytes)
    requires |o| < 400
    ensures RefOf(ToyCodec(), o).digest == Toy(o)
  {
  }

  lemma ShardsFound(c: Codec, v: View, b: Backing, out: seq<(Path, Bytes)>, summaries: Summaries)
    requires FilterOk(b.filter, v.shards, b.size) && RunWriter.Holds(c, v.run, v.shards, b.size, b.filter, out)
    requires forall t, path: Path :: path.run == v.run ==> summaries(t, path) == FindShard(path, v.run, v.shards, out)
    ensures Genuine(c, v, b, summaries) && Summarized(v, summaries)
  {
    hide EncodeShard;
  }

  // ---------------------------------------------------------------- what is read

  function Answer(key: Bytes): Option<Bytes>
  {
    if key == Owner() || key == AccountKey(NEIGHBOUR) then Some(Live())
    else if key == Slot() then Some(ZERO32) else None
  }

  lemma AnswersAre(bs: seq<Backing>)
    requires |bs| == 2 && bs[0].records == Elder() && bs[1].records == Young()
    ensures ReadsAs(AllRecords(bs), 3, Answer)
  {
    hide Owner, Slot, AccountKey, Live;
    KeyOrder();
    var rs := AllRecords(bs);
    var e, y := Elder(), Young();
    AllFive(bs);
    hide AllRecords;
    forall key ensures IsAnswer(rs, key, 3, Answer(key)) { AnswerIs(rs, key); }
  }

  lemma AnswerIs(rs: set<Record>, key: Bytes)
    requires
      var e, y := Elder(), Young();
      forall r :: r in rs <==> r in [e[0], e[1], y[0], y[1], y[2]]
    ensures IsAnswer(rs, key, 3, Answer(key))
  {
    hide Owner, Slot, AccountKey, Live;
    KeyOrder();
    var e, y := Elder(), Young();
    if key == Owner() { assert Newest(rs, key, 3, e[0]); }
    if key == Slot() { assert Newest(rs, key, 3, e[1]); }
    if key == AccountKey(NEIGHBOUR) { assert Newest(rs, key, 3, y[0]); }
  }

  lemma AllFive(bs: seq<Backing>)
    requires |bs| == 2 && bs[0].records == Elder() && bs[1].records == Young()
    ensures
      var e, y := Elder(), Young();
      forall r :: r in AllRecords(bs) <==> r in [e[0], e[1], y[0], y[1], y[2]]
  {
    hide Owner, Slot, AccountKey, Live;
    forall r ensures r in AllRecords(bs) <==> r in Elder() || r in Young() {
      if r in AllRecords(bs) { var j :| 0 <= j < |bs| && r in bs[j].records; }
      assert r in bs[0].records ==> r in AllRecords(bs);
      assert r in bs[1].records ==> r in AllRecords(bs);
    }
  }

  lemma StorageIs()
    ensures StorageOf(Answer, ADDRESS, ZERO32) == Ok(ZERO32) && StorageKeyOf(Answer, ADDRESS, ZERO32) == Some(Slot())
  {
    hide DecodeState, EncodeState, StorageKey;
    KeyOrder();
    StateExact(Live(), AccountState(true, 0, 0, ZERO32, ZERO32));
  }

  lemma RecordsShaped(b: Backing)
    requires b.records == Elder() || b.records == Young()
    ensures Worker.Shaped(b.records)
  {
    hide StorageKey, AccountKey;
    assert KeyOf(Account(ADDRESS)) == Owner() && KeyOf(Account(NEIGHBOUR)) == AccountKey(NEIGHBOUR);
    assert KeyOf(Storage(ADDRESS, 0, ZERO32)) == Slot();
  }

  // ---------------------------------------------------------------- what it costs

  lemma ShortDigest(x: Bytes)
    requires |x| < 78
    ensures ToyCodec().sha(x) == Tag(5)
  {
    hide PageBytes, LeafBytes, Tag;
    PageLengths();
    ObjectsApart();
  }

  lemma Settled(v: View, b: Backing, key: Bytes)
    requires FilterOk(b.filter, v.shards, b.size) && key in [Owner(), Slot()]
    ensures !Deferred(ToyCodec(), v, b, key)
  {
    hide ToyCodec, Owner, Slot, Contains, FilterOk;
    KeyOrder();
    ShortDigest(key);
    ShortDigest(Marker(Group(key)));
  }

  /** Leaf and page: the first record of either run sorts at or before both targets. */
  lemma TwoFetches(page: Page, key: Bytes, block: int)
    requires key in [Owner(), Slot()] && ((page == Elder() && block == 0) || (page == Young() && block == 3))
    ensures SearchGets(Trees(page)[0], key, block) == 2
  {
    hide Owner, Slot, AccountKey, Live;
    KeyOrder();
    var tree: Tree := [[page]];
    assert Trees(page)[0] == tree;
    var v, w := Version(key, block), At(page[0]);
    if v != w { BeforeAsymmetric(w, v); } else { BeforeIrreflexive(v); }
    assert Reaches(tree[0], key, block);
  }

  /** The views and their backing are those of the two runs. */
  ghost predicate Pair(views: seq<View>, bs: seq<Backing>)
  {
    && |views| == |bs| == 2 && Ready(views, bs)
    && views[0].start == views[0].end == 0 && views[1].start == 1 && views[1].end == 9 && views[0].run != views[1].run
    && bs[0].records == Elder() && bs[0].trees == Trees(Elder())
    && bs[1].records == Young() && bs[1].trees == Trees(Young())
    && forall j, key :: 0 <= j < 2 && key in [Owner(), Slot()] ==>
         MayContain(ToyCodec(), bs[j].filter, views[j].shards, bs[j].size, key)
  }

  lemma PairReady(views: seq<View>, bs: seq<Backing>)
    requires Pair(views, bs)
    ensures Ready(views, bs) && |views| == 2 && views[0].shards > 0 && views[1].shards > 0
  {
  }

  lemma BothSearched(views: seq<View>, bs: seq<Backing>, key: Bytes)
    requires Pair(views, bs) && key in [Owner(), Slot()]
    ensures Stop(bs, key, 3) == 0 && KeyFetches(ToyCodec(), views, bs, key, 3) == 4
  {
    hide ToyCodec, Owner, Slot, AccountKey, MayContain, FilterOk, SearchGets, Live;
    var c := ToyCodec();
    KeyOrder();
    assert Invisible(bs[1], key, 3);
    OnePartition(key);
    TwoFetches(Elder(), key, 0);
    TwoFetches(Young(), key, 3);
    assert VisitGets(c, views[0], bs[0], key, 3) == 2 && VisitGets(c, views[1], bs[1], key, 3) == 2;
    assert Fetches(c, views, bs, key, 3, 1) == 2;
  }

  lemma BothProbed(views: seq<View>, bs: seq<Backing>, key: Bytes)
    requires Pair(views, bs) && key in [Owner(), Slot()]
    ensures SpillShards(ToyCodec(), views, bs, key, 3, 0) == {}
    ensures |AddressShards(ToyCodec(), views, bs, key, 3, 0)| == 2
  {
    hide ToyCodec, Owner, Slot, MayContain, FilterOk, Deferred, Elder, Young, Trees;
    var c := ToyCodec();
    PairReady(views, bs);
    Settled(views[0], bs[0], key);
    Settled(views[1], bs[1], key);
    assert SpillShards(c, views, bs, key, 3, 1) == {};
    assert AddressShards(c, views, bs, key, 3, 1) == {AddressPath(c, views[1], key)};
    assert AddressPath(c, views[0], key) != AddressPath(c, views[1], key);
  }

  /** Two shards and four searches of two GETs each. */
  lemma TenGets(views: seq<View>, bs: seq<Backing>)
    requires Pair(views, bs)
    ensures ReadGets(ToyCodec(), views, bs, AccountKey(ADDRESS), Some(Slot()), 3, {}) == 10
  {
    hide Pair, ToyCodec, Ready, Stop, AddressShards, SpillShards, KeyFetches, KeyShards, StorageKey, AccountKey;
    hide Group, Route;
    var c := ToyCodec();
    PairReady(views, bs);
    BothSearched(views, bs, Owner());
    BothSearched(views, bs, Slot());
    BothProbed(views, bs, Owner());
    BothProbed(views, bs, Slot());
    DocumentedCost.StorageRoute(ADDRESS, 0, ZERO32);
    DocumentedCost.ShardParts(c, views, bs, Owner(), Slot(), 3);
    assert {} + KeyShards(c, views, bs, Owner(), 3) + KeyShards(c, views, bs, Slot(), 3)
        == KeyShards(c, views, bs, Owner(), 3) + KeyShards(c, views, bs, Slot(), 3);
  }

  /** A run of the witness with its summary. */
  ghost predicate Stands(page: Page, n: Byte, m: Byte, v: View, b: Backing, out: seq<(Path, Bytes)>)
  {
    && Hashed(page, n, m) && b.records == page && b.trees == Trees(page)
    && v.indexes == Indexes(ToyCodec(), Trees(page)) && (forall r :: r in page ==> v.start <= r.block <= v.end)
    && FilterOk(b.filter, v.shards, b.size) && HEADER_BYTES + b.size + 32 <= MAX_SHARD
    && (forall r :: r in page ==> MayContain(ToyCodec(), b.filter, v.shards, b.size, r.key))
    && RunWriter.Holds(ToyCodec(), v.run, v.shards, b.size, b.filter, out)
  }

  lemma RunBacks(page: Page, n: Byte, m: Byte, v: View, b: Backing, out: seq<(Path, Bytes)>)
    requires Stands(page, n, m, v, b, out)
    ensures Backs(ToyCodec(), v, b)
  {
    hide ToyCodec, MayContain, FilterOk, Trees, RunWriter.Holds, Represents, Routed, TreeRecords, Sorted, Indexes;
    RunStands(page, n, m);
    PageSorted(page, n, m);
  }

  lemma PageSorted(page: Page, n: Byte, m: Byte)
    requires Hashed(page, n, m)
    ensures Sorted(page)
  {
  }

  ghost predicate Found(v: View, out: seq<(Path, Bytes)>, summaries: Summaries)
  {
    |out| == 2 * v.shards
    && forall t, path: Path :: path.run == v.run ==> summaries(t, path) == FindShard(path, v.run, v.shards, out)
  }

  lemma RunOpens(page: Page, n: Byte, m: Byte, v: View, b: Backing, out: seq<(Path, Bytes)>, summaries: Summaries)
    requires Stands(page, n, m, v, b, out) && Found(v, out, summaries) && page in [Elder(), Young()]
    ensures Backs(ToyCodec(), v, b) && FilterOk(b.filter, v.shards, b.size) && Genuine(ToyCodec(), v, b, summaries)
    ensures Summarized(v, summaries) && Worker.Shaped(b.records)
  {
    hide ToyCodec, MayContain, Hashed, Trees, RunWriter.Holds, Genuine, Backs, Summarized, Worker.Shaped, Elder, Young;
    hide Indexes, FilterOk, FindShard;
    RunBacks(page, n, m, v, b, out);
    ShardsFound(ToyCodec(), v, b, out, summaries);
    RecordsShaped(b);
  }

  lemma BothStand(views: seq<View>, bs: seq<Backing>, summaries: Summaries,
                  elderOut: seq<(Path, Bytes)>, youngOut: seq<(Path, Bytes)>)
    requires |views| == |bs| == 2 && views[0].end < views[1].start
    requires Stands(Elder(), 1, 3, views[0], bs[0], elderOut) && Stands(Young(), 2, 4, views[1], bs[1], youngOut)
    requires Found(views[0], elderOut, summaries) && Found(views[1], youngOut, summaries)
    ensures Backed(ToyCodec(), views, bs, summaries) && Worker.AllShaped(bs) && Ready(views, bs)
    ensures Summarized(views[0], summaries) && Summarized(views[1], summaries)
  {
    hide ToyCodec, Stands, Found, Genuine, Backs, Summarized, Worker.Shaped, Elder, Young, FilterOk;
    RunOpens(Elder(), 1, 3, views[0], bs[0], elderOut, summaries);
    RunOpens(Young(), 2, 4, views[1], bs[1], youngOut, summaries);
    BackedReady(ToyCodec(), views, bs, summaries);
  }

  lemma BothPair(views: seq<View>, bs: seq<Backing>, elderOut: seq<(Path, Bytes)>, youngOut: seq<(Path, Bytes)>)
    requires |views| == |bs| == 2 && views[0].run != views[1].run && Ready(views, bs)
    requires views[0].start == views[0].end == 0 && views[1].start == 1 && views[1].end == 9
    requires Stands(Elder(), 1, 3, views[0], bs[0], elderOut) && Stands(Young(), 2, 4, views[1], bs[1], youngOut)
    ensures Pair(views, bs)
  {
    hide ToyCodec, MayContain, Hashed, Trees, RunWriter.Holds, FilterOk, Indexes, Elder, Young, Owner, Slot;
    HeldKeys();
  }

  lemma BothServed(views: seq<View>, bs: seq<Backing>, objects: Objects, summaries: Summaries)
    requires |views| == |bs| == 2 && bs[0].trees == Trees(Elder()) && bs[1].trees == Trees(Young())
    requires Summarized(views[0], summaries) && Summarized(views[1], summaries)
    requires forall t, ref :: objects(t, ref) == Find(ref)
    ensures Worker.AllServed(ToyCodec(), views, bs, objects, summaries)
  {
    hide ToyCodec, Hashed, Trees, Summarized, Stored, Find, Elder, Young;
    BothHashed();
    RunStored(Elder(), 1, 3, bs[0], objects);
    RunStored(Young(), 2, 4, bs[1], objects);
  }

  lemma HeldKeys()
    ensures exists r :: r in Elder() && r.key == Owner()
    ensures exists r :: r in Elder() && r.key == Slot()
    ensures exists r :: r in Young() && r.key == Owner()
    ensures exists r :: r in Young() && r.key == Slot()
  {
    hide Owner, Slot, Live, AccountKey;
    assert Elder()[0] in Elder() && Elder()[1] in Elder() && Young()[1] in Young() && Young()[2] in Young();
  }

  lemma CanRead()
    ensures Worker.Room(1, Worker.MIB / 4, 20)
  {
  }

  /** Summarize one run of the witness. */
  method MakeRun(page: Page, keys: seq<Bytes>, run: Digest, start: U64, end: U64, ghost n: Byte, ghost m: Byte)
    returns (v: View, out: seq<(Path, Bytes)>, ghost b: Backing)
    requires Hashed(page, n, m) && |keys| <= 3
    requires forall r :: r in page ==> r.key in keys && start <= r.block <= end
    ensures v.start == start && v.end == end && v.run == run && Stands(page, n, m, v, b, out)
    ensures b.records == page && b.trees == Trees(page)
  {
    hide ToyCodec, MayContain, Trees, Hashed, RunWriter.Holds, FilterOk, Indexes;
    var shards, shardList, filter, size := RunWriter.Summarize(ToyCodec(), keys, |keys|, run);
    v, out := View(start, end, run, shards, Indexes(ToyCodec(), Trees(page))), shardList;
    b := Backing(page, Trees(page), filter, size);
  }

  lemma PageKeys()
    ensures forall r :: r in Elder() ==> r.key in [Owner(), Slot()] && 0 <= r.block <= 0
    ensures forall r :: r in Young() ==> r.key in [AccountKey(NEIGHBOUR), Owner(), Slot()] && 1 <= r.block <= 9
  {
    hide Owner, Slot, Live, AccountKey;
  }

  lemma OutLength(page: Page, n: Byte, m: Byte, v: View, b: Backing, out: seq<(Path, Bytes)>)
    requires Stands(page, n, m, v, b, out)
    ensures |out| == 2 * v.shards
  {
  }

  /** The whole of it: two runs and their summaries, a cold reader, one storage read at block 3. */
  method ExceedingRead() returns (r: Result<Hash32>, gets: nat)
    ensures r == Ok(ZERO32) && gets == 11 > DocumentedCost.Documented(2)
  {
    hide ToyCodec, Owner, Slot, AccountKey, Elder, Young, Hashed, Tag, ReadsAs, StorageOf, ReadGets, StorageKeyOf;
    hide Trees;
    hide Ready, Backed, Pair, Stands, Find, FindShard, Worker.AllShaped, Worker.AllServed, Worker.Room, AllRecords;
    BothHashed();
    PageKeys();
    var a, b := Tag(6), Tag(7);
    var elder, elderOut, elderBack := MakeRun(Elder(), [Owner(), Slot()], a, 0, 0, 1, 3);
    var young, youngOut, youngBack := MakeRun(Young(), [AccountKey(NEIGHBOUR), Owner(), Slot()], b, 1, 9, 2, 4);
    OutLength(Elder(), 1, 3, elder, elderBack, elderOut);
    OutLength(Young(), 2, 4, young, youngBack, youngOut);
    var views := [elder, young];
    ghost var bs := [elderBack, youngBack];
    var objects: Objects := (t, ref) => Find(ref);
    var summaries: Summaries := (t, path: Path) =>
      if path.run == a then FindShard(path, a, elder.shards, elderOut) else FindShard(path, b, young.shards, youngOut);
    BothStand(views, bs, summaries, elderOut, youngOut);
    BothPair(views, bs, elderOut, youngOut);
    BothServed(views, bs, objects, summaries);
    AnswersAre(bs);
    StorageIs();
    TenGets(views, bs);
    CanRead();
    var reader := new Worker.Reader(ToyCodec(), objects, summaries, views, bs);
    assert reader.shards.Keys == {};
    r := reader.StorageAt(ADDRESS, ZERO32, 3, Answer);
    gets := reader.gets;
  }
}
