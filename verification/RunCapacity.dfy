/**
 How much a run can hold. The builder refuses an input only for its bounds, and for state
 records those bounds are far away: keys of at most 61 bytes, records that fit a page, pages
 that compress into the page bound, and at most eleven TiB in each partition are enough.
 */
module RunCapacity {
  import opened Bytes
  import opened Versions
  import opened RunFormat
  import opened FenceIndex
  import opened RunTree
  import opened RunBuilder

  const MAX_KEY := 61
  /** The largest index entry, and how many of them always fit an index object. */
  const ENTRY := 48 + MAX_KEY
  const ENTRIES := 4809
  /** A page and the first record of the next one hold at least this. */
  const FULL := MAX_PAGE - 8
  const PARTITION_BYTES := 11 * 1024 * 1024 * 1024 * 1024

  /** Every record has a short key and fits a page. */
  ghost predicate Small(rs: seq<Record>)
  {
    forall r :: r in rs ==> |r.key| <= MAX_KEY && |r.key| + |r.value| + 25 <= MAX_PAGE
  }

  /** Every page that could be cut from the records compresses into the page bound. */
  ghost predicate Compresses(c: Codec, rs: seq<Record>)
  {
    forall page: Page :: (forall r :: r in page ==> r in rs) && |EncodePage(page)| <= MAX_PAGE ==>
      |PageObject(c, page)| <= MAX_PAGE
  }

  /** The size of an index over so many short keys is at most this. */
  function AtMost(n: nat): nat { 9 + ENTRY * n }

  lemma {:induction false} IndexFits(fs: seq<Fence>)
    requires forall f :: f in fs ==> |f.key| <= MAX_KEY
    ensures IndexSize(fs) <= AtMost(|fs|)
  {
    hide EncodeFences, AtMost;
    OneEntryMore(if fs == [] then 0 else |fs| - 1);
    if fs != [] {
      assert fs[|fs| - 1] in fs;
      IndexFits(fs[..|fs| - 1]);
    }
  }

  lemma OneEntryMore(n: nat)
    ensures AtMost(0) == 9 && AtMost(n + 1) == AtMost(n) + ENTRY
  {
  }

  function PageCount(done: Tree): nat
  {
    if done == [] then 0 else PageCount(done[..|done| - 1]) + |done[|done| - 1]|
  }

  lemma CountMore(done: Tree, leaf: Leaf)
    ensures PageCount(done + [leaf]) == PageCount(done) + |leaf|
  {
    assert (done + [leaf])[..|done|] == done;
  }

  lemma {:induction false} CountFull(done: Tree)
    requires forall l :: l in done ==> |l| >= ENTRIES
    ensures PageCount(done) >= ENTRIES * |done|
  {
    if done != [] {
      assert done[|done| - 1] in done;
      CountFull(done[..|done| - 1]);
    }
  }

  ghost predicate Firsts(pages: seq<Page>)
  {
    forall j :: 0 <= j < |pages| ==> |pages[j][0].key| <= MAX_KEY
  }

  /** Every closed leaf was full, and all keys are short. */
  ghost predicate Filled(sh: Shape)
  {
    (forall l :: l in sh.done ==> |l| >= ENTRIES && Firsts(l)) && Firsts(sh.leaf)
  }

  function Closed(sh: Shape): nat { PageCount(sh.done) + |sh.leaf| }

  /** The open buffers of a partition that has received `bytes` bytes of the records `rs`. */
  ghost predicate Roomy(rs: seq<Record>, sh: Shape, bytes: nat)
  {
    && Filled(sh) && (forall r :: r in sh.page ==> r in rs) && 9 + |EncodeRecords(sh.page)| <= MAX_PAGE
    && 2 * bytes >= FULL * Closed(sh) + |EncodeRecords(sh.page)|
  }

  /** `ENTRIES` is exactly how many such entries stay within the index bound. */
  lemma EntriesFit(n: nat)
    ensures AtMost(n) <= MAX_INDEX <==> n <= ENTRIES
  {
  }

  /** So few pages that full leaves over them fit one parent index. */
  predicate Few(pages: nat) { pages < ENTRIES * ENTRIES }

  lemma FewPages(pages: nat, bytes: nat)
    requires FULL * pages <= 2 * bytes && bytes <= PARTITION_BYTES
    ensures Few(pages) && Few(pages + 1)
  {
  }

  lemma FewLeaves(leaves: nat, pages: nat)
    requires ENTRIES * leaves <= pages && Few(pages)
    ensures leaves < ENTRIES
  {
  }

  lemma ParentsFit(c: Codec, tree: Tree)
    requires forall i :: 0 <= i < |tree| ==> Firsts(tree[i])
    ensures IndexSize(Parents(c, tree)) <= AtMost(|tree|)
  {
    hide LeafObject, IndexSize, AtMost;
    forall f | f in Parents(c, tree) ensures |f.key| <= MAX_KEY {
      var i :| 0 <= i < |tree| && Parents(c, tree)[i] == f;
      assert Firsts(tree[i]);
    }
    IndexFits(Parents(c, tree));
  }

  lemma FencesFit(c: Codec, pages: seq<Page>)
    requires Firsts(pages)
    ensures IndexSize(Fences(c, pages)) <= AtMost(|pages|)
  {
    hide PageObject, IndexSize, AtMost;
    forall f | f in Fences(c, pages) ensures |f.key| <= MAX_KEY {
      var j :| 0 <= j < |pages| && Fences(c, pages)[j] == f;
    }
    IndexFits(Fences(c, pages));
  }

  lemma FilledPage(sh: Shape, page: seq<Record>)
    ensures Filled(sh.(page := page)) == Filled(sh) && Closed(sh.(page := page)) == Closed(sh)
  {
  }

  /** Closing a leaf is never refused while the pages are few. */
  lemma LeafCloses(c: Codec, sh: Shape)
    requires Filled(sh) && Few(Closed(sh))
    ensures CloseShape(c, sh).Some?
  {
    hide PageObject, LeafObject, IndexSize, AtMost;
    if sh.leaf != [] {
      CountFull(sh.done);
      FewLeaves(|sh.done|, Closed(sh));
      var tree: Tree := sh.done + [sh.leaf];
      forall i | 0 <= i < |tree| ensures Firsts(tree[i]) {
        if i < |sh.done| { assert tree[i] in sh.done; }
      }
      hide Filled;
      ParentsFit(c, tree);
      EntriesFit(|tree|);
    }
  }

  lemma PageJoins(sh: Shape)
    requires Filled(sh) && sh.page != [] && |sh.page[0].key| <= MAX_KEY
    ensures Filled(ClosePage(sh)) && Closed(ClosePage(sh)) == Closed(sh) + 1 && ClosePage(sh).page == []
  {
    hide PageCount;
  }

  lemma LeafJoins(sh: Shape)
    requires Filled(sh) && sh.leaf != [] && |sh.leaf| >= ENTRIES
    ensures Filled(CloseLeaf(sh)) && Closed(CloseLeaf(sh)) == Closed(sh) && CloseLeaf(sh).page == sh.page
  {
    CountMore(sh.done, sh.leaf);
    hide PageCount;
    assert Firsts([]);
  }

  lemma FirstsMore(sh: Shape)
    requires Filled(sh) && sh.page != [] && |sh.page[0].key| <= MAX_KEY
    ensures Firsts(sh.leaf + [sh.page])
  {
  }

  /** Entering a page is never refused, and closes a leaf only when it is full. */
  lemma PageEnters(c: Codec, sh: Shape)
    requires Filled(sh) && Few(Closed(sh)) && sh.page != [] && |sh.page[0].key| <= MAX_KEY
    ensures AppendShape(c, sh).Some?
    ensures
      var next := AppendShape(c, sh).value;
      Filled(next) && Closed(next) == Closed(sh) + 1 && next.page == []
  {
    hide Filled, Closed, Firsts, Fences, IndexSize, ClosePage, CloseLeaf, AppendShape, CloseShape, Few, AtMost;
    var pages: seq<Page> := sh.leaf + [sh.page];
    FirstsMore(sh);
    FencesFit(c, pages);
    EntriesFit(|pages|);
    AppendCases(c, sh);
    if IndexSize(Fences(c, pages)) > MAX_INDEX {
      LeafCloses(c, sh);
      LeafJoins(sh);
      PageJoins(CloseLeaf(sh));
    } else {
      PageJoins(sh);
    }
  }

  lemma AppendCases(c: Codec, sh: Shape)
    requires sh.page != [] && |sh.page[0].key| <= MAX_KEY
    ensures IndexSize(Fences(c, sh.leaf + [sh.page])) <= MAX_INDEX ==> AppendShape(c, sh) == Some(ClosePage(sh))
    ensures IndexSize(Fences(c, sh.leaf + [sh.page])) > MAX_INDEX && sh.leaf != [] && CloseShape(c, sh).Some? ==>
              AppendShape(c, sh) == Some(ClosePage(CloseLeaf(sh)))
  {
    hide PageObject, IndexSize;
    OneEntry([FenceOf(c, sh.page)]);
  }

  lemma FirstRecord(page: seq<Record>, rs: seq<Record>)
    requires page != [] && (forall r :: r in page ==> r in rs) && Small(rs)
    ensures |page[0].key| <= MAX_KEY
  {
    assert page[0] in page;
  }

  /** Flushing is never refused. */
  lemma PageFlushes(c: Codec, rs: seq<Record>, sh: Shape, bytes: nat)
    requires Roomy(rs, sh, bytes) && bytes <= PARTITION_BYTES && Small(rs) && Compresses(c, rs)
    ensures FlushShape(c, sh).Some?
    ensures
      var next := FlushShape(c, sh).value;
      Filled(next) && Closed(next) == Closed(sh) + (if sh.page == [] then 0 else 1) && next.page == []
  {
    hide PageObject, AppendShape, Filled, EncodeRecords, Closed;
    if sh.page != [] {
      FirstRecord(sh.page, rs);
      FewPages(Closed(sh), bytes);
      assert |EncodePage(sh.page)| <= MAX_PAGE;
      PageEnters(c, sh);
    }
  }

  lemma RecordSize(rs: seq<Record>, r: Record)
    ensures |EncodeRecords(rs + [r])| == |EncodeRecords(rs)| + |EncodeRecord(r)|
  {
    assert (rs + [r])[..|rs|] == rs;
  }

  lemma NoRecords()
    ensures EncodeRecords([]) == []
  {
  }

  /** Adding a record is never refused, and keeps the pages as full as before. */
  lemma RecordEnters(c: Codec, rs: seq<Record>, sh: Shape, r: Record, bytes: nat)
    requires Roomy(rs, sh, bytes) && r in rs && Small(rs) && Compresses(c, rs)
    requires bytes + |EncodeRecord(r)| <= PARTITION_BYTES
    ensures AddShape(c, sh, r).Some? && Roomy(rs, AddShape(c, sh, r).value, bytes + |EncodeRecord(r)|)
  {
    hide EncodeRecords, Filled, FlushShape, Compresses, Closed, EncodeRecord;
    RecordSize(sh.page, r);
    FilledPage(sh, sh.page + [r]);
    if 9 + |EncodeRecords(sh.page)| + |EncodeRecord(r)| > MAX_PAGE {
      PageFlushes(c, rs, sh, bytes);
      RecordSize([], r);
      NoRecords();
      assert [] + [r] == [r];
      FilledPage(FlushShape(c, sh).value, [r]);
    }
  }

  ghost predicate AllRoomy(c: Codec, rs: seq<Record>, shapes: seq<Shape>, upto: seq<Record>)
  {
    |shapes| == PARTITIONS
    && forall p :: 0 <= p < PARTITIONS ==> Roomy(rs, shapes[p], |EncodeRecords(Routed(c, upto, p))|)
  }

  lemma {:induction false} PlanStands(c: Codec, rs: seq<Record>, upto: seq<Record>)
    requires Small(rs) && Compresses(c, rs) && forall r :: r in upto ==> r in rs
    requires forall p :: 0 <= p < PARTITIONS ==> |EncodeRecords(Routed(c, upto, p))| <= PARTITION_BYTES
    ensures Plan(c, upto).Some? && AllRoomy(c, rs, Plan(c, upto).value, upto)
  {
    hide Small, Compresses, Roomy, AddShape, EncodeRecords, EncodeRecord, Partition;
    if upto == [] {
      EmptyRoomy(rs);
      NoRecords();
    } else {
      var front, last := upto[..|upto| - 1], upto[|upto| - 1];
      assert upto == front + [last];
      forall p | 0 <= p < PARTITIONS
        ensures |EncodeRecords(Routed(c, front, p))| <= |EncodeRecords(Routed(c, upto, p))|
      {
        RecordSize(Routed(c, front, p), last);
      }
      PlanStands(c, rs, front);
      var p := Partition(c, last.key);
      RecordSize(Routed(c, front, p), last);
      RecordEnters(c, rs, Plan(c, front).value[p], last, |EncodeRecords(Routed(c, front, p))|);
    }
  }

  lemma EmptyRoomy(rs: seq<Record>)
    ensures Roomy(rs, EMPTY_SHAPE, 0)
  {
    NoRecords();
  }

  /** Large inputs are accepted: eleven TiB in each partition, whatever the number of records. */
  lemma LargeInputBounded(c: Codec, records: seq<Record>)
    requires Small(records) && Compresses(c, records)
    requires forall p :: 0 <= p < PARTITIONS ==> |EncodeRecords(Routed(c, records, p))| <= PARTITION_BYTES
    ensures Bounded(c, records)
  {
    hide Small, Compresses, Plan, EncodeRecords, FlushShape, CloseShape, Filled;
    PlanStands(c, records, records);
    forall p | 0 <= p < PARTITIONS ensures FinishShape(c, Plan(c, records).value[p]).Some? {
      var sh, bytes := Plan(c, records).value[p], |EncodeRecords(Routed(c, records, p))|;
      PageFlushes(c, records, sh, bytes);
      FewPages(Closed(sh), bytes);
      LeafCloses(c, FlushShape(c, sh).value);
    }
  }
}
