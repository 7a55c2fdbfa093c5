/**
 The streaming run builder: it routes sorted records to sixteen partitions, closes pages
 and fence leaves when they are full, and emits the objects of every tree and the run root.
 */
module RunBuilder {
  import opened Bytes
  import opened Versions
  import opened RunFormat
  import opened FenceIndex
  import opened RunTree
  import opened RunReader

  /** The buffers of one partition: open page, open fence leaf, fences of the closed leaves. */
  datatype Part = Part(page: Bytes, count: nat, leaf: seq<Fence>, parents: seq<Fence>)

  /** What those buffers stand for. */
  datatype Shape = Shape(done: Tree, leaf: seq<Page>, page: seq<Record>)

  function ShapeRecords(sh: Shape): seq<Record>
  {
    TreeRecords(sh.done) + Flatten(sh.leaf) + sh.page
  }

  ghost predicate PageOpen(part: Part, sh: Shape)
  {
    part.page == PageHeader(0) + EncodeRecords(sh.page) && |part.page| <= MAX_PAGE && part.count == |sh.page|
  }

  ghost predicate LeafOpen(c: Codec, part: Part, sh: Shape)
  {
    && part.leaf == Fences(c, sh.leaf) && IndexSize(part.leaf) <= MAX_INDEX
    && forall j :: 0 <= j < |sh.leaf| ==> PageFits(c, sh.leaf[j])
  }

  ghost predicate LeavesDone(c: Codec, part: Part, sh: Shape)
  {
    && part.parents == Parents(c, sh.done) && IndexSize(part.parents) <= MAX_INDEX
    && forall i :: 0 <= i < |sh.done| ==> LeafFits(c, sh.done[i])
  }

  ghost predicate RecordsOk(c: Codec, shard: nat, rs: seq<Record>)
  {
    Sorted(rs) && forall r :: r in rs ==> RecordOk(c, r, Some(shard))
  }

  /** The objects of the closed pages and leaves are out. */
  ghost predicate Emitted(c: Codec, sh: Shape, objects: seq<Bytes>)
  {
    && (forall j :: 0 <= j < |sh.leaf| ==> PageObject(c, sh.leaf[j]) in objects)
    && (forall i :: 0 <= i < |sh.done| ==> LeafEmitted(c, sh.done[i], objects))
  }

  ghost predicate LeafEmitted(c: Codec, leaf: Leaf, objects: seq<Bytes>)
  {
    LeafObject(c, leaf) in objects && forall j :: 0 <= j < |leaf| ==> PageObject(c, leaf[j]) in objects
  }

  ghost predicate PartOk(c: Codec, shard: nat, part: Part, sh: Shape, objects: seq<Bytes>)
  {
    && PageOpen(part, sh) && LeafOpen(c, part, sh) && LeavesDone(c, part, sh)
    && RecordsOk(c, shard, ShapeRecords(sh)) && Emitted(c, sh, objects)
  }

  lemma EmittedMore(c: Codec, sh: Shape, objects: seq<Bytes>, more: seq<Bytes>)
    requires Emitted(c, sh, objects)
    ensures Emitted(c, sh, objects + more)
  {
    forall i | 0 <= i < |sh.done| ensures LeafEmitted(c, sh.done[i], objects + more) {
      assert LeafEmitted(c, sh.done[i], objects);
    }
  }

  /** The object is one of the closed pages or leaves. */
  ghost predicate ShapeObject(c: Codec, sh: Shape, o: Bytes)
  {
    || (exists j :: 0 <= j < |sh.leaf| && o == PageObject(c, sh.leaf[j]))
    || exists i :: 0 <= i < |sh.done| && IsOf(c, sh.done[i], o)
  }

  ghost predicate IsOf(c: Codec, leaf: Leaf, o: Bytes)
  {
    o == LeafObject(c, leaf) || exists j :: 0 <= j < |leaf| && o == PageObject(c, leaf[j])
  }

  /** What was emitted while `sh` became `next` belongs to `next`, and what belonged to `sh` still does. */
  ghost predicate Extends(c: Codec, sh: Shape, next: Shape, objects: seq<Bytes>, out: seq<Bytes>)
  {
    && objects <= out && (forall o :: o in out ==> o in objects || ShapeObject(c, next, o))
    && forall o :: ShapeObject(c, sh, o) ==> ShapeObject(c, next, o)
  }

  lemma ExtendsNone(c: Codec, sh: Shape, objects: seq<Bytes>)
    ensures Extends(c, sh, sh, objects, objects)
  {
  }

  lemma ExtendsTwice(c: Codec, a: Shape, b: Shape, d: Shape, first: seq<Bytes>, second: seq<Bytes>, third: seq<Bytes>)
    requires Extends(c, a, b, first, second) && Extends(c, b, d, second, third)
    ensures Extends(c, a, d, first, third)
  {
    hide ShapeObject;
  }

  /** The open page does not matter. */
  lemma ExtendsPage(c: Codec, sh: Shape, next: Shape, objects: seq<Bytes>, out: seq<Bytes>, page: seq<Record>)
    requires Extends(c, sh, next, objects, out)
    ensures Extends(c, sh, next.(page := page), objects, out)
  {
    hide PageObject, LeafObject, IsOf;
    forall o | ShapeObject(c, next, o) ensures ShapeObject(c, next.(page := page), o) {}
  }

  lemma ExtendsLeaf(c: Codec, sh: Shape, objects: seq<Bytes>)
    requires sh.leaf != []
    ensures Extends(c, sh, CloseLeaf(sh), objects, objects + [LeafObject(c, sh.leaf)])
  {
    hide PageObject, LeafObject;
    var next, last := CloseLeaf(sh), |sh.done|;
    assert next.done[last] == sh.leaf && IsOf(c, next.done[last], LeafObject(c, sh.leaf));
    forall o | ShapeObject(c, sh, o) ensures ShapeObject(c, next, o) {
      if j :| 0 <= j < |sh.leaf| && o == PageObject(c, sh.leaf[j]) {
        assert IsOf(c, next.done[last], o);
      } else {
        var i :| 0 <= i < |sh.done| && IsOf(c, sh.done[i], o);
        assert IsOf(c, next.done[i], o);
      }
    }
  }

  /** A closed page belongs to its leaf. */
  lemma ExtendsClosedPage(c: Codec, sh: Shape, objects: seq<Bytes>)
    requires sh.page != []
    ensures Extends(c, sh, ClosePage(sh), objects, objects)
    ensures ShapeObject(c, ClosePage(sh), PageObject(c, sh.page))
  {
    hide PageObject, LeafObject, IsOf;
    var next, last := ClosePage(sh), |sh.leaf|;
    assert next.leaf[last] == sh.page;
    forall o | ShapeObject(c, sh, o) ensures ShapeObject(c, next, o) {
      if j :| 0 <= j < |sh.leaf| && o == PageObject(c, sh.leaf[j]) { assert next.leaf[j] == sh.leaf[j]; }
    }
  }

  // ---------------------------------------------------------------- closing a leaf

  function CloseLeaf(sh: Shape): Shape
    requires sh.leaf != []
  {
    Shape(sh.done + [sh.leaf], [], sh.page)
  }

  lemma CloseLeafRecords(sh: Shape)
    requires sh.leaf != []
    ensures ShapeRecords(CloseLeaf(sh)) == ShapeRecords(sh)
  {
    var lists := LeafLists(CloseLeaf(sh).done);
    assert lists[..|sh.done|] == LeafLists(sh.done);
    assert lists == LeafLists(sh.done) + [LeafRecords(sh.leaf)];
    FlattenMore(LeafLists(sh.done), LeafRecords(sh.leaf));
    FlattenNil<Record>();
  }

  /** The order check of `emit_leaf` never fires: leaves close in key order. */
  lemma LeavesOrdered(sh: Shape)
    requires sh.leaf != [] && sh.done != [] && Sorted(ShapeRecords(sh))
    ensures Before(At(sh.done[|sh.done| - 1][0][0]), At(sh.leaf[0][0]))
  {
    hide Flatten, Sorted, Before;
    var lists := LeafLists(sh.done) + [LeafRecords(sh.leaf)];
    FlattenMore(LeafLists(sh.done), LeafRecords(sh.leaf));
    LeafFirst(sh.leaf);
    LeafFirst(sh.done[|sh.done| - 1]);
    assert ShapeRecords(sh) == [] + Flatten(lists) + sh.page;
    SortedPiece([], Flatten(lists), sh.page);
    FirstsSorted(lists, |sh.done| - 1, |sh.done|);
  }

  lemma ParentsMore(c: Codec, tree: Tree, leaf: Leaf)
    ensures Parents(c, tree + [leaf]) == Parents(c, tree) + [ParentOf(c, leaf)]
  {
  }

  lemma SizeIsIndex(magic: Bytes, fs: seq<Fence>)
    requires |magic| == 4
    ensures |EncodeIndex(magic, fs)| == IndexSize(fs)
  {
  }

  /** What closing the open leaf makes of a partition; refused when the parent index is full. */
  ghost function CloseShape(c: Codec, sh: Shape): Option<Shape>
  {
    if sh.leaf == [] then Some(sh)
    else if IndexSize(Parents(c, sh.done + [sh.leaf])) > MAX_INDEX then None
    else Some(CloseLeaf(sh))
  }

  /** Close the open fence leaf and enter it in the parent index. */
  method EmitLeaf(c: Codec, part: Part, objects: seq<Bytes>, ghost shard: nat, ghost sh: Shape)
    returns (r: Result<Part>, out: seq<Bytes>)
    requires PartOk(c, shard, part, sh, objects)
    ensures objects <= out
    ensures r.Ok? <==> CloseShape(c, sh).Some?
    ensures r.Ok? ==> PartOk(c, shard, r.value, CloseShape(c, sh).value, out)
    ensures r.Ok? ==> Extends(c, sh, CloseShape(c, sh).value, objects, out)
  {
    hide IndexSize, EncodeIndex, PageObject, Before, Extends;
    out := objects;
    ExtendsNone(c, sh, objects);
    if part.leaf == [] {
      return Ok(part), out;
    }
    var first := part.leaf[0];
    if IndexSize(part.leaf) > MAX_INDEX {
      return Err, out;
    }
    var bytes := EncodeIndex(INDEX_MAGIC, part.leaf);
    var entry := Fence(first.key, first.block, RefOf(c, bytes));
    if part.parents != [] {
      LeavesOrdered(sh);
      assert Mark(part.parents[|part.parents| - 1]) == At(sh.done[|sh.done| - 1][0][0]);
      if !Before(Mark(part.parents[|part.parents| - 1]), Mark(entry)) {
        return Err, out;
      }
    }
    var parents := part.parents + [entry];
    ParentsMore(c, sh.done, sh.leaf);
    if IndexSize(parents) > MAX_INDEX {
      return Err, out;
    }
    out := objects + [bytes];
    LeafClosed(c, shard, part, sh, objects, bytes, parents);
    ExtendsLeaf(c, sh, objects);
    return Ok(part.(leaf := [], parents := parents)), out;
  }

  lemma LeafClosed(c: Codec, shard: nat, part: Part, sh: Shape, objects: seq<Bytes>, bytes: Bytes, parents: seq<Fence>)
    requires PartOk(c, shard, part, sh, objects) && part.leaf != []
    requires bytes == LeafObject(c, sh.leaf) && parents == part.parents + [ParentOf(c, sh.leaf)]
    requires IndexSize(parents) <= MAX_INDEX
    ensures PartOk(c, shard, part.(leaf := [], parents := parents), CloseLeaf(sh), objects + [bytes])
  {
    hide EncodeRecords, PageObject, Sorted, RecordOk, Flatten, LeafObject, PageFits;
    CloseLeafRecords(sh);
    LeafClosedDone(c, part, sh, parents);
    LeafClosedEmitted(c, sh, objects, bytes);
    assert Fences(c, []) == [];
  }

  lemma LeafClosedDone(c: Codec, part: Part, sh: Shape, parents: seq<Fence>)
    requires LeafOpen(c, part, sh) && LeavesDone(c, part, sh) && part.leaf != []
    requires parents == part.parents + [ParentOf(c, sh.leaf)] && IndexSize(parents) <= MAX_INDEX
    ensures LeavesDone(c, part.(leaf := [], parents := parents), CloseLeaf(sh))
  {
    hide PageObject, PageFits;
    ParentsMore(c, sh.done, sh.leaf);
    SizeIsIndex(INDEX_MAGIC, part.leaf);
    assert LeafFits(c, sh.leaf);
  }

  lemma LeafClosedEmitted(c: Codec, sh: Shape, objects: seq<Bytes>, bytes: Bytes)
    requires Emitted(c, sh, objects) && sh.leaf != [] && bytes == LeafObject(c, sh.leaf)
    ensures Emitted(c, CloseLeaf(sh), objects + [bytes])
  {
    hide PageObject, LeafObject;
    EmittedMore(c, sh, objects, [bytes]);
    assert LeafEmitted(c, sh.leaf, objects + [bytes]);
  }

  // ---------------------------------------------------------------- adding a page

  function ClosePage(sh: Shape): Shape
    requires sh.page != []
  {
    Shape(sh.done, sh.leaf + [sh.page], [])
  }

  lemma ClosePageRecords(sh: Shape)
    requires sh.page != []
    ensures ShapeRecords(ClosePage(sh)) == ShapeRecords(sh)
  {
    FlattenMore(sh.leaf, sh.page);
  }

  /** A partition whose page buffer is about to be reset. */
  function Reset(part: Part): Part { part.(page := PageHeader(0), count := 0) }

  /** What entering the open page in the leaf makes of a partition; refused when no leaf can take its fence. */
  ghost function AppendShape(c: Codec, sh: Shape): Option<Shape>
    requires sh.page != []
  {
    if IndexSize(Fences(c, sh.leaf + [sh.page])) <= MAX_INDEX then Some(ClosePage(sh))
    else if sh.leaf == [] then None
    else
      match CloseShape(c, sh)
      case None => None
      case Some(closed) => if IndexSize([FenceOf(c, sh.page)]) > MAX_INDEX then None else Some(ClosePage(closed))
  }

  lemma FencesMore(c: Codec, pages: seq<Page>, page: Page)
    ensures Fences(c, pages + [page]) == Fences(c, pages) + [FenceOf(c, page)]
  {
  }

  /** Enter the closed page in the open fence leaf, closing that leaf first when it is full. */
  method AppendLeafFence(c: Codec, part: Part, fence: Fence, objects: seq<Bytes>, ghost shard: nat, ghost sh: Shape)
    returns (r: Result<Part>, out: seq<Bytes>, ghost next: Shape)
    requires PartOk(c, shard, part, sh, objects) && sh.page != [] && PageFits(c, sh.page)
    requires fence == FenceOf(c, sh.page) && PageObject(c, sh.page) in objects
    ensures objects <= out
    ensures r.Ok? <==> AppendShape(c, sh).Some?
    ensures r.Ok? ==> && PartOk(c, shard, Reset(r.value), next, out) && next == AppendShape(c, sh).value
                      && next.page == [] && ShapeRecords(next) == ShapeRecords(sh)
    ensures r.Ok? ==> Extends(c, sh, next, objects, out) && ShapeObject(c, next, PageObject(c, sh.page))
  {
    hide PageObject, EncodeRecords, ShapeRecords, PageFits, IndexSize, Emitted, LeavesDone, RecordsOk, Extends;
    hide ShapeObject;
    out, next := objects, sh;
    FencesMore(c, sh.leaf, sh.page);
    var leaf := part.leaf + [fence];
    if IndexSize(leaf) <= MAX_INDEX {
      PageClosed(c, shard, part, sh, objects);
      ExtendsClosedPage(c, sh, objects);
      next := ClosePage(sh);
      return Ok(part.(leaf := leaf)), out, next;
    }
    if part.leaf == [] {
      return Err, out, next;
    }
    var closed;
    closed, out := EmitLeaf(c, part, objects, shard, sh);
    if closed.Err? {
      return Err, out, next;
    }
    leaf := [fence];
    if IndexSize(leaf) > MAX_INDEX {
      return Err, out, next;
    }
    CloseLeafRecords(sh);
    assert closed.value.leaf == [];
    PageClosed(c, shard, closed.value, CloseLeaf(sh), out);
    next := ClosePage(CloseLeaf(sh));
    ExtendsClosedPage(c, CloseLeaf(sh), out);
    ExtendsTwice(c, sh, CloseLeaf(sh), next, objects, out, out);
    return Ok(closed.value.(leaf := leaf)), out, next;
  }

  lemma PageClosed(c: Codec, shard: nat, part: Part, sh: Shape, objects: seq<Bytes>)
    requires PartOk(c, shard, part, sh, objects) && sh.page != [] && PageFits(c, sh.page)
    requires PageObject(c, sh.page) in objects && IndexSize(part.leaf + [FenceOf(c, sh.page)]) <= MAX_INDEX
    ensures PartOk(c, shard, Reset(part.(leaf := part.leaf + [FenceOf(c, sh.page)])), ClosePage(sh), objects)
    ensures ShapeRecords(ClosePage(sh)) == ShapeRecords(sh)
  {
    hide PageObject, Sorted, RecordOk, Flatten, LeafObject, PageFits, IndexSize, LeafFits, LeafEmitted;
    ClosePageRecords(sh);
    assert EncodeRecords([]) == [];
    assert Fences(c, sh.leaf + [sh.page]) == Fences(c, sh.leaf) + [FenceOf(c, sh.page)];
    assert LeafOpen(c, part.(leaf := part.leaf + [FenceOf(c, sh.page)]), ClosePage(sh));
  }

  /** The open page as it is emitted: its record count filled in. */
  lemma PageFilled(part: Part, sh: Shape)
    requires PageOpen(part, sh)
    ensures part.page[..5] + BigEndian(part.count, 4) + part.page[9..] == EncodePage(sh.page)
  {
    hide EncodeRecords, BigEndian;
    assert part.page[..5] == DATA_MAGIC + [VERSION];
    assert part.page[9..] == EncodeRecords(sh.page);
  }

  /** The open page parses back to its records. */
  lemma OpenPageParses(c: Codec, shard: nat, part: Part, sh: Shape)
    requires PageOpen(part, sh) && RecordsOk(c, shard, ShapeRecords(sh)) && sh.page != []
    ensures IsPage(c, EncodePage(sh.page), None, sh.page) && |EncodePage(sh.page)| == |part.page|
  {
    hide EncodeRecords, Flatten, BigEndian;
    var left := TreeRecords(sh.done) + Flatten(sh.leaf);
    assert ShapeRecords(sh) == left + sh.page + [];
    SortedPiece(left, sh.page, []);
    forall r | r in sh.page ensures RecordOk(c, r, None) {
      assert r in ShapeRecords(sh);
    }
    assert |EncodePage(sh.page)| == |part.page|;
    PageSmall(c, sh.page, None);
  }

  /** What closing the open page makes of a partition; refused when it does not compress into its bound. */
  ghost function FlushShape(c: Codec, sh: Shape): Option<Shape>
  {
    if sh.page == [] then Some(sh)
    else if |PageObject(c, sh.page)| > MAX_PAGE then None
    else AppendShape(c, sh)
  }

  /** Close the open page: count, compress, emit, and enter its fence. */
  method FlushPage(c: Codec, part: Part, objects: seq<Bytes>, ghost shard: nat, ghost sh: Shape)
    returns (r: Result<Part>, out: seq<Bytes>, ghost next: Shape)
    requires PartOk(c, shard, part, sh, objects)
    ensures objects <= out
    ensures r.Ok? <==> FlushShape(c, sh).Some?
    ensures r.Ok? ==> && PartOk(c, shard, r.value, next, out) && next == FlushShape(c, sh).value
                      && next.page == [] && ShapeRecords(next) == ShapeRecords(sh)
    ensures r.Ok? ==> Extends(c, sh, next, objects, out)
  {
    hide EncodeRecords, EncodePage, ShapeRecords, RecordsOk, BigEndian, IndexSize, AppendShape, Extends, ShapeObject;
    out, next := objects, sh;
    ExtendsNone(c, sh, objects);
    if part.count == 0 {
      return Ok(part), out, next;
    }
    var payload := part.page[..5] + BigEndian(part.count, 4) + part.page[9..];
    PageFilled(part, sh);
    OpenPageParses(c, shard, part, sh);
    var parsed := ParsePage(c, payload, None);
    if parsed.Err? || parsed.value == [] {
      return Err, out, next;
    }
    var first := parsed.value[0];
    var packed := c.compress(payload);
    var bytes := COMPRESSED_MAGIC + [VERSION] + BigEndian(|payload|, 4) + BigEndian(|packed|, 4) + packed;
    if |payload| > MAX_PAGE || |bytes| > MAX_PAGE {
      return Err, out, next;
    }
    out := objects + [bytes];
    EmittedMore(c, sh, objects, [bytes]);
    var appended, more, after :=
      AppendLeafFence(c, part, Fence(first.key, first.block, RefOf(c, bytes)), out, shard, sh);
    out, next := more, after;
    if appended.Err? {
      return Err, out, next;
    }
    PageExtends(c, sh, next, objects, bytes, out);
    return Ok(Reset(appended.value)), out, next;
  }

  lemma PageExtends(c: Codec, sh: Shape, next: Shape, objects: seq<Bytes>, bytes: Bytes, out: seq<Bytes>)
    requires Extends(c, sh, next, objects + [bytes], out) && ShapeObject(c, next, bytes)
    ensures Extends(c, sh, next, objects, out)
  {
    hide ShapeObject;
  }

  // ---------------------------------------------------------------- routing

  /** The records of one partition, in input order. */
  function Routed(c: Codec, rs: seq<Record>, p: nat): (out: seq<Record>)
    ensures forall r :: r in out <==> r in rs && Partition(c, r.key) == p
  {
    if rs == [] then []
    else
      var front := Routed(c, rs[..|rs| - 1], p);
      assert rs == rs[..|rs| - 1] + [rs[|rs| - 1]];
      if Partition(c, rs[|rs| - 1].key) == p then front + [rs[|rs| - 1]] else front
  }

  lemma RoutedMore(c: Codec, rs: seq<Record>, i: nat, p: nat)
    requires i < |rs|
    ensures Routed(c, rs[..i + 1], p)
            == if Partition(c, rs[i].key) == p then Routed(c, rs[..i], p) + [rs[i]] else Routed(c, rs[..i], p)
  {
    assert rs[..i + 1][..i] == rs[..i];
  }

  /** A key is answered by its partition alone. */
  lemma RoutedAnswer(c: Codec, rs: seq<Record>, key: Bytes, block: int, answer: Option<Bytes>)
    ensures IsAnswer(Contents(Routed(c, rs, Partition(c, key))), key, block, answer)
            <==> IsAnswer(Contents(rs), key, block, answer)
  {
    var part := Contents(Routed(c, rs, Partition(c, key)));
    forall r ensures r in part && Visible(r, key, block) <==> r in Contents(rs) && Visible(r, key, block) {}
    forall r ensures Newest(part, key, block, r) <==> Newest(Contents(rs), key, block, r) {}
  }

  // ---------------------------------------------------------------- adding a record

  /** What adding a record makes of its partition; refused only for the size of the record or of what is closed. */
  ghost function AddShape(c: Codec, sh: Shape, r: Record): Option<Shape>
  {
    if |r.key| + |r.value| + 25 > MAX_PAGE then None
    else if 9 + |EncodeRecords(sh.page)| + |EncodeRecord(r)| <= MAX_PAGE then Some(sh.(page := sh.page + [r]))
    else
      match FlushShape(c, sh)
      case None => None
      case Some(flushed) => Some(flushed.(page := flushed.page + [r]))
  }

  /** Put one record in the open page of its partition, flushing the page first when it is full. */
  method AddRecord(c: Codec, part: Part, record: Record, objects: seq<Bytes>, ghost shard: nat, ghost sh: Shape)
    returns (r: Result<Part>, out: seq<Bytes>, ghost next: Shape)
    requires PartOk(c, shard, part, sh, objects) && record.key != [] && Partition(c, record.key) == shard
    requires forall q :: q in ShapeRecords(sh) ==> Before(At(q), At(record))
    ensures objects <= out
    ensures r.Ok? <==> AddShape(c, sh, record).Some?
    ensures r.Ok? ==> && PartOk(c, shard, r.value, next, out) && next == AddShape(c, sh, record).value
                      && ShapeRecords(next) == ShapeRecords(sh) + [record]
    ensures r.Ok? ==> Extends(c, sh, next, objects, out)
  {
    hide ShapeRecords, EncodeRecord, PartOk, Before, FlushShape, Extends;
    OpenSize(c, shard, part, sh, objects);
    out, next := objects, sh;
    ExtendsNone(c, sh, objects);
    if |record.key| + |record.value| + 25 > MAX_PAGE {
      return Err, out, next;
    }
    var encoded := EncodeRecord(record);
    var open := part;
    if |part.page| + |encoded| > MAX_PAGE {
      if part.count == 0 {
        return Err, out, next;
      }
      var flushed;
      flushed, out, next := FlushPage(c, part, objects, shard, sh);
      if flushed.Err? {
        return Err, out, next;
      }
      open := flushed.value;
      OpenSize(c, shard, open, next, out);
      if |open.page| + |encoded| > MAX_PAGE {
        return Err, out, next;
      }
    }
    RecordAdded(c, shard, open, next, out, record);
    ExtendsPage(c, sh, next, objects, out, next.page + [record]);
    next := next.(page := next.page + [record]);
    return Ok(open.(page := open.page + encoded, count := open.count + 1)), out, next;
  }

  lemma OpenSize(c: Codec, shard: nat, part: Part, sh: Shape, objects: seq<Bytes>)
    requires PartOk(c, shard, part, sh, objects)
    ensures |part.page| == 9 + |EncodeRecords(sh.page)| && part.count == |sh.page|
  {
    hide RecordsOk, Emitted, LeafOpen, LeavesDone;
  }

  lemma RecordAdded(c: Codec, shard: nat, part: Part, sh: Shape, objects: seq<Bytes>, record: Record)
    requires PartOk(c, shard, part, sh, objects) && RecordOk(c, record, Some(shard))
    requires forall q :: q in ShapeRecords(sh) ==> Before(At(q), At(record))
    requires |part.page| + |EncodeRecord(record)| <= MAX_PAGE
    ensures
      var next := sh.(page := sh.page + [record]);
      && PartOk(c, shard, part.(page := part.page + EncodeRecord(record), count := part.count + 1), next, objects)
      && ShapeRecords(next) == ShapeRecords(sh) + [record]
  {
    hide PageObject, EncodeRecords, EncodeRecord, Flatten, LeafObject, PageFits, RecordOk, Before, IndexSize;
    hide LeafFits, LeafEmitted;
    EncodeMore(sh.page, record);
    var rs := ShapeRecords(sh);
    var next := sh.(page := sh.page + [record]);
    assert ShapeRecords(next) == rs + [record];
    if rs != [] { assert rs[|rs| - 1] in rs; }
    SortedAppend(rs, record);
  }

  // ---------------------------------------------------------------- the builder

  ghost predicate AllOk(c: Codec, parts: seq<Part>, shapes: seq<Shape>, objects: seq<Bytes>)
  {
    && |parts| == |shapes| == PARTITIONS
    && forall p :: 0 <= p < PARTITIONS ==> PartOk(c, p, parts[p], shapes[p], objects)
  }

  ghost predicate AllRouted(c: Codec, rs: seq<Record>, shapes: seq<Shape>)
  {
    && |shapes| == PARTITIONS
    && forall p :: 0 <= p < PARTITIONS ==> ShapeRecords(shapes[p]) == Routed(c, rs, p)
  }

  lemma PartOkMore(c: Codec, shard: nat, part: Part, sh: Shape, objects: seq<Bytes>, out: seq<Bytes>)
    requires PartOk(c, shard, part, sh, objects) && objects <= out
    ensures PartOk(c, shard, part, sh, out)
  {
    hide PageOpen, LeafOpen, LeavesDone, RecordsOk, Emitted;
    assert out == objects + out[|objects|..];
    EmittedMore(c, sh, objects, out[|objects|..]);
  }

  lemma ReplacePart(c: Codec, parts: seq<Part>, shapes: seq<Shape>, objects: seq<Bytes>, out: seq<Bytes>,
                    p: nat, part: Part, sh: Shape)
    requires AllOk(c, parts, shapes, objects) && objects <= out && p < PARTITIONS
    requires PartOk(c, p, part, sh, out)
    ensures AllOk(c, parts[p := part], shapes[p := sh], out)
  {
    hide PartOk;
    forall q | 0 <= q < PARTITIONS && q != p ensures PartOk(c, q, parts[q], shapes[q], out) {
      PartOkMore(c, q, parts[q], shapes[q], objects, out);
    }
  }

  /** Everything emitted belongs to some partition. */
  ghost predicate AllFrom(c: Codec, shapes: seq<Shape>, objects: seq<Bytes>)
  {
    forall o :: o in objects ==> exists p :: 0 <= p < |shapes| && ShapeObject(c, shapes[p], o)
  }

  lemma FromMore(c: Codec, shapes: seq<Shape>, objects: seq<Bytes>, out: seq<Bytes>, p: nat, sh: Shape)
    requires AllFrom(c, shapes, objects) && p < |shapes| && Extends(c, shapes[p], sh, objects, out)
    ensures AllFrom(c, shapes[p := sh], out)
  {
    hide ShapeObject;
    var next := shapes[p := sh];
    forall o | o in out ensures exists q :: 0 <= q < |next| && ShapeObject(c, next[q], o) {
      if o in objects {
        var q :| 0 <= q < |shapes| && ShapeObject(c, shapes[q], o);
        assert ShapeObject(c, next[q], o);
      } else {
        assert ShapeObject(c, next[p], o);
      }
    }
  }

  const EMPTY_PART := Part(PageHeader(0), 0, [], [])
  const EMPTY_SHAPE := Shape([], [], [])

  lemma EmptyOk(c: Codec, shard: nat)
    ensures PartOk(c, shard, EMPTY_PART, EMPTY_SHAPE, []) && ShapeRecords(EMPTY_SHAPE) == []
  {
    assert EncodeRecords([]) == [];
    FlattenNil<Record>();
    assert LeafLists([]) == [];
    assert Fences(c, []) == [] && Parents(c, []) == [];
  }

  ghost predicate KeysOk(rs: seq<Record>)
  {
    Sorted(rs) && forall r :: r in rs ==> r.key != []
  }

  function EmptyShapes(): (shapes: seq<Shape>)
    ensures |shapes| == PARTITIONS && forall p :: 0 <= p < PARTITIONS ==> shapes[p] == EMPTY_SHAPE
  {
    seq(PARTITIONS, _ => EMPTY_SHAPE)
  }

  /** The partitions after adding the records one by one; refused once one of them is. */
  ghost function Plan(c: Codec, records: seq<Record>): (shapes: Option<seq<Shape>>)
    ensures shapes.Some? ==> |shapes.value| == PARTITIONS
  {
    if records == [] then Some(EmptyShapes())
    else
      var last := records[|records| - 1];
      match Plan(c, records[..|records| - 1])
      case None => None
      case Some(shapes) =>
        match AddShape(c, shapes[Partition(c, last.key)], last)
        case None => None
        case Some(sh) => Some(shapes[Partition(c, last.key) := sh])
  }

  lemma {:induction false} PlanRefused(c: Codec, records: seq<Record>, i: nat)
    requires i <= |records| && Plan(c, records[..i]).None?
    ensures Plan(c, records).None?
  {
    hide AddShape, Partition;
    if i < |records| {
      assert records[..|records| - 1][..i] == records[..i];
      PlanRefused(c, records[..|records| - 1], i);
    } else {
      assert records[..i] == records;
    }
  }

  lemma PlanMore(c: Codec, records: seq<Record>, i: nat)
    requires i < |records| && Plan(c, records[..i]).Some?
    ensures
      var shapes, p := Plan(c, records[..i]).value, Partition(c, records[i].key);
      var sh := AddShape(c, shapes[p], records[i]);
      Plan(c, records[..i + 1]) == if sh.Some? then Some(shapes[p := sh.value]) else None
  {
    hide AddShape, Partition;
    assert records[..i + 1][..i] == records[..i];
  }

  /** Route every record to its partition, in order. */
  method AddAll(c: Codec, records: seq<Record>)
    returns (ok: bool, parts: seq<Part>, out: seq<Bytes>, ghost shapes: seq<Shape>)
    ensures ok <==> KeysOk(records) && Plan(c, records).Some?
    ensures ok ==> AllOk(c, parts, shapes, out) && AllRouted(c, records, shapes) && shapes == Plan(c, records).value
    ensures ok ==> AllFrom(c, shapes, out)
  {
    hide PartOk, ShapeRecords, Routed, Before, Partition, AddShape, Extends, ShapeObject;
    parts := seq(PARTITIONS, _ => EMPTY_PART);
    shapes := EmptyShapes();
    out := [];
    forall p | 0 <= p < PARTITIONS
      ensures PartOk(c, p, parts[p], shapes[p], []) && ShapeRecords(shapes[p]) == Routed(c, [], p)
    {
      EmptyOk(c, p);
      RoutedNone(c, p);
    }
    for i := 0 to |records|
      invariant KeysOk(records[..i]) && AllOk(c, parts, shapes, out) && AllRouted(c, records[..i], shapes)
      invariant Plan(c, records[..i]) == Some(shapes) && AllFrom(c, shapes, out)
    {
      var record := records[i];
      PlanMore(c, records, i);
      if record.key == [] {
        assert record in records;
        return false, parts, out, shapes;
      }
      if i > 0 && !Before(At(records[i - 1]), At(record)) {
        return false, parts, out, shapes;
      }
      var p := Partition(c, record.key);
      InputGrows(records, i);
      assert forall q :: q in ShapeRecords(shapes[p]) ==> q in records[..i];
      var added, more, sh := AddRecord(c, parts[p], record, out, p, shapes[p]);
      if added.Err? {
        PlanRefused(c, records, i + 1);
        return false, parts, out, shapes;
      }
      ReplacePart(c, parts, shapes, out, more, p, added.value, sh);
      FromMore(c, shapes, out, more, p, sh);
      RoutedGrows(c, records, i, shapes, sh);
      parts, shapes, out := parts[p := added.value], shapes[p := sh], more;
    }
    assert records[..|records|] == records;
    return true, parts, out, shapes;
  }

  lemma RoutedNone(c: Codec, p: nat)
    ensures Routed(c, [], p) == []
  {
  }

  lemma InputGrows(rs: seq<Record>, i: nat)
    requires i < |rs| && KeysOk(rs[..i]) && rs[i].key != []
    requires i > 0 ==> Before(At(rs[i - 1]), At(rs[i]))
    ensures KeysOk(rs[..i + 1]) && forall q :: q in rs[..i] ==> Before(At(q), At(rs[i]))
  {
    hide Before;
    assert rs[..i + 1] == rs[..i] + [rs[i]];
    SortedAppend(rs[..i], rs[i]);
    forall q | q in rs[..i] ensures Before(At(q), At(rs[i])) {
      var j :| 0 <= j < i && rs[..i][j] == q;
      assert Before(At(rs[..i + 1][j]), At(rs[..i + 1][i]));
    }
  }

  lemma RoutedGrows(c: Codec, rs: seq<Record>, i: nat, shapes: seq<Shape>, sh: Shape)
    requires i < |rs| && AllRouted(c, rs[..i], shapes)
    requires ShapeRecords(sh) == ShapeRecords(shapes[Partition(c, rs[i].key)]) + [rs[i]]
    ensures AllRouted(c, rs[..i + 1], shapes[Partition(c, rs[i].key) := sh])
  {
    hide ShapeRecords, Routed, Partition;
    var next := shapes[Partition(c, rs[i].key) := sh];
    forall q | 0 <= q < PARTITIONS ensures ShapeRecords(next[q]) == Routed(c, rs[..i + 1], q) {
      RoutedMore(c, rs, i, q);
    }
  }

  ghost function FinishShape(c: Codec, sh: Shape): Option<Shape>
  {
    match FlushShape(c, sh)
    case None => None
    case Some(flushed) => CloseShape(c, flushed)
  }

  /** Flush the open page and close the open leaf of one partition. */
  method Finish(c: Codec, part: Part, objects: seq<Bytes>, ghost shard: nat, ghost sh: Shape)
    returns (r: Result<Part>, out: seq<Bytes>, ghost next: Shape)
    requires PartOk(c, shard, part, sh, objects)
    ensures objects <= out
    ensures r.Ok? <==> FinishShape(c, sh).Some?
    ensures r.Ok? ==> && PartOk(c, shard, r.value, next, out) && next.page == [] && next.leaf == []
                      && next == FinishShape(c, sh).value && ShapeRecords(next) == ShapeRecords(sh)
    ensures r.Ok? ==> Extends(c, sh, next, objects, out)
  {
    hide ShapeRecords, RecordsOk, Emitted, PageFits, LeavesDone, EncodeRecords, AppendShape, Extends, IndexSize;
    out, next := objects, sh;
    ExtendsNone(c, sh, objects);
    var open := part;
    if part.count != 0 {
      var flushed;
      flushed, out, next := FlushPage(c, part, objects, shard, sh);
      if flushed.Err? {
        return Err, out, next;
      }
      open := flushed.value;
    }
    if open.leaf == [] {
      return Ok(open), out, next;
    }
    var closed, more := EmitLeaf(c, open, out, shard, next);
    CloseLeafRecords(next);
    if closed.Ok? { ExtendsTwice(c, sh, next, CloseLeaf(next), objects, out, more); }
    out, next := more, CloseLeaf(next);
    return closed, out, next;
  }

  ghost predicate Closed(sh: Shape)
  {
    sh.page == [] && sh.leaf == []
  }

  method FinishAll(c: Codec, open: seq<Part>, objects: seq<Bytes>, ghost records: seq<Record>, ghost begun: seq<Shape>)
    returns (ok: bool, parts: seq<Part>, out: seq<Bytes>, ghost shapes: seq<Shape>)
    requires AllOk(c, open, begun, objects) && AllRouted(c, records, begun) && AllFrom(c, begun, objects)
    ensures ok <==> forall p :: 0 <= p < PARTITIONS ==> FinishShape(c, begun[p]).Some?
    ensures ok ==> && AllOk(c, parts, shapes, out) && AllRouted(c, records, shapes)
                   && forall p :: 0 <= p < PARTITIONS ==>
                        Closed(shapes[p]) && shapes[p] == FinishShape(c, begun[p]).value
    ensures ok ==> AllFrom(c, shapes, out)
  {
    hide PartOk, ShapeRecords, Routed, FinishShape, Extends, ShapeObject;
    parts, out, shapes := open, objects, begun;
    for p := 0 to PARTITIONS
      invariant AllOk(c, parts, shapes, out) && AllRouted(c, records, shapes)
      invariant forall q :: 0 <= q < p ==> FinishShape(c, begun[q]) == Some(shapes[q]) && Closed(shapes[q])
      invariant forall q :: p <= q < PARTITIONS ==> shapes[q] == begun[q]
      invariant AllFrom(c, shapes, out)
    {
      var done, more, sh := Finish(c, parts[p], out, p, shapes[p]);
      if done.Err? {
        return false, parts, out, shapes;
      }
      ReplacePart(c, parts, shapes, out, more, p, done.value, sh);
      FromMore(c, shapes, out, more, p, sh);
      parts, shapes, out := parts[p := done.value], shapes[p := sh], more;
    }
    return true, parts, out, shapes;
  }

  // ---------------------------------------------------------------- the root

  /** A finished partition is a well-formed tree whose objects are out, once its internal root is. */
  ghost predicate TreeOut(c: Codec, shard: nat, tree: Tree, objects: seq<Bytes>)
  {
    TreeOk(c, shard, tree) && forall o :: TreeObject(c, tree, o) ==> o in objects
  }

  lemma FinishedTree(c: Codec, shard: nat, part: Part, sh: Shape, objects: seq<Bytes>)
    requires PartOk(c, shard, part, sh, objects) && Closed(sh)
    requires |part.parents| > 1 ==> InternalObject(c, sh.done) in objects
    ensures TreeOut(c, shard, sh.done, objects) && TreeRecords(sh.done) == ShapeRecords(sh)
  {
    hide PageObject, LeafObject, Sorted, RecordOk, LeafFits, IndexSize, EncodeIndex, TreeRecords;
    FlattenNil<Record>();
    SizeIsIndex(INTERNAL_MAGIC, part.parents);
    assert ShapeRecords(sh) == TreeRecords(sh.done);
    assert InternalObject(c, sh.done) == EncodeIndex(INTERNAL_MAGIC, part.parents);
    assert TreeOk(c, shard, sh.done);
    forall o | TreeObject(c, sh.done, o) ensures o in objects {
      TreeObjectOut(c, sh, objects, o);
    }
  }

  lemma TreeObjectOut(c: Codec, sh: Shape, objects: seq<Bytes>, o: Bytes)
    requires Emitted(c, sh, objects) && TreeObject(c, sh.done, o)
    requires |sh.done| > 1 ==> InternalObject(c, sh.done) in objects
    ensures o in objects
  {
    hide PageObject, LeafObject, InternalObject;
    if i :| 0 <= i < |sh.done| && o == LeafObject(c, sh.done[i]) {
      assert LeafEmitted(c, sh.done[i], objects);
    } else if i, j :| 0 <= i < |sh.done| && 0 <= j < |sh.done[i]| && o == PageObject(c, sh.done[i][j]) {
      assert LeafEmitted(c, sh.done[i], objects);
    }
  }

  lemma TreeOutMore(c: Codec, shard: nat, tree: Tree, objects: seq<Bytes>, out: seq<Bytes>)
    requires TreeOut(c, shard, tree, objects) && objects <= out
    ensures TreeOut(c, shard, tree, out)
  {
    hide TreeOk, TreeObject;
    assert forall o :: o in objects ==> o in out;
  }

  /** What a successful build has written: exactly the objects of `trees` and the root over them, for `records`. */
  ghost predicate Built(c: Codec, records: seq<Record>, root: Ref, objects: seq<Bytes>, trees: seq<Tree>)
  {
    && KeysOk(records) && |trees| == PARTITIONS
    && (forall p :: 0 <= p < PARTITIONS ==> TreeOut(c, p, trees[p], objects))
    && (forall p :: 0 <= p < PARTITIONS ==> TreeRecords(trees[p]) == Routed(c, records, p))
    && objects != [] && objects[|objects| - 1] == EncodeRoot(Indexes(c, trees))
    && AllOf(c, trees, objects[..|objects| - 1])
    && root == RefOf(c, EncodeRoot(Indexes(c, trees)))
  }

  function Indexes(c: Codec, trees: seq<Tree>): (refs: seq<Ref>)
    ensures |refs| == |trees| && forall p :: 0 <= p < |trees| ==> refs[p] == TreeRef(c, trees[p])
  {
    seq(|trees|, p requires 0 <= p < |trees| => TreeRef(c, trees[p]))
  }

  /** Emit the internal roots that are needed and collect the references of the run root. */
  method EmitRoots(c: Codec, parts: seq<Part>, objects: seq<Bytes>, ghost shapes: seq<Shape>)
    returns (ok: bool, refs: seq<Ref>, out: seq<Bytes>, ghost trees: seq<Tree>)
    requires AllOk(c, parts, shapes, objects) && forall p :: 0 <= p < PARTITIONS ==> Closed(shapes[p])
    requires AllFrom(c, shapes, objects)
    ensures ok && |trees| == PARTITIONS && refs == Indexes(c, trees)
    ensures forall p :: 0 <= p < PARTITIONS ==> TreeOut(c, p, trees[p], out)
    ensures forall p :: 0 <= p < PARTITIONS ==>
              TreeRecords(trees[p]) == ShapeRecords(shapes[p]) && trees[p] == shapes[p].done
    ensures AllOf(c, trees, out)
  {
    hide PartOk, ShapeRecords, TreeOut, TreeRecords, TreeRef, IndexSize, EncodeIndex, Closed, RefOf, InternalObject;
    hide AllFrom, TreeObject;
    refs, out, trees := [], objects, [];
    for p := 0 to PARTITIONS
      invariant |refs| == |trees| == p && objects <= out
      invariant forall q :: 0 <= q < p ==> refs[q] == TreeRef(c, trees[q]) && TreeOut(c, q, trees[q], out)
      invariant forall q :: 0 <= q < p ==>
                  TreeRecords(trees[q]) == ShapeRecords(shapes[q]) && trees[q] == shapes[q].done
      invariant forall o :: o in out ==> o in objects || exists q :: 0 <= q < p && TreeObject(c, shapes[q].done, o)
    {
      ghost var before := out;
      var entries := parts[p].parents;
      ParentsFit(c, p, parts[p], shapes[p], objects);
      var ref := DEFAULT_REF;
      if |entries| == 1 {
        ref := entries[0].data;
      } else if entries != [] {
        if IndexSize(entries) > MAX_INDEX {
          return false, refs, out, trees;
        }
        var bytes := EncodeIndex(INTERNAL_MAGIC, entries);
        ref := RefOf(c, bytes);
        out := out + [bytes];
      }
      PartOkMore(c, p, parts[p], shapes[p], objects, out);
      FinishedRef(c, p, parts[p], shapes[p], out);
      FinishedTree(c, p, parts[p], shapes[p], out);
      InternalOwned(c, shapes[p].done);
      forall q | 0 <= q < p ensures TreeOut(c, q, trees[q], out) {
        TreeOutMore(c, q, trees[q], before, out);
      }
      refs, trees := refs + [ref], trees + [shapes[p].done];
    }
    assert refs == Indexes(c, trees);
    OutOf(c, shapes, trees, objects, out);
    return true, refs, out, trees;
  }

  lemma InternalOwned(c: Codec, tree: Tree)
    ensures |tree| > 1 ==> TreeObject(c, tree, InternalObject(c, tree))
  {
  }

  /** Everything emitted is an object of one of the trees. */
  ghost predicate AllOf(c: Codec, trees: seq<Tree>, objects: seq<Bytes>)
  {
    forall o :: o in objects ==> exists p :: 0 <= p < |trees| && TreeObject(c, trees[p], o)
  }

  lemma ClosedObject(c: Codec, sh: Shape, o: Bytes)
    requires Closed(sh) && ShapeObject(c, sh, o)
    ensures TreeObject(c, sh.done, o)
  {
    hide PageObject, LeafObject, InternalObject;
    var i :| 0 <= i < |sh.done| && IsOf(c, sh.done[i], o);
  }

  lemma OutOf(c: Codec, shapes: seq<Shape>, trees: seq<Tree>, objects: seq<Bytes>, out: seq<Bytes>)
    requires AllFrom(c, shapes, objects) && |shapes| == |trees| == PARTITIONS
    requires forall p :: 0 <= p < PARTITIONS ==> Closed(shapes[p]) && trees[p] == shapes[p].done
    requires forall o :: o in out ==>
               o in objects || exists q :: 0 <= q < PARTITIONS && TreeObject(c, shapes[q].done, o)
    ensures AllOf(c, trees, out)
  {
    hide TreeObject, ShapeObject, Closed;
    forall o | o in out ensures exists p :: 0 <= p < |trees| && TreeObject(c, trees[p], o) {
      if o in objects {
        var p :| 0 <= p < |shapes| && ShapeObject(c, shapes[p], o);
        ClosedObject(c, shapes[p], o);
        assert TreeObject(c, trees[p], o);
      } else {
        var q :| 0 <= q < PARTITIONS && TreeObject(c, shapes[q].done, o);
        assert TreeObject(c, trees[q], o);
      }
    }
  }

  lemma ParentsFit(c: Codec, shard: nat, part: Part, sh: Shape, objects: seq<Bytes>)
    requires PartOk(c, shard, part, sh, objects)
    ensures IndexSize(part.parents) <= MAX_INDEX
  {
  }

  /** The reference the builder chooses is the reference of the partition's root object. */
  lemma FinishedRef(c: Codec, shard: nat, part: Part, sh: Shape, objects: seq<Bytes>)
    requires PartOk(c, shard, part, sh, objects)
    ensures part.parents == Parents(c, sh.done)
    ensures InternalObject(c, sh.done) == EncodeIndex(INTERNAL_MAGIC, part.parents)
    ensures TreeRef(c, sh.done)
            == (if part.parents == [] then DEFAULT_REF
                else if |part.parents| == 1 then part.parents[0].data
                else RefOf(c, EncodeIndex(INTERNAL_MAGIC, part.parents)))
  {
    hide LeafObject, PageObject, IndexSize;
  }

  /** Every record, page, leaf and parent index stays within its bound. */
  ghost predicate Bounded(c: Codec, records: seq<Record>)
  {
    && Plan(c, records).Some?
    && forall p :: 0 <= p < PARTITIONS ==> FinishShape(c, Plan(c, records).value[p]).Some?
  }

  /** The trees that the records are laid out in: page by page and leaf by leaf in the order they come. */
  ghost function Layout(c: Codec, records: seq<Record>): (trees: seq<Tree>)
    requires Bounded(c, records)
    ensures |trees| == PARTITIONS
  {
    var shapes := Plan(c, records).value;
    seq(PARTITIONS, p requires 0 <= p < PARTITIONS => FinishShape(c, shapes[p]).value.done)
  }

  // ---------------------------------------------------------------- small inputs

  lemma {:induction false} RoutedSize(c: Codec, rs: seq<Record>, p: nat)
    ensures |EncodeRecords(Routed(c, rs, p))| <= |EncodeRecords(rs)|
  {
    hide EncodeRecord, Partition;
    if rs != [] {
      var front, last := rs[..|rs| - 1], rs[|rs| - 1];
      RoutedSize(c, front, p);
      EncodeMore(Routed(c, front, p), last);
    }
  }

  /** While everything fits one page, adding only fills the open pages. */
  lemma {:induction false} SmallPlan(c: Codec, rs: seq<Record>)
    requires 9 + |EncodeRecords(rs)| <= MAX_PAGE
    ensures Plan(c, rs).Some?
    ensures forall p :: 0 <= p < PARTITIONS ==> Plan(c, rs).value[p] == Shape([], [], Routed(c, rs, p))
  {
    hide EncodeRecord, Partition, FlushShape;
    if rs != [] {
      var front, last := rs[..|rs| - 1], rs[|rs| - 1];
      SmallPlan(c, front);
      RoutedSize(c, front, Partition(c, last.key));
    }
  }

  lemma SmallFinish(c: Codec, page: seq<Record>)
    requires page != [] ==> |PageObject(c, page)| <= MAX_PAGE && |page[0].key| + 57 <= MAX_INDEX
    ensures FinishShape(c, Shape([], [], page)).Some?
  {
    hide PageObject, LeafObject;
    if page != [] {
      var leaf: Leaf := [page];
      assert [] + [page] == leaf && [] + [leaf] == [leaf];
      OneEntry(Fences(c, leaf));
      OneEntry(Parents(c, [leaf]));
    }
  }

  lemma OneEntry(fs: seq<Fence>)
    requires |fs| == 1
    ensures IndexSize(fs) == 57 + |fs[0].key|
  {
    assert fs[..0] == [];
  }

  /** Records that fit one page together are never refused, if pages compress within the page bound. */
  lemma SmallInputBounded(c: Codec, records: seq<Record>)
    requires 9 + |EncodeRecords(records)| <= MAX_PAGE
    requires forall r :: r in records ==> |r.key| + 57 <= MAX_INDEX
    requires forall p :: 0 <= p < PARTITIONS && Routed(c, records, p) != [] ==>
               |PageObject(c, Routed(c, records, p))| <= MAX_PAGE
    ensures Bounded(c, records)
  {
    hide PageObject, Plan, EncodeRecords, FinishShape;
    SmallPlan(c, records);
    forall p | 0 <= p < PARTITIONS ensures FinishShape(c, Plan(c, records).value[p]).Some? {
      var page := Routed(c, records, p);
      if page != [] { assert page[0] in page && page[0] in records; }
      SmallFinish(c, page);
    }
  }

  /**
   Build a run. It succeeds exactly when the input is strictly sorted with nonempty keys
   and nothing exceeds its bound; what it emitted is then a root over one well-formed tree
   per partition that holds exactly the input.
   */
  method Build(c: Codec, records: seq<Record>)
    returns (r: Result<Ref>, objects: seq<Bytes>, ghost trees: seq<Tree>)
    ensures r.Ok? <==> KeysOk(records) && Bounded(c, records)
    ensures r.Ok? ==> Built(c, records, r.value, objects, trees) && trees == Layout(c, records)
  {
    hide TreeOut, TreeRecords, Routed, AllOk, EncodeRoot, TreeRef, Closed, Plan, FinishShape, ShapeRecords;
    hide AllFrom, AllOf;
    objects, trees := [], [];
    var added, open, first, begun := AddAll(c, records);
    if !added {
      return Err, objects, trees;
    }
    var finished, parts, second, shapes := FinishAll(c, open, first, records, begun);
    if !finished {
      return Err, objects, trees;
    }
    var ok, refs, third, done := EmitRoots(c, parts, second, shapes);
    if !ok {
      return Err, objects, trees;
    }
    var root := EncodeRoot(refs);
    objects, trees := third + [root], done;
    forall p | 0 <= p < PARTITIONS ensures TreeOut(c, p, trees[p], objects) {
      TreeOutMore(c, p, trees[p], third, objects);
    }
    assert trees == Layout(c, records) && objects[..|objects| - 1] == third;
    return Ok(RefOf(c, root)), objects, trees;
  }

  // ---------------------------------------------------------------- what a reader sees

  /** The hash separates the objects of the run and maps none of them to zero. */
  ghost predicate AllClean(c: Codec, trees: seq<Tree>)
  {
    forall p :: 0 <= p < |trees| ==> Clean(c, trees[p])
  }

  /** The emitted root decodes to a directory of the trees that were built. */
  lemma BuiltRepresents(c: Codec, records: seq<Record>, root: Ref, objects: seq<Bytes>, trees: seq<Tree>)
    requires Built(c, records, root, objects, trees) && Lossless(c) && AllClean(c, trees)
    ensures Represents(c, Indexes(c, trees), trees)
    ensures IsRoot(EncodeRoot(Indexes(c, trees)), Indexes(c, trees))
    ensures Matches(c, root, EncodeRoot(Indexes(c, trees)))
  {
    hide TreeRecords, Routed, TreeRef, EncodeRefs, Sorted, TreeObject;
    var refs := Indexes(c, trees);
    forall p | 0 <= p < PARTITIONS ensures Roots(c, p, refs[p], trees[p]) && RootRefOk(refs[p]) {
      assert TreeOut(c, p, trees[p], objects);
      if trees[p] != [] { RootVerified(c, p, refs[p], trees[p], []); } else { EmptyRef(c); }
    }
  }

  lemma EmptyRef(c: Codec)
    ensures TreeRef(c, []) == DEFAULT_REF
  {
  }

  /** Searching the partition of a key answers for the whole input of the build. */
  lemma BuiltAnswer(c: Codec, records: seq<Record>, root: Ref, objects: seq<Bytes>, trees: seq<Tree>, key: Bytes,
                    block: int)
    requires Built(c, records, root, objects, trees)
    ensures IsAnswer(Contents(records), key, block, Search(TreeRecords(trees[Partition(c, key)]), key, block))
  {
    hide EncodeRoot, Search, IsAnswer, Sorted;
    var p := Partition(c, key);
    assert TreeOut(c, p, trees[p], objects);
    SearchIsAnswer(TreeRecords(trees[p]), key, block);
    RoutedAnswer(c, records, key, block, Search(TreeRecords(trees[p]), key, block));
  }

  lemma SameObject(c: Codec, ref: Ref, o: Bytes, bytes: Bytes)
    requires Matches(c, ref, o) && Matches(c, ref, bytes) && CleanObject(c, o)
    ensures bytes == o
  {
  }

  /**
   Build, decode the root and look up: with at most three fetches, whatever they return,
   an answer is the newest visible version in the input; an honest store always answers.
   */
  method OpenAndLookup(c: Codec, root: Ref, rootBytes: Bytes, key: Bytes, block: U64, fetch: Fetch,
                       ghost records: seq<Record>, ghost objects: seq<Bytes>, ghost trees: seq<Tree>)
    returns (r: Result<Option<Bytes>>, asked: seq<Ref>)
    requires Built(c, records, root, objects, trees) && Lossless(c) && AllClean(c, trees)
    requires CleanObject(c, EncodeRoot(Indexes(c, trees)))
    ensures |asked| <= 3
    ensures r.Ok? ==> IsAnswer(Contents(records), key, block, r.value)
    ensures rootBytes == EncodeRoot(Indexes(c, trees)) && AllHonest(c, trees, fetch) ==> r.Ok?
  {
    hide Built, Represents, IsRoot, EncodeRoot, AllClean, IsAnswer, CleanObject, Matches, AllHonest, Search, Partition;
    BuiltRepresents(c, records, root, objects, trees);
    BuiltAnswer(c, records, root, objects, trees, key, block);
    var directory := DecodeRoot(c, root, rootBytes);
    if directory.Err? {
      return Err, [];
    }
    SameObject(c, root, EncodeRoot(Indexes(c, trees)), rootBytes);
    r, asked := Lookup(c, directory.value, key, block, fetch, trees);
  }
}
