/**
 Merging stored runs: their pages are listed by a walk, one read-ahead serves all their
 scanners, and the merge takes records from whichever scanner is smallest. The result is
 the sorted union of what the runs were built from, and after every record each list of
 the read-ahead obeys its window.
 */
module RunMerge {
  import opened Bytes
  import opened Versions
  import opened RunFormat
  import opened FenceIndex
  import opened RunTree
  import opened RunReader
  import opened RunBuilder
  import opened ReadAhead
  import opened RunScanner
  import opened RunWalk
  import opened PageLists
  import Merge
  import RunWriter
  import Views

  /** What a stored run was built from, the trees it became, and everything emitted for it. */
  datatype Input = Input(records: seq<Record>, trees: seq<Tree>, objects: seq<Bytes>)

  /** The directory of a run stands for its input. */
  ghost predicate Stands(c: Codec, indexes: seq<Ref>, run: Input)
  {
    && Represents(c, indexes, run.trees) && Sorted(run.records)
    && forall p :: 0 <= p < PARTITIONS ==> TreeRecords(run.trees[p]) == Routed(c, run.records, p)
  }

  ghost predicate AllStand(c: Codec, directories: seq<seq<Ref>>, runs: seq<Input>)
  {
    |directories| == |runs| && forall k :: 0 <= k < |runs| ==> Stands(c, directories[k], runs[k])
  }

  function Records(runs: seq<Input>): (rs: seq<seq<Record>>)
    ensures |rs| == |runs| && forall k :: 0 <= k < |runs| ==> rs[k] == runs[k].records
  {
    seq(|runs|, k requires 0 <= k < |runs| => runs[k].records)
  }

  // ---------------------------------------------------------------- the store

  type Storage = (nat, Ref) -> Option<Bytes>

  /** Read one object and verify it. */
  function Verified(c: Codec, store: Storage, asked: seq<Ref>, ref: Ref): Option<Bytes>
  {
    if !RefOk(ref, MAX_PAGE) then None
    else
      match store(|asked|, ref)
      case None => None
      case Some(bytes) => if Matches(c, ref, bytes) then Some(bytes) else None
  }

  /** The store holds every object of the run and always returns it. */
  ghost predicate Holds(c: Codec, store: Storage, trees: seq<Tree>)
  {
    forall t, p, o :: 0 <= p < |trees| && TreeObject(c, trees[p], o) ==> store(t, RefOf(c, o)) == Some(o)
  }

  ghost predicate AllHold(c: Codec, store: Storage, runs: seq<Input>)
  {
    forall k :: 0 <= k < |runs| ==> Holds(c, store, runs[k].trees)
  }

  // ---------------------------------------------------------------- the page lists

  /** The partitions of all runs, one after the other. */
  function Flat(runs: seq<Input>): (trees: seq<Tree>)
    requires forall k :: 0 <= k < |runs| ==> |runs[k].trees| == PARTITIONS
    ensures |trees| == PARTITIONS * |runs|
    ensures forall k, p :: 0 <= k < |runs| && 0 <= p < PARTITIONS ==> trees[PARTITIONS * k + p] == runs[k].trees[p]
  {
    if runs == [] then [] else Flat(runs[..|runs| - 1]) + runs[|runs| - 1].trees
  }

  lemma Locate(l: nat, n: nat) returns (k: nat, p: nat)
    requires l < PARTITIONS * n
    ensures k < n && p < PARTITIONS && l == PARTITIONS * k + p && l % PARTITIONS == p
  {
    k, p := l / PARTITIONS, l % PARTITIONS;
  }

  lemma Sixteen(c: Codec, directories: seq<seq<Ref>>, runs: seq<Input>)
    requires AllStand(c, directories, runs)
    ensures forall k :: 0 <= k < |runs| ==> |runs[k].trees| == |directories[k]| == PARTITIONS
  {
    hide TreeRecords, Routed, Sorted, Roots;
    forall k | 0 <= k < |runs| ensures |runs[k].trees| == |directories[k]| == PARTITIONS {
      assert Stands(c, directories[k], runs[k]);
    }
  }

  /** Partitions of one run share no version, since each key is routed to one of them. */
  lemma RoutedUnshared(c: Codec, run: Input, p: nat, q: nat)
    requires p < PARTITIONS && q < PARTITIONS && p != q && |run.trees| == PARTITIONS
    requires forall i :: 0 <= i < PARTITIONS ==> TreeRecords(run.trees[i]) == Routed(c, run.records, i)
    ensures Unshared(run.trees[p], run.trees[q])
  {
    hide TreeRecords, Partition;
  }

  /** Runs without a common version share none in any partition. */
  lemma RunsUnshared(c: Codec, a: Input, b: Input, p: nat, q: nat)
    requires p < PARTITIONS && q < PARTITIONS && |a.trees| == |b.trees| == PARTITIONS
    requires Merge.Apart(a.records, b.records)
    requires forall i :: 0 <= i < PARTITIONS ==> TreeRecords(a.trees[i]) == Routed(c, a.records, i)
    requires forall i :: 0 <= i < PARTITIONS ==> TreeRecords(b.trees[i]) == Routed(c, b.records, i)
    ensures Unshared(a.trees[p], b.trees[q])
  {
    hide TreeRecords, Partition;
  }

  lemma FlatUnshared(c: Codec, directories: seq<seq<Ref>>, runs: seq<Input>)
    requires AllStand(c, directories, runs) && Merge.Disjoint(Records(runs))
    requires forall k :: 0 <= k < |runs| ==> |runs[k].trees| == PARTITIONS
    ensures AllUnshared(Flat(runs))
  {
    hide Stands, Unshared, Merge.Disjoint;
    var trees := Flat(runs);
    forall l, m | 0 <= l < m < |trees| ensures Unshared(trees[l], trees[m]) {
      var i, p := Locate(l, |runs|);
      var j, q := Locate(m, |runs|);
      PairUnshared(c, directories, runs, i, p, j, q);
    }
  }

  lemma PairUnshared(c: Codec, directories: seq<seq<Ref>>, runs: seq<Input>, i: nat, p: nat, j: nat, q: nat)
    requires AllStand(c, directories, runs) && Merge.Disjoint(Records(runs))
    requires forall k :: 0 <= k < |runs| ==> |runs[k].trees| == PARTITIONS
    requires i < |runs| && j < |runs| && p < PARTITIONS && q < PARTITIONS && (i < j || (i == j && p != q))
    ensures Unshared(runs[i].trees[p], runs[j].trees[q])
  {
    hide TreeRecords, Routed, Represents, Unshared, Merge.Apart, Sorted;
    assert Stands(c, directories[i], runs[i]) && Stands(c, directories[j], runs[j]);
    if i == j {
      RoutedUnshared(c, runs[i], p, q);
    } else {
      assert Merge.Apart(Records(runs)[i], Records(runs)[j]);
      RunsUnshared(c, runs[i], runs[j], p, q);
    }
  }

  /** The lists found by the walks are the page lists of the partitions. */
  lemma FlatListed(c: Codec, directories: seq<seq<Ref>>, runs: seq<Input>, lists: seq<seq<Ref>>)
    requires AllStand(c, directories, runs) && Lossless(c)
    requires forall k :: 0 <= k < |runs| ==> |runs[k].trees| == PARTITIONS
    requires |lists| == |Flat(runs)| && forall l :: 0 <= l < |lists| ==> lists[l] == TreePages(c, Flat(runs)[l])
    ensures Listed(c, Flat(runs), lists)
  {
    hide TreeRecords, Routed, TreePages, TreeOk, Clean, Lossless, Sorted, TreeRef;
    var trees := Flat(runs);
    forall l | 0 <= l < |trees| ensures TreeOk(c, l % PARTITIONS, trees[l]) && Clean(c, trees[l]) {
      var k, p := Locate(l, |runs|);
      assert Stands(c, directories[k], runs[k]);
      assert Roots(c, p, directories[k][p], runs[k].trees[p]);
    }
  }

  /** A store that holds a tree serves its walk. */
  lemma HeldServes(c: Codec, store: Storage, shard: nat, trees: seq<Tree>, p: nat, fetch: Fetch)
    requires Holds(c, store, trees) && p < |trees| && TreeOk(c, shard, trees[p]) && Clean(c, trees[p])
    requires forall asked, ref :: fetch(asked, ref) == Verified(c, store, asked, ref)
    ensures Serving(c, trees[p], fetch)
  {
    hide TreeOk, Clean, TreeObject, RefOf, Matches;
    forall asked, o | TreeObject(c, trees[p], o) ensures fetch(asked, RefOf(c, o)) == Some(o) {
      ObjectRead(c, shard, trees[p], o);
    }
  }

  lemma ObjectRead(c: Codec, shard: nat, tree: Tree, o: Bytes)
    requires TreeOk(c, shard, tree) && Clean(c, tree) && TreeObject(c, tree, o)
    ensures RefOk(RefOf(c, o), MAX_PAGE) && Matches(c, RefOf(c, o), o)
  {
    hide TreeOk, TreeObject;
    Views.ObjectFits(c, shard, tree, o);
    assert CleanObject(c, o);
  }

  /** The data pages of every partition of one run. */
  method DataPages(c: Codec, indexes: seq<Ref>, store: Storage, ghost run: Input) returns (r: Result<seq<seq<Ref>>>)
    requires Stands(c, indexes, run)
    ensures r.Ok? ==> |r.value| == PARTITIONS && forall p :: 0 <= p < PARTITIONS ==>
              r.value[p] == TreePages(c, run.trees[p])
    ensures Holds(c, store, run.trees) ==> r.Ok?
  {
    hide TreeRecords, Routed, TreePages, Sorted, Holds, Verified, Serving, TreeOk, Clean, TreeRef, IndexRefs, Lossless;
    var lists: seq<seq<Ref>> := [];
    var fetch: Fetch := (asked, ref) => Verified(c, store, asked, ref);
    for p := 0 to PARTITIONS
      invariant |lists| == p && forall q :: 0 <= q < p ==> lists[q] == TreePages(c, run.trees[q])
    {
      assert Roots(c, p, indexes[p], run.trees[p]);
      if Holds(c, store, run.trees) { HeldServes(c, store, p, run.trees, p, fetch); }
      var walked := WalkPartition(c, p, indexes[p], fetch, run.trees[p]);
      if walked.Err? {
        return Err;
      }
      lists := lists + [walked.value.1];
    }
    return Ok(lists);
  }

  lemma NoLists()
    ensures Flat([]) == []
  {
  }

  /** The page lists of a merge. */
  method ListPages(c: Codec, directories: seq<seq<Ref>>, store: Storage, ghost runs: seq<Input>)
    returns (r: Result<seq<seq<Ref>>>)
    requires AllStand(c, directories, runs) && forall k :: 0 <= k < |runs| ==> |runs[k].trees| == PARTITIONS
    ensures r.Ok? ==> |r.value| == |Flat(runs)| && forall l :: 0 <= l < |r.value| ==>
              r.value[l] == TreePages(c, Flat(runs)[l])
    ensures AllHold(c, store, runs) ==> r.Ok?
  {
    hide Stands, TreePages, Holds, Flat;
    NoLists();
    var lists: seq<seq<Ref>> := [];
    for k := 0 to |directories|
      invariant |lists| == PARTITIONS * k && forall l :: 0 <= l < |lists| ==>
                  lists[l] == TreePages(c, Flat(runs[..k])[l])
    {
      var pages := DataPages(c, directories[k], store, runs[k]);
      if pages.Err? {
        return Err;
      }
      ListsMore(c, runs, k, lists, pages.value);
      lists := lists + pages.value;
    }
    assert runs[..|directories|] == runs;
    return Ok(lists);
  }

  lemma ListsMore(c: Codec, runs: seq<Input>, k: nat, lists: seq<seq<Ref>>, pages: seq<seq<Ref>>)
    requires k < |runs| && forall i :: 0 <= i < |runs| ==> |runs[i].trees| == PARTITIONS
    requires |lists| == PARTITIONS * k && forall l :: 0 <= l < |lists| ==> lists[l] == TreePages(c, Flat(runs[..k])[l])
    requires |pages| == PARTITIONS && forall p :: 0 <= p < PARTITIONS ==> pages[p] == TreePages(c, runs[k].trees[p])
    ensures
      var all := lists + pages;
      |all| == PARTITIONS * (k + 1) && forall l :: 0 <= l < |all| ==> all[l] == TreePages(c, Flat(runs[..k + 1])[l])
  {
    hide TreePages;
    var front := runs[..k + 1];
    assert front[..k] == runs[..k] && front[k] == runs[k];
    assert Flat(front) == Flat(runs[..k]) + runs[k].trees;
  }

  // ---------------------------------------------------------------- scanners over one read-ahead

  /** One scanner per run, each over its own sixteen lists, with `rests` still to come. */
  ghost predicate Streaming(scanners: seq<Scanner>, ahead: Ahead, rests: seq<seq<Record>>)
    reads scanners, ahead
  {
    && |scanners| == |rests| && ahead.Valid()
    && (forall i, j :: 0 <= i < j < |scanners| ==> scanners[i] != scanners[j])
    && forall i :: 0 <= i < |scanners| ==>
         && scanners[i].Valid(ahead) && !scanners[i].failed
         && scanners[i].rest == rests[i] && scanners[i].base == PARTITIONS * i
  }

  ghost predicate AllServed(scanners: seq<Scanner>, ahead: Ahead)
    reads scanners
  {
    forall i :: 0 <= i < |scanners| ==> scanners[i].Served(ahead)
  }

  /** A scanner is not disturbed when another one takes pages of its own lists. */
  lemma TiedElsewhere(c: Codec, lists: seq<seq<Ref>>, before: seq<nat>, after: seq<nat>, i: nat, j: nat,
                      places: seq<Place>)
    requires AllTied(c, lists, before, PARTITIONS * j, places) && OnlyLists(before, after, PARTITIONS * i) && i != j
    ensures AllTied(c, lists, after, PARTITIONS * j, places)
  {
    hide Tied, IndexesApart;
    forall p | 0 <= p < PARTITIONS ensures Tied(c, lists, after, PARTITIONS * j + p, places[p]) {
      TiedSame(c, lists, before, after, PARTITIONS * j + p, places[p]);
    }
  }

  /** Take the next record of one scanner. */
  method PullFrom(scanners: seq<Scanner>, ahead: Ahead, i: nat, ghost rests: seq<seq<Record>>)
    returns (r: Result<Option<Record>>, ghost next: seq<seq<Record>>)
    requires Streaming(scanners, ahead, rests) && i < |scanners|
    modifies scanners[i], ahead`clock, ahead`ready, ahead`asked, ahead`history
    ensures Kept(ahead)
    ensures r.Ok? ==> next == rests[i := Merge.Pull(rests[i]).1] && r.value == Merge.Pull(rests[i]).0
    ensures r.Ok? ==> Streaming(scanners, ahead, next)
    ensures old(AllServed(scanners, ahead)) ==> r.Ok? && AllServed(scanners, ahead)
  {
    hide Holding, AllTied, ServesTree, DistinctPages, AllWindows, OnlyLists;
    ghost var asked := ahead.asked;
    next := rests;
    assert forall j :: 0 <= j < |scanners| && j != i ==> scanners[j] != scanners[i];
    r := scanners[i].Next(ahead);
    if r.Ok? {
      next := rests[i := Merge.Pull(rests[i]).1];
      forall j | 0 <= j < |scanners| && j != i ensures scanners[j].Valid(ahead) {
        TiedElsewhere(ahead.c, ahead.lists, asked, ahead.asked, i, j, scanners[j].places);
      }
    }
  }

  /** Take the first record of every scanner. */
  method FirstHeads(scanners: seq<Scanner>, ahead: Ahead, ghost inputs: seq<seq<Record>>)
    returns (ok: bool, heads: seq<Option<Record>>, ghost rests: seq<seq<Record>>)
    requires Streaming(scanners, ahead, inputs)
    modifies scanners, ahead`clock, ahead`ready, ahead`asked, ahead`history
    ensures Kept(ahead)
    ensures ok ==> Streaming(scanners, ahead, rests) && |heads| == |rests| == |inputs|
    ensures ok ==> forall k :: 0 <= k < |inputs| ==> (heads[k], rests[k]) == Merge.Pull(inputs[k])
    ensures old(AllServed(scanners, ahead)) ==> ok && AllServed(scanners, ahead)
  {
    hide Streaming, AllServed, Within, DistinctPages, Merge.Pull, Ahead.Valid;
    heads, rests := [], inputs;
    StreamingLength(scanners, ahead, inputs);
    for i := 0 to |scanners|
      invariant Streaming(scanners, ahead, rests) && Kept(ahead)
      invariant |heads| == i && |rests| == |inputs|
      invariant forall k :: 0 <= k < i ==> (heads[k], rests[k]) == Merge.Pull(inputs[k])
      invariant forall k :: i <= k < |inputs| ==> rests[k] == inputs[k]
      invariant old(AllServed(scanners, ahead)) ==> AllServed(scanners, ahead)
    {
      var head, next := PullFrom(scanners, ahead, i, rests);
      if head.Err? {
        return false, heads, rests;
      }
      heads, rests := heads + [head.value], next;
    }
    return true, heads, rests;
  }

  lemma StreamingLength(scanners: seq<Scanner>, ahead: Ahead, rests: seq<seq<Record>>)
    requires Streaming(scanners, ahead, rests)
    ensures |scanners| == |rests| && ahead.Valid()
  {
  }

  /**
   The producer of a merge: the smallest head is sent on and its scanner asked for the
   next record, until every scanner is exhausted or two heads hold one version. Every state
   the read-ahead goes through keeps the windows (`Kept`).
   */
  method MergeScanners(scanners: seq<Scanner>, ahead: Ahead, ghost inputs: seq<seq<Record>>)
    returns (merged: Result<seq<Record>>, keys: seq<Bytes>)
    requires Streaming(scanners, ahead, inputs) && Merge.AllSorted(inputs)
    modifies scanners, ahead`clock, ahead`ready, ahead`asked, ahead`history
    ensures Kept(ahead)
    ensures merged.Ok? ==> Merge.Disjoint(inputs) && merged.value == Merge.MergeAll(inputs)
    ensures merged.Ok? ==> keys == Merge.DistinctKeys(merged.value) && AllDrained(scanners, ahead)
    ensures old(AllServed(scanners, ahead)) ==> (merged.Ok? <==> Merge.Disjoint(inputs))
  {
    hide Streaming, AllServed, Within, DistinctPages, Merge.Pull, Merge.Running, Merge.Disjoint;
    hide Merge.MergeAll;
    hide Merge.DistinctKeys, Merge.Advance, Merge.Smallest;
    StreamingLength(scanners, ahead, inputs);
    var ok, heads, rests := FirstHeads(scanners, ahead, inputs);
    if !ok {
      return Err, [];
    }
    var out: seq<Record>, lastKey: Option<Bytes>, summary: seq<Bytes> := [], None, [];
    ghost var left := inputs;
    Started(inputs, heads, rests);
    while true
      invariant Streaming(scanners, ahead, rests) && Kept(ahead)
      invariant Merge.Running(inputs, left, Merge.Producer(heads, rests, out, summary, lastKey))
      invariant old(AllServed(scanners, ahead)) ==> AllServed(scanners, ahead)
      decreases Merge.Total(left)
    {
      ghost var p := Merge.Producer(heads, rests, out, summary, lastKey);
      var chosen := Merge.ChooseHead(heads);
      if chosen.Err? {
        Clashed(inputs, left, p);
        return Err, [];
      }
      if chosen.value.None? {
        break;
      }
      var index := chosen.value.value;
      Chosen(inputs, left, p, index);
      StreamingLength(scanners, ahead, rests);
      var record := heads[index].value;
      var head, next := PullFrom(scanners, ahead, index, rests);
      if head.Err? {
        return Err, [];
      }
      heads, rests, out := heads[index := head.value], next, out + [record];
      if lastKey != Some(record.key) {
        summary, lastKey := summary + [record.key], Some(record.key);
      }
      AdvancedTo(p, index, Merge.Producer(heads, rests, out, summary, lastKey));
      left := left[index := left[index][1..]];
    }
    Ended(inputs, left, Merge.Producer(heads, rests, out, summary, lastKey));
    EndsDrain(scanners, ahead, rests);
    return Ok(out), summary;
  }

  /** Every scanner has taken every page of its run. */
  ghost predicate AllDrained(scanners: seq<Scanner>, ahead: Ahead)
    reads ahead
  {
    forall i :: 0 <= i < |scanners| ==> Drained(ahead.lists, ahead.asked, PARTITIONS * i)
  }

  lemma EndsDrain(scanners: seq<Scanner>, ahead: Ahead, rests: seq<seq<Record>>)
    requires Streaming(scanners, ahead, rests) && forall i :: 0 <= i < |rests| ==> rests[i] == []
    ensures AllDrained(scanners, ahead)
  {
    hide Drained, Holding, AllTied, Ahead.Valid;
    forall i | 0 <= i < |scanners| ensures Drained(ahead.lists, ahead.asked, PARTITIONS * i) {
      var s := scanners[i];
      EndDrains(s.c, s.cursors, s.places, ahead.lists, ahead.asked, s.base);
    }
  }

  lemma Started(inputs: seq<seq<Record>>, heads: seq<Option<Record>>, rests: seq<seq<Record>>)
    requires Merge.AllSorted(inputs) && |heads| == |rests| == |inputs|
    requires forall k :: 0 <= k < |inputs| ==> (heads[k], rests[k]) == Merge.Pull(inputs[k])
    ensures Merge.Running(inputs, inputs, Merge.Producer(heads, rests, [], [], None))
  {
  }

  lemma Clashed(inputs: seq<seq<Record>>, left: seq<seq<Record>>, p: Merge.Producer)
    requires Merge.Running(inputs, left, p) && exists i: nat, j: nat :: Merge.Clash(p.heads, i, j)
    ensures !Merge.Disjoint(inputs)
  {
    hide Merge.Clash, Merge.Disjoint;
    Merge.DuplicateHeads(p.heads, p.streams, left);
  }

  lemma Chosen(inputs: seq<seq<Record>>, left: seq<seq<Record>>, p: Merge.Producer, index: nat)
    requires Merge.Running(inputs, left, p) && index < |p.heads| && p.heads[index].Some?
    requires forall i :: 0 <= i < |p.heads| && i != index && p.heads[i].Some?
               ==> Before(At(p.heads[index].value), At(p.heads[i].value))
    ensures Merge.Smallest(left, index) && index < |left| && left[index] != [] && |p.heads| == |p.streams|
    ensures
      var rest := left[index := left[index][1..]];
      Merge.Running(inputs, rest, Merge.Advance(p, index)) && Merge.Total(rest) < Merge.Total(left)
  {
    hide Merge.MergeState, Merge.DistinctKeys;
    assert Merge.Smallest(left, index);
    Merge.Advanced(inputs, left, p, index);
  }

  lemma AdvancedTo(p: Merge.Producer, index: nat, q: Merge.Producer)
    requires index < |p.heads| == |p.streams| && p.heads[index].Some?
    requires q.heads == p.heads[index := Merge.Pull(p.streams[index]).0]
    requires q.streams == p.streams[index := Merge.Pull(p.streams[index]).1]
    requires q.out == p.out + [p.heads[index].value] && q.lastKey == Some(p.heads[index].value.key)
    requires q.keys == if p.lastKey != q.lastKey then p.keys + [p.heads[index].value.key] else p.keys
    ensures q == Merge.Advance(p, index)
  {
  }

  lemma Ended(inputs: seq<seq<Record>>, left: seq<seq<Record>>, p: Merge.Producer)
    requires Merge.Running(inputs, left, p) && Merge.AllSorted(inputs) && forall i :: 0 <= i < |p.heads| ==>
               p.heads[i].None?
    ensures Merge.Disjoint(inputs) && p.out == Merge.MergeAll(inputs) && p.keys == Merge.DistinctKeys(p.out)
    ensures forall i :: 0 <= i < |p.streams| ==> p.streams[i] == []
  {
    hide Merge.MergeState, Merge.DistinctKeys, Merge.MergeAll, Merge.Disjoint;
    Merge.Finished(inputs, left, p.out);
  }

  // ---------------------------------------------------------------- opening and merging

  /** The read-ahead serves every run the store holds. */
  lemma HeldServesAll(c: Codec, directories: seq<seq<Ref>>, runs: seq<Input>, ahead: Ahead)
    requires AllStand(c, directories, runs) && AllHold(c, ahead.store, runs) && ahead.c == c
    requires forall k :: 0 <= k < |runs| ==> |runs[k].trees| == PARTITIONS
    requires |ahead.lists| == |Flat(runs)| && forall l :: 0 <= l < |ahead.lists| ==>
               ahead.lists[l] == TreePages(c, Flat(runs)[l])
    ensures forall k, p :: 0 <= k < |runs| && 0 <= p < PARTITIONS ==> ServesTree(c, ahead, runs[k].trees[p])
  {
    hide Stands, TreePages, TreeObject, Holds, Ahead.Serves;
    forall m, n | 0 <= m < |ahead.lists| && 0 <= n < |ahead.lists[m]| ensures ahead.Serves(ahead.lists[m][n]) {
      var k, p := Locate(m, |runs|);
      TreeServed(c, directories[k], runs[k], p, ahead);
      ListServed(c, directories[k], runs[k], p, ahead, n);
    }
    forall k, p | 0 <= k < |runs| && 0 <= p < PARTITIONS ensures ServesTree(c, ahead, runs[k].trees[p]) {
      TreeServed(c, directories[k], runs[k], p, ahead);
    }
  }

  lemma TreeServed(c: Codec, indexes: seq<Ref>, run: Input, p: nat, ahead: Ahead)
    requires Stands(c, indexes, run) && Holds(c, ahead.store, run.trees) && ahead.c == c && p < PARTITIONS
    ensures forall o :: TreeObject(c, run.trees[p], o) ==> ahead.Serves(RefOf(c, o))
  {
    hide TreeRecords, Routed, TreeOk, Clean, TreeObject, RefOf, Sorted;
    assert Roots(c, p, indexes[p], run.trees[p]);
    forall o | TreeObject(c, run.trees[p], o) ensures ahead.Serves(RefOf(c, o)) {
      ObjectRead(c, p, run.trees[p], o);
    }
  }

  lemma ListServed(c: Codec, indexes: seq<Ref>, run: Input, p: nat, ahead: Ahead, n: nat)
    requires Stands(c, indexes, run) && p < PARTITIONS == |run.trees| && n < |TreePages(c, run.trees[p])|
    requires forall o :: TreeObject(c, run.trees[p], o) ==> ahead.Serves(RefOf(c, o))
    ensures ahead.Serves(TreePages(c, run.trees[p])[n])
  {
    hide Stands, TreePages, TreeObject, Ahead.Serves;
    WalkSound(c, run.trees[p], TreePages(c, run.trees[p])[n]);
  }

  /** List the pages of the runs, and open one scanner on each. */
  method OpenRuns(c: Codec, directories: seq<seq<Ref>>, store: Storage, ghost runs: seq<Input>)
    returns (ok: bool, ahead: Ahead, scanners: seq<Scanner>)
    requires AllStand(c, directories, runs) && Lossless(c)
    ensures fresh(ahead) && forall i :: 0 <= i < |scanners| ==> fresh(scanners[i])
    ensures ok ==> Streaming(scanners, ahead, Records(runs)) && Within(ahead.lists, ahead.history)
    ensures ok ==> ListsPages(c, runs, ahead.lists)
    ensures ok && Merge.Disjoint(Records(runs)) ==> DistinctPages(ahead.lists)
    ensures AllHold(c, store, runs) ==> ok && AllServed(scanners, ahead)
  {
    hide Stands, AllWindows, DistinctPages, ServesTree, TreePages, AllHold, Streaming, Merge.Disjoint, AllUnshared;
    hide AllServed, Listed;
    Sixteen(c, directories, runs);
    scanners := [];
    var lists := ListPages(c, directories, store, runs);
    if lists.Err? {
      ahead := new Ahead(c, store, []);
      return false, ahead, [];
    }
    ahead := new Ahead(c, store, lists.value);
    FlatListed(c, directories, runs, lists.value);
    if Merge.Disjoint(Records(runs)) {
      FlatUnshared(c, directories, runs);
      ListsDistinct(c, Flat(runs), lists.value);
    }
    if AllHold(c, store, runs) { HeldServesAll(c, directories, runs, ahead); }
    scanners := OpenScanners(c, directories, ahead, runs);
    if AllHold(c, store, runs) { ScannersServed(c, directories, runs, ahead, scanners); }
    return true, ahead, scanners;
  }

  lemma ScannersServed(c: Codec, directories: seq<seq<Ref>>, runs: seq<Input>, ahead: Ahead, scanners: seq<Scanner>)
    requires forall k, p :: 0 <= k < |runs| && 0 <= p < PARTITIONS && p < |runs[k].trees| ==>
               ServesTree(c, ahead, runs[k].trees[p])
    requires OpenOn(c, scanners, runs) && forall k :: 0 <= k < |runs| ==> |runs[k].trees| == PARTITIONS
    ensures AllServed(scanners, ahead)
  {
    hide ServesTree;
    forall k | 0 <= k < |scanners| ensures scanners[k].Served(ahead) {
      forall p | 0 <= p < |scanners[k].places| ensures ServesTree(c, ahead, scanners[k].places[p].tree) {
        assert Trees(scanners[k].places)[p] == scanners[k].places[p].tree;
      }
    }
  }

  /** One scanner per run. */
  method OpenScanners(c: Codec, directories: seq<seq<Ref>>, ahead: Ahead, ghost runs: seq<Input>)
    returns (scanners: seq<Scanner>)
    requires AllStand(c, directories, runs) && forall k :: 0 <= k < |runs| ==> |runs[k].trees| == PARTITIONS
    requires ahead.Valid() && ahead.c == c && Listed(c, Flat(runs), ahead.lists)
    requires forall l :: 0 <= l < |ahead.lists| ==> ahead.asked[l] == 0
    ensures forall i :: 0 <= i < |scanners| ==> fresh(scanners[i])
    ensures Streaming(scanners, ahead, Records(runs)) && |scanners| == |runs|
    ensures OpenOn(c, scanners, runs)
  {
    hide Stands, IndexesApart, TreePages, Scanner.Valid, Streaming, Listed, Represents, TreeRecords, Routed, Sorted;
    hide OpenOn, Flat;
    scanners := [];
    NoScanners(c, ahead);
    for k := 0 to |directories|
      invariant |scanners| == k && Streaming(scanners, ahead, Records(runs[..k]))
      invariant forall i :: 0 <= i < |scanners| ==> fresh(scanners[i])
      invariant OpenOn(c, scanners, runs[..k])
    {
      AtRun(c, directories, runs, ahead.lists, k);
      var scanner := new Scanner(c, directories[k], ahead, PARTITIONS * k, runs[k].trees, runs[k].records);
      StreamingMore(scanners, ahead, Records(runs[..k]), scanner);
      OpenMore(c, scanners, runs, k, scanner);
      assert Records(runs[..k + 1]) == Records(runs[..k]) + [runs[k].records];
      scanners := scanners + [scanner];
    }
    assert runs[..|directories|] == runs;
  }

  /** Each scanner stands on the trees of its run. */
  ghost predicate OpenOn(c: Codec, scanners: seq<Scanner>, runs: seq<Input>)
    reads scanners
  {
    && |scanners| == |runs|
    && forall k :: 0 <= k < |scanners| ==> scanners[k].c == c && Trees(scanners[k].places) == runs[k].trees
  }

  lemma OpenMore(c: Codec, scanners: seq<Scanner>, runs: seq<Input>, k: nat, s: Scanner)
    requires k < |runs| && OpenOn(c, scanners, runs[..k]) && s.c == c && Trees(s.places) == runs[k].trees
    ensures OpenOn(c, scanners + [s], runs[..k + 1])
  {
  }

  lemma NoScanners(c: Codec, ahead: Ahead)
    requires ahead.Valid()
    ensures Streaming([], ahead, Records([])) && OpenOn(c, [], [])
  {
  }

  lemma StreamingMore(scanners: seq<Scanner>, ahead: Ahead, rests: seq<seq<Record>>, s: Scanner)
    requires Streaming(scanners, ahead, rests) && s !in scanners && s.Valid(ahead) && !s.failed
    requires s.base == PARTITIONS * |scanners|
    ensures Streaming(scanners + [s], ahead, rests + [s.rest])
  {
    hide Scanner.Valid;
  }

  lemma AtRun(c: Codec, directories: seq<seq<Ref>>, runs: seq<Input>, lists: seq<seq<Ref>>, k: nat)
    requires AllStand(c, directories, runs) && k < |runs|
    requires forall k :: 0 <= k < |runs| ==> |runs[k].trees| == PARTITIONS
    requires Listed(c, Flat(runs), lists)
    ensures Represents(c, directories[k], runs[k].trees) && Sorted(runs[k].records)
    ensures forall p :: 0 <= p < PARTITIONS ==> TreeRecords(runs[k].trees[p]) == Routed(c, runs[k].records, p)
    ensures PARTITIONS * k + PARTITIONS <= |lists|
    ensures forall p :: 0 <= p < PARTITIONS ==>
              lists[PARTITIONS * k + p] == TreePages(c, runs[k].trees[p]) && IndexesApart(c, lists, runs[k].trees[p])
  {
    hide TreeRecords, Routed, Sorted, Represents, TreeOk, Clean, TreePages, IndexesApart, Lossless;
    assert Stands(c, directories[k], runs[k]);
    forall p | 0 <= p < PARTITIONS
      ensures lists[PARTITIONS * k + p] == TreePages(c, runs[k].trees[p]) && IndexesApart(c, lists, runs[k].trees[p])
    {
      assert Flat(runs)[PARTITIONS * k + p] == runs[k].trees[p];
      ListsApart(c, Flat(runs), lists, PARTITIONS * k + p);
    }
  }

  // ---------------------------------------------------------------- runs by their roots

  /** The roots were emitted by the builder for these inputs, and the hash separates their objects. */
  ghost predicate AllBuilt(c: Codec, roots: seq<(Ref, Bytes)>, runs: seq<Input>)
  {
    && |roots| == |runs| && Lossless(c)
    && forall k :: 0 <= k < |runs| ==> IsBuilt(c, roots[k].0, runs[k])
  }

  ghost predicate IsBuilt(c: Codec, root: Ref, run: Input)
  {
    && Built(c, run.records, root, run.objects, run.trees) && AllClean(c, run.trees)
    && CleanObject(c, EncodeRoot(Indexes(c, run.trees)))
  }

  /** The bytes handed over with the roots are the root objects. */
  ghost predicate AllGenuine(c: Codec, roots: seq<(Ref, Bytes)>, runs: seq<Input>)
  {
    |roots| == |runs| && forall k :: 0 <= k < |runs| ==> roots[k].1 == EncodeRoot(Indexes(c, runs[k].trees))
  }

  lemma BuiltStands(c: Codec, root: Ref, run: Input)
    requires IsBuilt(c, root, run) && Lossless(c)
    ensures Stands(c, Indexes(c, run.trees), run) && IsRoot(EncodeRoot(Indexes(c, run.trees)), Indexes(c, run.trees))
    ensures Matches(c, root, EncodeRoot(Indexes(c, run.trees)))
  {
    hide TreeOut, EncodeRoot, TreeRecords, Routed, Represents, IsRoot, Lossless, AllClean, Matches;
    BuiltRepresents(c, run.records, root, run.objects, run.trees);
  }

  /** Decode the root of one run. */
  method OpenRoot(c: Codec, root: Ref, bytes: Bytes, ghost run: Input) returns (r: Result<seq<Ref>>)
    requires IsBuilt(c, root, run) && Lossless(c)
    ensures r.Ok? ==> Stands(c, r.value, run)
    ensures bytes == EncodeRoot(Indexes(c, run.trees)) ==> r.Ok?
  {
    hide Built, EncodeRoot, Stands, IsRoot, Lossless, AllClean, Matches, CleanObject;
    BuiltStands(c, root, run);
    r := DecodeRoot(c, root, bytes);
    if r.Ok? { SameObject(c, root, EncodeRoot(Indexes(c, run.trees)), bytes); }
  }

  method OpenRoots(c: Codec, roots: seq<(Ref, Bytes)>, ghost runs: seq<Input>) returns (r: Result<seq<seq<Ref>>>)
    requires AllBuilt(c, roots, runs)
    ensures r.Ok? ==> AllStand(c, r.value, runs)
    ensures AllGenuine(c, roots, runs) ==> r.Ok?
  {
    hide IsBuilt, Stands, EncodeRoot, Lossless;
    var directories: seq<seq<Ref>> := [];
    for k := 0 to |roots|
      invariant |directories| == k && forall j :: 0 <= j < k ==> Stands(c, directories[j], runs[j])
    {
      var directory := OpenRoot(c, roots[k].0, roots[k].1, runs[k]);
      if directory.Err? {
        return Err;
      }
      directories := directories + [directory.value];
    }
    return Ok(directories);
  }

  /** The read-ahead lists the data pages of the runs, partition by partition. */
  ghost predicate ListsPages(c: Codec, runs: seq<Input>, lists: seq<seq<Ref>>)
  {
    && (forall k :: 0 <= k < |runs| ==> |runs[k].trees| == PARTITIONS) && |lists| == PARTITIONS * |runs|
    && forall k, p :: 0 <= k < |runs| && 0 <= p < PARTITIONS ==>
         lists[PARTITIONS * k + p] == TreePages(c, runs[k].trees[p])
  }

  /**
   Merge stored runs. Whatever the store returns, a result is the sorted union of what the
   runs were built from; a store that holds them merges exactly runs without a common
   version; and for those no state of the read-ahead that was used exceeds its windows.
   */
  method MergeStored(c: Codec, roots: seq<(Ref, Bytes)>, store: Storage, ghost runs: seq<Input>)
    returns (merged: Result<seq<Record>>, keys: seq<Bytes>, used: Option<Ahead>)
    requires AllBuilt(c, roots, runs)
    ensures merged.Ok? ==> Merge.Disjoint(Records(runs)) && merged.value == Merge.MergeAll(Records(runs))
    ensures merged.Ok? ==> keys == Merge.DistinctKeys(merged.value) && used.Some?
    ensures AllGenuine(c, roots, runs) && AllHold(c, store, runs) ==> (merged.Ok? <==> Merge.Disjoint(Records(runs)))
    ensures used.Some? ==> fresh(used.value) && used.value.Valid() && ListsPages(c, runs, used.value.lists)
    ensures used.Some? && Merge.Disjoint(Records(runs)) ==> Within(used.value.lists, used.value.history)
    ensures merged.Ok? ==> AllTaken(used.value)
  {
    hide IsBuilt, AllStand, Streaming, AllServed, Within, DistinctPages, AllHold, AllGenuine, Lossless, ListsPages;
    hide AllDrained, AllTaken;
    hide Merge.Disjoint, Merge.MergeAll, Merge.DistinctKeys;
    var directories := OpenRoots(c, roots, runs);
    if directories.Err? {
      return Err, [], None;
    }
    var ok, ahead, scanners := OpenRuns(c, directories.value, store, runs);
    if !ok {
      return Err, [], None;
    }
    StandSorted(c, directories.value, runs);
    StreamingLength(scanners, ahead, Records(runs));
    merged, keys := MergeScanners(scanners, ahead, Records(runs));
    used := Some(ahead);
    if merged.Ok? { DrainedTaken(c, runs, scanners, ahead); }
  }

  /** Every listed page was taken through the read-ahead. */
  ghost predicate AllTaken(ahead: Ahead)
    reads ahead
  {
    |ahead.asked| == |ahead.lists| && forall l :: 0 <= l < |ahead.lists| ==> ahead.asked[l] == |ahead.lists[l]|
  }

  lemma DrainedTaken(c: Codec, runs: seq<Input>, scanners: seq<Scanner>, ahead: Ahead)
    requires ahead.Valid() && AllDrained(scanners, ahead) && |scanners| == |runs| && ListsPages(c, runs, ahead.lists)
    ensures AllTaken(ahead)
  {
    hide TreePages;
    forall l | 0 <= l < |ahead.lists| ensures ahead.asked[l] == |ahead.lists[l]| {
      assert Drained(ahead.lists, ahead.asked, PARTITIONS * (l / PARTITIONS));
    }
  }

  lemma StandSorted(c: Codec, directories: seq<seq<Ref>>, runs: seq<Input>)
    requires AllStand(c, directories, runs)
    ensures Merge.AllSorted(Records(runs))
  {
    hide Represents, TreeRecords, Routed, Sorted;
    forall k | 0 <= k < |runs| ensures Sorted(Records(runs)[k]) { assert Stands(c, directories[k], runs[k]); }
  }

  /** So at no moment of its life did more than seven pages of a list wait in memory. */
  lemma NeverMoreThanSeven(ahead: Ahead, w: Waiting, l: nat, ks: seq<nat>)
    requires Within(ahead.lists, ahead.history) && w in ahead.history && l < |ahead.lists|
    requires forall i :: 0 <= i < |ks| ==> ks[i] < |ahead.lists[l]| && ahead.lists[l][ks[i]].digest in w.ready
    requires forall i, j :: 0 <= i < j < |ks| ==> ks[i] < ks[j]
    ensures |ks| <= 7
  {
    hide WindowOf;
    assert AllWindows(ahead.lists, w.ready, w.asked);
    AtMostSeven(ahead.lists[l], w.ready, w.asked[l], ks);
  }

  /** Merge stored runs into one: refused exactly for a shared version or by the builder. */
  method Compact(c: Codec, roots: seq<(Ref, Bytes)>, expected: U64, store: Storage, ghost runs: seq<Input>)
    returns (r: Result<RunWriter.BuiltRun>, ghost b: Views.Backing)
    requires AllBuilt(c, roots, runs) && expected <= RunWriter.MAX_KEYS
    ensures r.Ok? ==> Merge.Disjoint(Records(runs))
    ensures r.Ok? ==> RunWriter.Written(c, Merge.MergeAll(Records(runs)), expected, r.value, b)
    ensures AllGenuine(c, roots, runs) && AllHold(c, store, runs) ==>
              (r.Ok? <==> && Merge.Disjoint(Records(runs)) && KeysOk(Merge.MergeAll(Records(runs)))
                          && RunBuilder.Bounded(c, Merge.MergeAll(Records(runs))))
  {
    hide AllBuilt, AllGenuine, AllHold, RunWriter.Written, KeysOk, RunBuilder.Bounded, Merge.Disjoint;
    hide Merge.MergeAll, Within, ListsPages;
    b := Views.Backing([], [], Views.Summary.Filter([], []), 0);
    var merged, keys, used := MergeStored(c, roots, store, runs);
    if merged.Err? {
      return Err, b;
    }
    r, b := RunWriter.Write(c, merged.value, keys, expected);
  }

  /** Build, then scan through the read-ahead: the input comes back in order, and no state exceeds the windows. */
  method ScanBuilt(c: Codec, root: Ref, rootBytes: Bytes, store: Storage, ghost run: Input)
    returns (r: Result<seq<Record>>, used: Option<Ahead>)
    requires IsBuilt(c, root, run) && Lossless(c)
    ensures r.Ok? ==> r.value == run.records && used.Some? && Within(used.value.lists, used.value.history)
    ensures used.Some? ==> fresh(used.value) && used.value.Valid() && ListsPages(c, [run], used.value.lists)
    ensures r.Ok? ==> AllTaken(used.value)
    ensures rootBytes == EncodeRoot(Indexes(c, run.trees)) && Holds(c, store, run.trees) ==> r.Ok?
  {
    hide IsBuilt, Stands, Within, DistinctPages, Lossless, EncodeRoot, ServesTree, Scanner.Valid, Holds, TreePages;
    hide ListsPages, Ahead.Valid;
    var directory := OpenRoot(c, root, rootBytes, run);
    if directory.Err? {
      return Err, None;
    }
    var ok, ahead, scanners := OpenRuns(c, [directory.value], store, [run]);
    if !ok {
      return Err, None;
    }
    assert Records([run]) == [run.records];
    assert Merge.Disjoint(Records([run]));
    var done, out := ScanAll(scanners[0], ahead);
    if done {
      assert AllDrained(scanners, ahead);
      DrainedTaken(c, [run], scanners, ahead);
    }
    return if done then Ok(out) else Err, if done then Some(ahead) else None;
  }
}
