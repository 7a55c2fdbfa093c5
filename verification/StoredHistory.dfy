/**
 From commits to stored bytes. Every commit of a history is carried out against a store of
 immutable objects: a publication writes its package as a run, a compaction merges the
 stored runs it replaces, byte by byte. Every head of the history then stands for stored
 runs, and a reader that opens it answers with the flat history.
 */
module StoredHistory {
  import opened Bytes
  import opened Versions
  import opened RunFormat
  import opened RunWriter
  import opened StoredRuns
  import opened Head
  import opened Ledger
  import opened History
  import opened Commits
  import Merge
  import RunBuilder
  import Summary
  import Views
  import G = GarbageCollection

  /** What is stored, and what was written for each run of the manifest. */
  datatype Stock = Stock(disk: Disk, catalog: map<Run, BuiltRun>)

  ghost predicate InStock(c: Codec, s: Stock, bs: map<Run, Views.Backing>)
  {
    && s.catalog.Keys == bs.Keys && Lossless(c)
    && forall run :: run in s.catalog ==> Kept(c, s.disk, run.records, s.catalog[run], bs[run])
  }

  ghost predicate Covers(s: Stock, head: Head)
  {
    forall run :: run in Runs(head) ==> run in s.catalog
  }

  // ---------------------------------------------------------------- the run a commit adds

  /** The runs a compaction of the head merges, oldest first. */
  function Merged(h: Head): seq<Run>
  {
    var c := CascadeOf(h.levels);
    if c.Lands? && c.target < MAX_LEVELS && |h.l0| >= L0_TRIGGER then Commits.Inputs(h, c.target) else []
  }

  /** The run that a commit on `previous` adds. */
  function Added(previous: Option<Head>, c: Commit): Run
  {
    match c
    case Appended(_, p) => NewRun(p)
    case Compacted(_) =>
      if previous.None? || Merged(previous.value) == [] || !CascadeOf(previous.value.levels).Lands?
      then Run(0, 0, 0, [])
      else MergedRun(Merged(previous.value), CascadeOf(previous.value.levels).weight)
  }

  /** The number of keys its summary is sized for: counted in a package, summed over the inputs of a merge. */
  function Expected(previous: Option<Head>, c: Commit): nat
  {
    match c
    case Appended(_, p) => |Merge.DistinctKeys(p.records)|
    case Compacted(_) => if previous.None? then 0 else KeyTotal(RecordsOf(Merged(previous.value)))
  }

  /** Every run of a new head is the one its commit adds or a run of the head before. */
  lemma CommitAdds(previous: Option<Head>, c: Commit, run: Run)
    requires Commits.Commits(previous, c) && run in Runs(c.head)
    requires previous.Some? ==> |previous.value.levels| <= MAX_LEVELS
    ensures run == Added(previous, c) || (previous.Some? && run in Runs(previous.value))
  {
    hide NewLevels, CascadeFrom, LevelRuns;
    if previous.Some? {
      G.CommitReusesRuns(previous.value, c, run);
    } else {
      EmptyLevels();
    }
  }

  lemma EmptyLevels()
    ensures LevelRuns([]) == []
  {
  }

  /** A compaction merges runs of its head that share no version. */
  lemma CompactionMerges(h: Head, c: Commit)
    requires Commits.Commits(Some(h), c) && c.Compacted? && |h.levels| <= MAX_LEVELS
    ensures Merged(h) != [] && CascadeOf(h.levels).Lands? && Merge.Disjoint(RecordsOf(Merged(h)))
    ensures Added(Some(h), c).records == Merge.MergeAll(RecordsOf(Merged(h)))
    ensures forall run :: run in Merged(h) ==> run in Runs(h)
  {
    hide CascadeFrom, LevelRuns, Merge.Disjoint, Merge.MergeAll, Adjacent;
    RunsAround(h, CascadeOf(h.levels).target);
  }

  // ---------------------------------------------------------------- one commit

  datatype Step = Done(stock: Stock) | Refused | Taken

  /** Put a written run in stock. */
  method Store(c: Codec, run: Run, built: BuiltRun, s: Stock, ghost bs: map<Run, Views.Backing>, ghost past: seq<Piece>,
               ghost w: Piece)
    returns (step: Step, ghost next: map<Run, Views.Backing>)
    requires InStock(c, s, bs) && Sourced(c, s.disk, past) && Whole(c, w)
    requires w.records == run.records && w.built == built
    ensures step == Taken <==> Repeats(past, w.records, w.expected)
    ensures step != Taken ==>
              && step.Done? && InStock(c, step.stock, next) && Sourced(c, step.stock.disk, past + [w])
              && step.stock.catalog == s.catalog[run := built] && next == bs[run := w.b]
  {
    hide Whole, Room, Grown, Lossless, InStore, OnlyAdds, Sourced, Repeats, Kept, InStock;
    next := bs;
    RoomIff(c, s.disk, past, w);
    var disk := Upload(c, s.disk, built);
    if disk.None? {
      return Taken, next;
    }
    next := bs[run := w.b];
    var after := Stock(disk.value, s.catalog[run := built]);
    SourcedMore(c, s.disk, after.disk, past, w);
    WholeKept(c, after.disk, w);
    StockMore(c, s, bs, after.disk, run, built, w.b);
    return Done(after), next;
  }

  lemma StockMore(c: Codec, s: Stock, bs: map<Run, Views.Backing>, disk: Disk, run: Run, built: BuiltRun,
                  b: Views.Backing)
    requires InStock(c, s, bs) && Grown(s.disk, disk) && Kept(c, disk, run.records, built, b)
    ensures InStock(c, Stock(disk, s.catalog[run := built]), bs[run := b])
  {
    hide Kept, Lossless, Grown;
    var catalog, more := s.catalog[run := built], bs[run := b];
    forall r | r in catalog ensures Kept(c, disk, r.records, catalog[r], more[r]) {
      if r != run { KeptMore(c, s.disk, disk, r.records, s.catalog[r], bs[r]); }
    }
  }

  lemma WholeKept(c: Codec, disk: Disk, w: Piece)
    requires Whole(c, w) && InStore(c, disk, w.built)
    ensures Kept(c, disk, w.records, w.built, w.b)
  {
    hide Written, Separates, Lossless, InStore;
  }

  /** The stored entries of some runs. */
  function Entries(s: Stock, runs: seq<Run>): (built: seq<BuiltRun>)
    requires forall run :: run in runs ==> run in s.catalog
    ensures |built| == |runs| && forall k :: 0 <= k < |runs| ==> built[k] == s.catalog[runs[k]]
  {
    seq(|runs|, k requires 0 <= k < |runs| => assert runs[k] in runs; s.catalog[runs[k]])
  }

  ghost function Backings(bs: map<Run, Views.Backing>, runs: seq<Run>): (backs: seq<Views.Backing>)
    requires forall run :: run in runs ==> run in bs
    ensures |backs| == |runs| && forall k :: 0 <= k < |runs| ==> backs[k] == bs[runs[k]]
  {
    seq(|runs|, k requires 0 <= k < |runs| => assert runs[k] in runs; bs[runs[k]])
  }

  lemma StockKept(c: Codec, s: Stock, bs: map<Run, Views.Backing>, runs: seq<Run>)
    requires InStock(c, s, bs) && forall run :: run in runs ==> run in s.catalog
    ensures AllKept(c, s.disk, RecordsOf(runs), Entries(s, runs), Backings(bs, runs))
  {
    hide Kept, Lossless;
    forall k | 0 <= k < |runs|
      ensures Kept(c, s.disk, RecordsOf(runs)[k], Entries(s, runs)[k], Backings(bs, runs)[k])
    {
      assert runs[k] in runs;
    }
  }

  /** Write the run of a commit: the package itself, or the stored runs it merges, from their bytes. */
  method WriteAdded(c: Codec, previous: Option<Head>, commit: Commit, s: Stock, ghost bs: map<Run, Views.Backing>)
    returns (r: Result<BuiltRun>, ghost b: Views.Backing)
    requires Commits.Commits(previous, commit) && InStock(c, s, bs)
    requires previous.Some? ==> Covers(s, previous.value) && |previous.value.levels| <= MAX_LEVELS
    ensures r.Ok? ==> Written(c, Added(previous, commit).records, Expected(previous, commit), r.value, b)
    ensures r.Err? <==> Unwritable(c, Added(previous, commit).records, Expected(previous, commit))
  {
    hide Written, Lossless, Kept, RunBuilder.KeysOk, RunBuilder.Bounded, Merge.Disjoint, Merge.MergeAll, NewLevels;
    hide AllKept, CascadeFrom, LevelRuns, Publishable, Merge.DistinctKeys, KeyTotal;
    b := Views.Backing([], [], Summary.Filter([], []), 0);
    match commit
    case Appended(_, p) =>
      if |Merge.DistinctKeys(p.records)| > MAX_KEYS {
        return Err, b;
      }
      r, b := WriteSorted(c, p.records);
    case Compacted(_) =>
      var runs := Merged(previous.value);
      CompactionMerges(previous.value, commit);
      StockKept(c, s, bs, runs);
      r, b := MergeKept(c, s.disk, Entries(s, runs), RecordsOf(runs), Backings(bs, runs));
  }

  /**
   Carry out one commit. It is refused exactly when its run cannot be written, and finds a
   name taken exactly when it repeats records that were stored with shards of another size;
   otherwise the new head is in stock.
   */
  method StoreCommit(c: Codec, previous: Option<Head>, commit: Commit, s: Stock, ghost bs: map<Run, Views.Backing>,
                     ghost past: seq<Piece>)
    returns (step: Step, ghost next: map<Run, Views.Backing>, ghost w: Piece)
    requires Commits.Commits(previous, commit) && InStock(c, s, bs) && Sourced(c, s.disk, past)
    requires Separates(c, Added(previous, commit).records)
    requires previous.Some? ==> Covers(s, previous.value) && |previous.value.levels| <= MAX_LEVELS
    ensures w.records == Added(previous, commit).records && w.expected == Expected(previous, commit)
    ensures step.Refused? <==> Unwritable(c, w.records, w.expected)
    ensures step.Taken? <==> !Unwritable(c, w.records, w.expected) && Repeats(past, w.records, w.expected)
    ensures step.Done? ==>
              && InStock(c, step.stock, next) && Covers(step.stock, commit.head)
              && Sourced(c, step.stock.disk, past + [w])
              && step.stock.catalog == s.catalog[Added(previous, commit) := w.built] && Whole(c, w)
              && next == bs[Added(previous, commit) := w.b]
  {
    hide Written, Separates, Kept, Commits.Commits, Added, Expected, Lossless, Unwritable, Runs, Sourced;
    hide Repeats;
    next := bs;
    var r, b := WriteAdded(c, previous, commit, s, bs);
    w := Piece(Added(previous, commit).records, Expected(previous, commit), BuiltRun(DEFAULT_REF, 0, 0, [], []), b);
    if r.Err? {
      return Refused, next, w;
    }
    w := w.(built := r.value);
    step, next := Store(c, Added(previous, commit), r.value, s, bs, past, w);
    if step.Done? {
      forall run | run in Runs(commit.head) ensures run in step.stock.catalog { CommitAdds(previous, commit, run); }
    }
  }

  // ---------------------------------------------------------------- a whole history

  function AddedAt(log: seq<Commit>, i: nat): Run
    requires i < |log|
  {
    Added(Current(log[..i]), log[i])
  }

  /** The hash separates the objects of every run the history adds. */
  ghost predicate AllSeparate(c: Codec, log: seq<Commit>)
  {
    Lossless(c) && forall i :: 0 <= i < |log| ==> Separates(c, AddedAt(log, i).records)
  }

  /** Every head of the first `n` commits is in stock. */
  ghost predicate AllCovered(s: Stock, log: seq<Commit>, n: nat)
  {
    n <= |log| && forall i :: 0 <= i < n ==> Covers(s, log[i].head)
  }

  datatype Outcome = Complete(stock: Stock) | RunRefused(at: nat) | NameTaken(at: nat)

  lemma NextCommit(log: seq<Commit>, i: nat)
    requires Log(log) && i < |log|
    ensures Commits.Commits(Current(log[..i]), log[i])
    ensures Current(log[..i]) == if i == 0 then None else Some(log[i - 1].head)
    ensures i > 0 ==> |log[i - 1].head.levels| <= MAX_LEVELS
  {
    hide Commits.Commits, HeadOk;
    LogPrefix(log, i + 1);
    var past := log[..i + 1];
    assert past[..i] == log[..i] && past[i] == log[i];
    if i > 0 {
      LogPrefix(log, i);
      LogHeadOk(log[..i]);
      FewLevels(log[i - 1].head, Packages(log[..i]));
    }
  }

  lemma FewLevels(h: Head, ps: seq<Package>)
    requires HeadOk(h, ps)
    ensures |h.levels| <= MAX_LEVELS
  {
  }

  lemma StillCovered(before: Stock, after: Stock, log: seq<Commit>, i: nat)
    requires AllCovered(before, log, i) && i < |log| && Covers(after, log[i].head)
    requires before.catalog.Keys <= after.catalog.Keys
    ensures AllCovered(after, log, i + 1)
  {
    hide Runs;
    forall k | 0 <= k < i + 1 ensures Covers(after, log[k].head) {
      if k < i { assert Covers(before, log[k].head); }
    }
  }

  function ExpectedAt(log: seq<Commit>, i: nat): nat
    requires i < |log|
  {
    Expected(Current(log[..i]), log[i])
  }

  /** The run of commit `i` cannot be written. */
  ghost predicate RefusesAt(c: Codec, log: seq<Commit>, i: nat)
    requires i < |log|
  {
    Unwritable(c, AddedAt(log, i).records, ExpectedAt(log, i))
  }

  /** Commit `i` adds the records of an earlier one, with as many shards of another size. */
  ghost predicate RepeatsAt(log: seq<Commit>, i: nat)
    requires i < |log|
  {
    exists k :: 0 <= k < i && AddedAt(log, k).records == AddedAt(log, i).records
                && Resized(ExpectedAt(log, k), ExpectedAt(log, i))
  }

  /** The first `n` commits can be carried out. */
  ghost predicate Clear(c: Codec, log: seq<Commit>, n: nat)
  {
    n <= |log| && forall i :: 0 <= i < n ==> !RefusesAt(c, log, i) && !RepeatsAt(log, i)
  }

  /** What was written for the first commits of the history, one run each. */
  ghost predicate Past(log: seq<Commit>, past: seq<Piece>)
  {
    && |past| <= |log|
    && forall k :: 0 <= k < |past| ==>
         past[k].records == AddedAt(log, k).records && past[k].expected == ExpectedAt(log, k)
  }

  lemma PastRepeats(log: seq<Commit>, past: seq<Piece>)
    requires Past(log, past) && |past| < |log|
    ensures RepeatsAt(log, |past|) <==> Repeats(past, AddedAt(log, |past|).records, ExpectedAt(log, |past|))
  {
    hide AddedAt, ExpectedAt, Resized;
    var i := |past|;
    if RepeatsAt(log, i) {
      var k :| 0 <= k < i && AddedAt(log, k).records == AddedAt(log, i).records
               && Resized(ExpectedAt(log, k), ExpectedAt(log, i));
      assert past[k].records == AddedAt(log, i).records;
    }
  }

  /** What is in stock for a run is what the commit that added it wrote. */
  ghost predicate AllAdded(c: Codec, log: seq<Commit>, s: Stock, bs: map<Run, Views.Backing>)
  {
    s.catalog.Keys == bs.Keys && forall run :: run in s.catalog ==> exists k :: WroteAt(c, log, k, run, s, bs)
  }

  ghost predicate WroteAt(c: Codec, log: seq<Commit>, k: int, run: Run, s: Stock, bs: map<Run, Views.Backing>)
    requires run in s.catalog && run in bs
  {
    && 0 <= k < |log| && run == AddedAt(log, k)
    && Written(c, run.records, ExpectedAt(log, k), s.catalog[run], bs[run])
  }

  lemma AddedMore(c: Codec, log: seq<Commit>, s: Stock, bs: map<Run, Views.Backing>, i: nat, w: Piece, next: Stock,
                  more: map<Run, Views.Backing>)
    requires AllAdded(c, log, s, bs) && i < |log| && Whole(c, w)
    requires w.records == AddedAt(log, i).records && w.expected == ExpectedAt(log, i)
    requires next.catalog == s.catalog[AddedAt(log, i) := w.built] && more == bs[AddedAt(log, i) := w.b]
    ensures AllAdded(c, log, next, more)
  {
    hide AddedAt, ExpectedAt, Written, Separates, Lossless;
    forall run | run in next.catalog ensures exists k :: WroteAt(c, log, k, run, next, more) {
      if run == AddedAt(log, i) {
        assert WroteAt(c, log, i, run, next, more);
      } else {
        var k :| WroteAt(c, log, k, run, s, bs);
        assert WroteAt(c, log, k, run, next, more);
      }
    }
  }

  /**
   Carry out every commit of a history against an empty store. It completes exactly when
   every run can be written and none repeats earlier records with shards of another size,
   and then every head of the history stands for stored runs; otherwise it stops at the
   first commit that cannot be carried out.
   */
  method Replay(c: Codec, log: seq<Commit>) returns (out: Outcome, ghost bs: map<Run, Views.Backing>)
    requires Log(log) && AllSeparate(c, log)
    ensures out.Complete? <==> Clear(c, log, |log|)
    ensures out.Complete? ==>
              InStock(c, out.stock, bs) && AllCovered(out.stock, log, |log|) && AllAdded(c, log, out.stock, bs)
    ensures out.RunRefused? ==> out.at < |log| && RefusesAt(c, log, out.at) && Clear(c, log, out.at)
    ensures out.NameTaken? ==>
              out.at < |log| && RepeatsAt(log, out.at) && !RefusesAt(c, log, out.at) && Clear(c, log, out.at)
  {
    hide Log, Commits.Commits, Separates, Kept, Lossless, Unwritable, Covers, Added, Expected, Sourced, Repeats;
    hide RepeatsAt, WroteAt, Whole;
    var s := Stock(EMPTY, map[]);
    bs := map[];
    ghost var past: seq<Piece> := [];
    NothingStored(c);
    for i := 0 to |log|
      invariant InStock(c, s, bs) && AllCovered(s, log, i) && AllAdded(c, log, s, bs)
      invariant Past(log, past) && |past| == i && Sourced(c, s.disk, past) && Clear(c, log, i)
    {
      NextCommit(log, i);
      assert Separates(c, AddedAt(log, i).records);
      PastRepeats(log, past);
      var previous := if i == 0 then None else Some(log[i - 1].head);
      assert i > 0 ==> Covers(s, log[i - 1].head);
      var step, next, w := StoreCommit(c, previous, log[i], s, bs, past);
      if step.Refused? {
        assert RefusesAt(c, log, i);
        return RunRefused(i), bs;
      }
      if step.Taken? {
        assert RepeatsAt(log, i);
        return NameTaken(i), bs;
      }
      StillCovered(s, step.stock, log, i);
      AddedMore(c, log, s, bs, i, w, step.stock, next);
      s, bs, past := step.stock, next, past + [w];
    }
    return Complete(s), bs;
  }

  lemma NothingStored(c: Codec)
    ensures Sourced(c, EMPTY, [])
  {
  }
}
