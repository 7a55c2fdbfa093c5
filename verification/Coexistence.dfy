/**
 Publishers, compactors and collectors in one store. Every step is a step of the commit
 protocol, an upload, the passing of time, or a step of a collection pass; a process
 commits only within its deadline and after uploading what its head adds. In every
 interleaving every object of every run of the current head is stored, so a read of that
 head finds all it asks for.
 */
module Coexistence {
  import opened Bytes
  import opened Head
  import opened Ledger
  import opened Commits
  import opened Keys
  import opened StateReads
  import P = Protocol
  import G = GarbageCollection
  import RunFormat
  import RunTree
  import RunReader
  import RunScanner
  import RunWalk
  import Summary
  import Views
  import Worker
  import Archive
  import History

  /** The names under which a run is stored. */
  type Layout = Run -> set<G.Object>

  datatype Joint = Joint(protocol: P.System, store: G.System)

  datatype Action =
    | Process(step: P.Action)
    | Store(event: G.Action)

  ghost function Reach(of: Layout, head: Head): set<G.Object>
  {
    set run, o | run in Runs(head) && o in of(run) :: o
  }

  ghost function ReachOf(of: Layout, log: seq<Commit>): Option<set<G.Object>>
  {
    if log == [] then None else Some(Reach(of, log[|log| - 1].head))
  }

  predicate Adds(previous: Option<Head>, head: Head, run: Run)
  {
    run in Runs(head) && !(previous.Some? && run in Runs(previous.value))
  }

  /** The process uploaded every run its head adds, and is within its deadline. */
  ghost predicate Uploaded(cfg: G.Config, of: Layout, s: G.System, pid: nat, previous: Option<Head>, head: Head)
  {
    && pid in s.writers && s.now <= s.writers[pid].first + cfg.deadline
    && forall run :: Adds(previous, head, run) ==> of(run) <= s.writers[pid].put
  }

  /** Whether a step of a process may be taken: a commit waits for its uploads. */
  ghost predicate Taken(cfg: G.Config, cas: P.Cas, of: Layout, j: Joint, a: P.Action)
  {
    var log := P.Apply(cas, j.protocol, a).log;
    log != j.protocol.log ==>
      log != [] && Uploaded(cfg, of, j.store, a.pid, Current(j.protocol.log), log[|log| - 1].head)
  }

  /** What a step of a process does to the store. */
  ghost function StoreStep(cas: P.Cas, of: Layout, j: Joint, a: P.Action): seq<G.Action>
  {
    var log := P.Apply(cas, j.protocol, a).log;
    if log == j.protocol.log || log == [] then [] else [G.Swap(a.pid, Reach(of, log[|log| - 1].head))]
  }

  ghost function Apply(cfg: G.Config, cas: P.Cas, of: Layout, j: Joint, a: Action): Joint
  {
    match a
    case Process(step) =>
      if !Taken(cfg, cas, of, j, step) then j
      else
        var swap := StoreStep(cas, of, j, step);
        Joint(P.Apply(cas, j.protocol, step), if swap == [] then j.store else G.Apply(cfg, j.store, swap[0]))
    case Store(step) => if step.Swap? then j else j.(store := G.Apply(cfg, j.store, step))
  }

  ghost function After(cfg: G.Config, cas: P.Cas, of: Layout, actions: seq<Action>): Joint
  {
    if actions == [] then Joint(P.After(cas, []), G.After(cfg, []))
    else Apply(cfg, cas, of, After(cfg, cas, of, actions[..|actions| - 1]), actions[|actions| - 1])
  }

  // ---------------------------------------------------------------- the two projections

  /** The steps of processes that were taken. */
  ghost function ProcessSteps(cfg: G.Config, cas: P.Cas, of: Layout, actions: seq<Action>): seq<P.Action>
  {
    if actions == [] then []
    else
      var before, a := actions[..|actions| - 1], actions[|actions| - 1];
      var steps := ProcessSteps(cfg, cas, of, before);
      if a.Process? && Taken(cfg, cas, of, After(cfg, cas, of, before), a.step) then steps + [a.step] else steps
  }

  /** The steps of the store, swaps included. */
  ghost function StoreSteps(cfg: G.Config, cas: P.Cas, of: Layout, actions: seq<Action>): seq<G.Action>
  {
    if actions == [] then []
    else
      var before, a := actions[..|actions| - 1], actions[|actions| - 1];
      var steps, j := StoreSteps(cfg, cas, of, before), After(cfg, cas, of, before);
      match a
      case Process(step) => if Taken(cfg, cas, of, j, step) then steps + StoreStep(cas, of, j, step) else steps
      case Store(step) => if step.Swap? then steps else steps + [step]
  }

  lemma ProtocolSnoc(cas: P.Cas, actions: seq<P.Action>, a: P.Action)
    ensures P.After(cas, actions + [a]) == P.Apply(cas, P.After(cas, actions), a)
  {
    assert (actions + [a])[..|actions|] == actions;
  }

  /** A joint run is a run of the protocol beside a run of the store. */
  lemma {:induction false} Projections(cfg: G.Config, cas: P.Cas, of: Layout, actions: seq<Action>)
    ensures
      var j := After(cfg, cas, of, actions);
      && j.protocol == P.After(cas, ProcessSteps(cfg, cas, of, actions))
      && j.store == G.After(cfg, StoreSteps(cfg, cas, of, actions))
  {
    hide P.After, P.Apply, G.After, G.Apply, Taken, Reach;
    if actions != [] {
      var before, a := actions[..|actions| - 1], actions[|actions| - 1];
      Projections(cfg, cas, of, before);
      var j, steps := After(cfg, cas, of, before), StoreSteps(cfg, cas, of, before);
      match a
      case Process(step) =>
        if Taken(cfg, cas, of, j, step) {
          ProtocolSnoc(cas, ProcessSteps(cfg, cas, of, before), step);
          var swap := StoreStep(cas, of, j, step);
          if swap != [] { G.Snoc(cfg, steps, swap[0]); } else { assert steps + swap == steps; }
        }
      case Store(step) => if !step.Swap? { G.Snoc(cfg, steps, step); }
    }
  }

  // ---------------------------------------------------------------- the head reaches what is stored

  /** A commit adds at most one run: the one its process built. */
  lemma OneRunAdded(h: Head, c: Commit, a: Run, b: Run)
    requires Commits.Commits(Some(h), c) && |h.levels| <= MAX_LEVELS && Adds(Some(h), c.head, a)
    requires Adds(Some(h), c.head, b)
    ensures a == b
  {
    G.CommitReusesRuns(h, c, a);
    G.CommitReusesRuns(h, c, b);
  }

  lemma CommitSwaps(cfg: G.Config, of: Layout, s: G.System, pid: nat, log: seq<Commit>, head: Head)
    requires s.head == ReachOf(of, log) && Uploaded(cfg, of, s, pid, Current(log), head)
    ensures G.Apply(cfg, s, G.Swap(pid, Reach(of, head))) == s.(head := Some(Reach(of, head)))
  {
    forall o | o in Reach(of, head) ensures o in G.Live(s) + s.writers[pid].put {
      var run :| run in Runs(head) && o in of(run);
      if Adds(Current(log), head, run) { assert o in s.writers[pid].put; }
    }
  }

  lemma CollectorKeepsHead(cfg: G.Config, s: G.System, a: G.Action)
    requires !a.Swap?
    ensures G.Apply(cfg, s, a).head == s.head
  {
  }

  /** In every joint run the store's head is what the runs of the protocol's head reach. */
  lemma {:induction false} HeadsAgree(cfg: G.Config, cas: P.Cas, of: Layout, actions: seq<Action>)
    ensures
      var j := After(cfg, cas, of, actions);
      j.store.head == ReachOf(of, j.protocol.log)
  {
    hide P.Apply, G.Apply, ReachOf, Uploaded, P.After;
    if actions == [] {
      EmptyHeads(cfg, cas, of);
    } else {
      var before, a := actions[..|actions| - 1], actions[|actions| - 1];
      HeadsAgree(cfg, cas, of, before);
      var j := After(cfg, cas, of, before);
      match a
      case Process(step) =>
        var log := P.Apply(cas, j.protocol, step).log;
        if Taken(cfg, cas, of, j, step) && log != j.protocol.log {
          CommitSwaps(cfg, of, j.store, step.pid, j.protocol.log, log[|log| - 1].head);
          LastReach(of, log);
        }
      case Store(step) => if !step.Swap? { CollectorKeepsHead(cfg, j.store, step); }
    }
  }

  lemma EmptyHeads(cfg: G.Config, cas: P.Cas, of: Layout)
    ensures After(cfg, cas, of, []).store.head == ReachOf(of, After(cfg, cas, of, []).protocol.log)
  {
  }

  lemma LastReach(of: Layout, log: seq<Commit>)
    requires log != []
    ensures ReachOf(of, log) == Some(Reach(of, log[|log| - 1].head))
  {
  }

  /**
   In every interleaving of publishers, compactors and any number of collectors, every
   object of every run of the current head is in the store.
   */
  lemma EveryRunStored(cfg: G.Config, cas: P.Cas, of: Layout, actions: seq<Action>, run: Run)
    requires G.Enough(cfg) && After(cfg, cas, of, actions).protocol.log != []
    requires
      var log := After(cfg, cas, of, actions).protocol.log;
      run in Runs(log[|log| - 1].head)
    ensures of(run) <= After(cfg, cas, of, actions).store.objects.Keys
  {
    hide After, G.After, P.After, ProcessSteps, StoreSteps;
    Projections(cfg, cas, of, actions);
    HeadsAgree(cfg, cas, of, actions);
    G.EveryRunOk(cfg, StoreSteps(cfg, cas, of, actions));
    var j := After(cfg, cas, of, actions);
    forall o | o in of(run) ensures o in j.store.objects.Keys { assert o in G.Live(j.store); }
  }

  // ---------------------------------------------------------------- reading the current head

  /** What each stored name holds. */
  type Contents = G.Object -> Bytes

  function Objects(s: G.System, contents: Contents): Views.Objects
  {
    (t, ref: RunFormat.Ref) => if G.Blob(ref.digest) in s.objects then Some(contents(G.Blob(ref.digest))) else None
  }

  function Summaries(s: G.System, contents: Contents): Views.Summaries
  {
    (t, path) => if G.Shard(path) in s.objects then Some(contents(G.Shard(path))) else None
  }

  /** The run is laid out in full: every object of its trees under its digest, every shard under its path. */
  ghost predicate LaidOut(c: RunFormat.Codec, names: set<G.Object>, contents: Contents, v: Views.View, b: Views.Backing)
  {
    && (forall p, o :: 0 <= p < |b.trees| && RunTree.TreeObject(c, b.trees[p], o) ==>
          G.Blob(c.sha(o)) in names && contents(G.Blob(c.sha(o))) == o)
    && forall kind, i :: 0 <= i < v.shards ==> G.Shard(Summary.Path(v.run, v.shards, kind, i)) in names
  }

  ghost predicate AllLaidOut(c: RunFormat.Codec, of: Layout, contents: Contents, runs: seq<Run>, views: seq<Views.View>,
                             bs: seq<Views.Backing>)
  {
    |runs| == |views| == |bs| && forall k :: 0 <= k < |runs| ==> LaidOut(c, of(runs[k]), contents, views[k], bs[k])
  }

  /** What the collector marks for a run: every reference its walk finds, and every shard. */
  ghost function Marks(c: RunFormat.Codec, v: Views.View, b: Views.Backing): set<G.Object>
  {
    (set p, ref | 0 <= p < |b.trees| && ref in RunWalk.IndexRefs(c, b.trees[p]) :: G.Blob(ref.digest))
    + (set p, ref | 0 <= p < |b.trees| && ref in RunScanner.TreePages(c, b.trees[p]) :: G.Blob(ref.digest))
    + (set kind, i | kind in {Summary.Address, Summary.Spill} && 0 <= i < v.shards ::
         G.Shard(Summary.Path(v.run, v.shards, kind, i)))
  }

  /** Nothing a reader of the run needs is left unmarked. */
  lemma MarksLayOut(c: RunFormat.Codec, contents: Contents, v: Views.View, b: Views.Backing)
    requires Views.Backs(c, v, b)
    requires forall p, o :: 0 <= p < |b.trees| && RunTree.TreeObject(c, b.trees[p], o) ==>
               contents(G.Blob(c.sha(o))) == o
    ensures LaidOut(c, Marks(c, v, b), contents, v, b)
  {
    hide RunTree.TreeObject, RunTree.RefOf, Views.FilterBacks, RunTree.TreeRecords, RunTree.TreeOk;
    hide RunWalk.IndexRefs, RunScanner.TreePages;
    forall p, o | 0 <= p < |b.trees| && RunTree.TreeObject(c, b.trees[p], o)
      ensures G.Blob(c.sha(o)) in Marks(c, v, b)
    {
      assert RunReader.Roots(c, p, v.indexes[p], b.trees[p]);
      Views.ObjectFits(c, p, b.trees[p], o);
      SmallRef(c, o);
      RunWalk.WalkComplete(c, b.trees[p], o);
    }
    forall kind, i | 0 <= i < v.shards ensures G.Shard(Summary.Path(v.run, v.shards, kind, i)) in Marks(c, v, b) {
      match kind
      case Address =>
      case Spill =>
    }
  }

  lemma RunServed(c: RunFormat.Codec, names: set<G.Object>, contents: Contents, v: Views.View, b: Views.Backing,
                  s: G.System)
    requires LaidOut(c, names, contents, v, b) && names <= s.objects.Keys && Views.Backs(c, v, b)
    ensures Views.Stored(c, b, Objects(s, contents)) && Views.Summarized(v, Summaries(s, contents))
  {
    hide RunTree.TreeObject, RunTree.RefOf, Views.FilterBacks, RunTree.TreeRecords, RunTree.TreeOk;
    forall t, p, o | 0 <= p < |b.trees| && RunTree.TreeObject(c, b.trees[p], o)
      ensures Objects(s, contents)(t, RunTree.RefOf(c, o)) == Some(o)
    {
      assert RunReader.Roots(c, p, v.indexes[p], b.trees[p]);
      Views.ObjectFits(c, p, b.trees[p], o);
      SmallRef(c, o);
    }
  }

  lemma SmallRef(c: RunFormat.Codec, o: Bytes)
    requires |o| <= RunFormat.MAX_PAGE
    ensures RunTree.RefOf(c, o).digest == c.sha(o)
  {
  }

  lemma HeadServed(c: RunFormat.Codec, of: Layout, contents: Contents, head: Head, views: seq<Views.View>,
                   bs: seq<Views.Backing>, s: G.System)
    requires Views.Backed(c, views, bs, Summaries(s, contents)) && AllLaidOut(c, of, contents, Runs(head), views, bs)
    requires forall run :: run in Runs(head) ==> of(run) <= s.objects.Keys
    ensures Worker.AllServed(c, views, bs, Objects(s, contents), Summaries(s, contents))
  {
    hide LaidOut, Views.Backs, Views.Genuine, Objects, Summaries, Runs;
    forall k | 0 <= k < |views|
      ensures Views.Stored(c, bs[k], Objects(s, contents)) && Views.Summarized(views[k], Summaries(s, contents))
    {
      assert Views.Backs(c, views[k], bs[k]);
      RunServed(c, of(Runs(head)[k]), contents, views[k], bs[k], s);
    }
  }

  /**
   A cold storage read of the current head, beside any publishers, compactors and
   collectors: without false positives about its keys it answers as the flat history does.
   */
  method ReadCurrent(worker: Worker.Reader, address: Hash20, slot: Hash32, block: U64, ghost cfg: G.Config,
                     ghost cas: P.Cas, ghost of: Layout, ghost contents: Contents, ghost actions: seq<Action>)
    returns (r: Result<Hash32>)
    requires worker.Valid() && Worker.AllShaped(worker.backs) && worker.gets == 1 && worker.fetched == Worker.MIB / 4
    requires G.Enough(cfg) && After(cfg, cas, of, actions).protocol.log != []
    requires
      var j := After(cfg, cas, of, actions);
      var head := j.protocol.log[|j.protocol.log| - 1].head;
      && block <= head.number && Archive.Realizes(Runs(head), worker.runs, worker.backs)
      && AllLaidOut(worker.c, of, contents, Runs(head), worker.runs, worker.backs)
      && worker.objects == Objects(j.store, contents) && worker.summaries == Summaries(j.store, contents)
    modifies worker`gets, worker`fetched, worker`shards
    ensures
      var read := key => History.FlatRead(Packages(After(cfg, cas, of, actions).protocol.log), key, block);
      Worker.NoChance(worker.c, worker.runs, worker.backs, read, address, slot) ==>
        StorageOf(read, address, slot).Ok? ==> r == StorageOf(read, address, slot)
  {
    hide After, P.After, ProcessSteps, Objects, Summaries, AllLaidOut, Archive.Realizes, StorageOf, Worker.NoChance;
    hide Worker.AllServed;
    hide Worker.AllShaped, History.FlatRead, Views.Backed, Runs, G.Enough;
    ghost var j := After(cfg, cas, of, actions);
    ghost var log := j.protocol.log;
    Projections(cfg, cas, of, actions);
    forall run | run in Runs(log[|log| - 1].head) ensures of(run) <= j.store.objects.Keys {
      EveryRunStored(cfg, cas, of, actions, run);
    }
    HeadServed(worker.c, of, contents, log[|log| - 1].head, worker.runs, worker.backs, j.store);
    r := Archive.ReadAnyHead(worker, address, slot, block, cas, ProcessSteps(cfg, cas, of, actions), |log| - 1);
  }
}
