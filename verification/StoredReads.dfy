/**
 Reading a history that was carried out in a store. The runs of any of its heads are opened
 from their stored roots; nothing is assumed of them but that their commits were carried
 out, and the answer is the flat state after the block.
 */
module StoredReads {
  import opened Bytes
  import opened Versions
  import opened RunFormat
  import opened RunWriter
  import opened StoredRuns
  import opened StoredHistory
  import opened Head
  import opened Ledger
  import opened History
  import opened Commits
  import opened Keys
  import opened StateReads
  import opened Views
  import P = Protocol
  import FenceIndex
  import Merge
  import RunTree
  import RunReader
  import RunBuilder
  import RunScanner
  import RunWalk
  import Worker
  import Archive
  import L = Lifetimes
  import E = Exports
  import G = GarbageCollection
  import X = Coexistence

  const END := 0x1_0000_0000_0000_0000

  // ---------------------------------------------------------------- opening a head

  /** The run's interval fits the fields of a manifest entry and holds its records. */
  ghost predicate Within(run: Run)
  {
    run.start <= run.end < END && forall r :: r in run.records ==> run.start <= r.block <= run.end
  }

  lemma HeadWithin(h: Head, ps: seq<Package>, k: nat)
    requires HeadOk(h, ps) && h.number < END && k < |Runs(h)|
    ensures Within(Runs(h)[k])
  {
    hide Runs, Weight, Contiguous, Events, ShapeOk, Published, Tip;
    ContiguousIndex(Runs(h), 0, k);
    FaithfulWithin(Runs(h)[k], Events(ps));
  }

  lemma FaithfulWithin(run: Run, events: set<Record>)
    requires Faithful(run, events)
    ensures forall r :: r in run.records ==> run.start <= r.block <= run.end
  {
    forall r | r in run.records ensures run.start <= r.block <= run.end { assert r in Contents(run.records); }
  }

  /** A view and its backing are those of a run in stock. */
  ghost predicate Opens(c: Codec, s: Stock, bs: map<Run, Backing>, run: Run, v: View, b: Backing)
  {
    && run in s.catalog && run in bs && b == bs[run] && Within(run)
    && v == ViewOf(c, s.catalog[run], b.trees, run.start, run.end)
  }

  ghost predicate AllOpen(c: Codec, s: Stock, bs: map<Run, Backing>, runs: seq<Run>, views: seq<View>,
                          backs: seq<Backing>)
  {
    && |views| == |backs| == |runs|
    && forall k :: 0 <= k < |runs| ==> Opens(c, s, bs, runs[k], views[k], backs[k])
  }

  /** Open the runs of a head from their stored roots. */
  method OpenHead(c: Codec, s: Stock, h: Head, ghost bs: map<Run, Backing>, ghost ps: seq<Package>)
    returns (views: seq<View>, ghost backs: seq<Backing>)
    requires InStock(c, s, bs) && Covers(s, h) && HeadOk(h, ps) && h.number < END
    ensures AllOpen(c, s, bs, Runs(h), views, backs)
  {
    hide Kept, Lossless, HeadOk, RunBuilder.Indexes;
    var runs := Runs(h);
    hide Runs;
    views, backs := [], [];
    for k := 0 to |runs|
      invariant AllOpen(c, s, bs, runs[..k], views, backs)
    {
      var run := runs[k];
      assert run in runs;
      HeadWithin(h, ps, k);
      var built := s.catalog[run];
      var indexes := Open(c, built, s.disk, run.records, bs[run]);
      views := views + [View(run.start, run.end, built.root.digest, built.shards, indexes)];
      backs := backs + [bs[run]];
    }
    assert runs[..|runs|] == runs;
  }

  lemma OpensServed(c: Codec, s: Stock, bs: map<Run, Backing>, run: Run, v: View, b: Backing)
    requires InStock(c, s, bs) && Opens(c, s, bs, run, v, b)
    ensures b.records == run.records && v.start == run.start && v.end == run.end
    ensures Backs(c, v, b) && FilterOk(b, v) && Genuine(c, v, b, Shards(s.disk))
    ensures Stored(c, b, Blobs(s.disk)) && Summarized(v, Shards(s.disk))
  {
    hide Kept, Lossless, Genuine, Backs, Stored, Summarized, RunBuilder.AllClean, RunBuilder.Built;
    KeptParts(c, s.disk, run.records, s.catalog[run], b);
    KeptServes(c, s.disk, run.records, s.catalog[run], b, run.start, run.end);
  }

  ghost predicate FilterOk(b: Backing, v: View)
  {
    Views.Summary.FilterOk(b.filter, v.shards, b.size)
  }

  /** The opened runs stand for the head and are served by the store. */
  lemma HeadServed(c: Codec, s: Stock, bs: map<Run, Backing>, h: Head, ps: seq<Package>, views: seq<View>,
                   backs: seq<Backing>)
    requires InStock(c, s, bs) && HeadOk(h, ps) && AllOpen(c, s, bs, Runs(h), views, backs)
    ensures Archive.Realizes(Runs(h), views, backs) && Backed(c, views, backs, Shards(s.disk))
    ensures Worker.AllServed(c, views, backs, Blobs(s.disk), Shards(s.disk))
  {
    hide InStock, Opens, Backs, Genuine, Stored, Summarized, Weight, Contiguous, Events, ShapeOk, Published, Tip;
    hide Blobs, Shards;
    var runs := Runs(h);
    hide Runs;
    forall k | 0 <= k < |runs|
      ensures backs[k].records == runs[k].records && views[k].start == runs[k].start && views[k].end == runs[k].end
      ensures Backs(c, views[k], backs[k]) && FilterOk(backs[k], views[k])
      ensures Genuine(c, views[k], backs[k], Shards(s.disk)) && Stored(c, backs[k], Blobs(s.disk))
      ensures Summarized(views[k], Shards(s.disk))
    {
      assert Opens(c, s, bs, runs[k], views[k], backs[k]);
      OpensServed(c, s, bs, runs[k], views[k], backs[k]);
    }
    forall i, j | 0 <= i < j < |views| ensures views[i].end < views[j].start { ContiguousOrder(runs, 0, i, j); }
  }

  // ---------------------------------------------------------------- reading a head

  /** The keys of an exported history are those of accounts, slots and code. */
  lemma {:induction false} WrittenShaped(kv: L.Archive, blocks: seq<L.Change>, base: nat, r: Record)
    requires E.Fits(kv, blocks, base) && r in E.Written(kv, blocks, base)
    ensures exists name :: r.key == KeyOf(name)
  {
    hide KeyOf;
    if blocks != [] && r in E.Written(kv, blocks[..|blocks| - 1], base) {
      WrittenShaped(kv, blocks[..|blocks| - 1], base, r);
    } else if blocks != [] {
      var e :| e in E.LastEvents(kv, blocks) && r == E.RecordOf(e, base + |blocks|);
      assert r.key == KeyOf(E.NameOf(e.key));
    } else {
      var k :| k in kv && r == E.RecordOf(L.Event(k, kv[k]), base);
      assert r.key == KeyOf(E.NameOf(k));
    }
  }

  lemma PublishedShaped(ps: seq<Package>, kv: L.Archive, blocks: seq<L.Change>, codes: set<Record>, r: Record)
    requires Archive.Publishes(ps, kv, blocks, codes) && r in Events(ps)
    ensures exists name :: r.key == KeyOf(name)
  {
    hide Events, E.Fits, E.Written, KeyOf;
    if r in codes {
      var h :| r.key == CodeKey(h);
      CodeName(h);
    } else {
      WrittenShaped(kv, blocks, 0, r);
    }
  }

  lemma CodeName(h: Hash32)
    ensures KeyOf(Code(h)) == CodeKey(h)
  {
  }

  /** So are the keys behind any head of the run. */
  lemma BackingsShaped(cas: P.Cas, actions: seq<P.Action>, i: nat, kv: L.Archive, blocks: seq<L.Change>,
                       codes: set<Record>, views: seq<View>, backs: seq<Backing>)
    requires i < |P.After(cas, actions).log|
    requires Archive.Realizes(Runs(P.After(cas, actions).log[i].head), views, backs)
    requires Archive.Publishes(Packages(P.After(cas, actions).log), kv, blocks, codes)
    ensures Worker.AllShaped(backs)
  {
    hide P.After, HeadOk, Archive.Publishes, Archive.Realizes, P.SystemOk, Log, Packages, Runs, AllRecords, Events;
    hide Worker.AllShaped;
    P.EveryRunOk(cas, actions);
    var log := P.After(cas, actions).log;
    LogOf(P.After(cas, actions));
    var past := log[..i + 1];
    LogPrefix(log, i + 1);
    LogHeadOk(past);
    PackagesPrefix(log, i + 1);
    Archive.RecordsAreEvents(log[i].head, Packages(past), views, backs);
    ShapedFrom(Packages(past), Packages(log), kv, blocks, codes, backs);
  }

  lemma LogOf(s: P.System)
    requires P.SystemOk(s)
    ensures Log(s.log)
  {
  }

  lemma ShapedFrom(ps: seq<Package>, all: seq<Package>, kv: L.Archive, blocks: seq<L.Change>, codes: set<Record>,
                   backs: seq<Backing>)
    requires |ps| <= |all| && all[..|ps|] == ps && AllRecords(backs) == Events(ps)
    requires Archive.Publishes(all, kv, blocks, codes)
    ensures Worker.AllShaped(backs)
  {
    hide Archive.Publishes, KeyOf, Events;
    forall j | 0 <= j < |backs| ensures Worker.Shaped(backs[j].records) {
      forall r | r in backs[j].records ensures exists name :: r.key == KeyOf(name) {
        assert r in AllRecords(backs);
        EventsMore(ps, all, r);
        PublishedShaped(all, kv, blocks, codes, r);
      }
    }
  }

  lemma EventsMore(ps: seq<Package>, all: seq<Package>, r: Record)
    requires |ps| <= |all| && all[..|ps|] == ps && r in Events(ps)
    ensures r in Events(all)
  {
    var i :| 0 <= i < |ps| && r in ps[i].records;
    assert all[i] == ps[i];
  }

  lemma HeadAt(cas: P.Cas, actions: seq<P.Action>, i: nat) returns (ps: seq<Package>)
    requires i < |P.After(cas, actions).log|
    ensures HeadOk(P.After(cas, actions).log[i].head, ps)
  {
    hide P.After, HeadOk;
    P.EveryRunOk(cas, actions);
    var log := P.After(cas, actions).log;
    LogPrefix(log, i + 1);
    LogHeadOk(log[..i + 1]);
    ps := Packages(log[..i + 1]);
  }

  /**
   A cold storage read of a head in stock: its runs are opened from the stored bytes, and
   the answer is the slot of the flat state after the block. Without false positives about
   its keys it always answers.
   */
  method ReadInStock(c: Codec, s: Stock, h: Head, address: Hash20, slot: Hash32, block: U64,
                     ghost bs: map<Run, Backing>, ghost cas: P.Cas, ghost actions: seq<P.Action>, ghost i: nat,
                     ghost states: seq<L.State>, ghost kv: L.Archive, ghost blocks: seq<L.Change>,
                     ghost codes: set<Record>)
    returns (r: Result<Hash32>, ghost views: seq<View>, ghost backs: seq<Backing>)
    requires InStock(c, s, bs) && Covers(s, h) && h.number < END
    requires Archive.Exported(cas, actions, i, states, kv, blocks, codes, block)
    requires h == P.After(cas, actions).log[i].head
    ensures AllOpen(c, s, bs, Runs(h), views, backs)
    ensures block < |states| && (r.Ok? ==> r.value == L.SlotOf(states[block], address, slot))
    ensures
      var read := key => FlatRead(Packages(P.After(cas, actions).log), key, block);
      Worker.NoChance(c, views, backs, read, address, slot) ==> r.Ok?
  {
    hide P.After, InStock, HeadOk, AllOpen, Archive.Realizes, Backed, Worker.AllServed, Worker.AllShaped, Runs, Covers;
    hide L.History, L.Baseline, Archive.Publishes, Worker.NoChance, FlatRead, Blobs, Shards;
    ghost var ps := HeadAt(cas, actions, i);
    var found, behind := OpenHead(c, s, h, bs, ps);
    views, backs := found, behind;
    HeadServed(c, s, bs, h, ps, views, backs);
    BackingsShaped(cas, actions, i, kv, blocks, codes, views, backs);
    var worker := new Worker.Reader(c, Blobs(s.disk), Shards(s.disk), found, behind);
    r := Archive.ReadState(worker, address, slot, block, cas, actions, i, states, kv, blocks, codes);
  }

  /**
   The whole way: carry out the commits of a run of the protocol against an empty store,
   then read any of its heads from what is stored.
   */
  method StoreAndRead(c: Codec, log: seq<Commit>, i: nat, address: Hash20, slot: Hash32, block: U64,
                      ghost cas: P.Cas, ghost actions: seq<P.Action>, ghost states: seq<L.State>,
                      ghost kv: L.Archive, ghost blocks: seq<L.Change>, ghost codes: set<Record>)
    returns (out: Outcome, r: Result<Hash32>, ghost bs: map<Run, Backing>, ghost views: seq<View>,
             ghost backs: seq<Backing>)
    requires Archive.Exported(cas, actions, i, states, kv, blocks, codes, block)
    requires log == P.After(cas, actions).log && AllSeparate(c, log) && log[i].head.number < END
    ensures out.Complete? <==> Clear(c, log, |log|)
    ensures out.Complete? ==> InStock(c, out.stock, bs) && AllOpen(c, out.stock, bs, Runs(log[i].head), views, backs)
    ensures block < |states| && (r.Ok? ==> out.Complete? && r.value == L.SlotOf(states[block], address, slot))
    ensures
      var read := key => FlatRead(Packages(log), key, block);
      out.Complete? && Worker.NoChance(c, views, backs, read, address, slot) ==> r.Ok?
  {
    hide P.After, InStock, AllOpen, L.History, L.Baseline, Archive.Publishes, Worker.NoChance, FlatRead, AllSeparate;
    hide Covers, Log, P.SystemOk, Clear, RefusesAt, RepeatsAt, AllAdded;
    P.EveryRunOk(cas, actions);
    LogOf(P.After(cas, actions));
    views, backs, r := [], [], Err;
    Archive.ExportedStates(cas, actions, i, states, kv, blocks, codes, block);
    out, bs := StoredHistory.Replay(c, log);
    if out.Complete? {
      r, views, backs := ReadInStock(c, out.stock, log[i].head, address, slot, block, bs, cas, actions, i, states, kv,
                                     blocks, codes);
    }
  }

  // ---------------------------------------------------------------- beside collectors

  /** What each stored name holds. */
  function ContentsOf(disk: Disk): X.Contents
  {
    (o: G.Object) =>
      match o
      case Blob(digest) => if digest in disk.blobs then disk.blobs[digest] else []
      case Shard(path) => if path in disk.shards then disk.shards[path] else []
  }

  /** The names a collector marks for a run in stock. */
  ghost function NamesOf(c: Codec, s: Stock, bs: map<Run, Backing>, run: Run): set<G.Object>
  {
    if run in s.catalog && run in bs && Within(run)
    then X.Marks(c, ViewOf(c, s.catalog[run], bs[run].trees, run.start, run.end), bs[run]) else {}
  }

  /** The runs of a head are stored under those names. */
  ghost predicate NamedAs(c: Codec, s: Stock, bs: map<Run, Backing>, of: X.Layout, h: Head)
  {
    forall run :: run in Runs(h) ==> of(run) == NamesOf(c, s, bs, run)
  }

  lemma OpenLaidOut(c: Codec, s: Stock, bs: map<Run, Backing>, run: Run, v: View, b: Backing)
    requires InStock(c, s, bs) && Opens(c, s, bs, run, v, b)
    ensures X.LaidOut(c, X.Marks(c, v, b), ContentsOf(s.disk), v, b)
  {
    hide InStock, Opens, Backs, Genuine, Summarized, X.Marks, X.LaidOut, RunTree.TreeObject, RunTree.RefOf;
    OpensServed(c, s, bs, run, v, b);
    forall p, o | 0 <= p < |b.trees| && RunTree.TreeObject(c, b.trees[p], o)
      ensures ContentsOf(s.disk)(G.Blob(c.sha(o))) == o
    {
      StoredDigest(c, v, b, p, o);
      assert Blobs(s.disk)(0, RunTree.RefOf(c, o)) == Some(o);
    }
    X.MarksLayOut(c, ContentsOf(s.disk), v, b);
  }

  lemma StoredDigest(c: Codec, v: View, b: Backing, p: nat, o: Bytes)
    requires Backs(c, v, b) && p < |b.trees| && RunTree.TreeObject(c, b.trees[p], o)
    ensures RunTree.RefOf(c, o).digest == c.sha(o)
  {
    hide FilterBacks, RunTree.TreeObject, RunTree.RefOf, RunTree.TreeOk, RunTree.TreeRecords, RunTree.Clean;
    assert RunReader.Roots(c, p, v.indexes[p], b.trees[p]);
    ObjectFits(c, p, b.trees[p], o);
    ShortRef(c, o);
  }

  /** Whatever a collector left of the shards is genuine. */
  lemma RemainingGenuine(c: Codec, disk: Disk, v: View, b: Backing, store: G.System)
    requires FilterOk(b, v) && Genuine(c, v, b, Shards(disk)) && Summarized(v, Shards(disk))
    ensures Genuine(c, v, b, X.Summaries(store, ContentsOf(disk)))
  {
    hide Views.Summary.EncodeShard;
    forall kind, i | 0 <= i < v.shards
      ensures ContentsOf(disk)(G.Shard(Views.Summary.Path(v.run, v.shards, kind, i)))
              == Views.Summary.EncodeShard(c, v.run, kind, i, v.shards, Bits(b, kind, i))
    {
      assert Shards(disk)(0, Views.Summary.Path(v.run, v.shards, kind, i)).Some?;
    }
  }

  lemma RemainingBacked(c: Codec, s: Stock, bs: map<Run, Backing>, h: Head, ps: seq<Package>, views: seq<View>,
                        backs: seq<Backing>, of: X.Layout, store: G.System)
    requires InStock(c, s, bs) && HeadOk(h, ps) && AllOpen(c, s, bs, Runs(h), views, backs)
    requires NamedAs(c, s, bs, of, h)
    ensures Backed(c, views, backs, X.Summaries(store, ContentsOf(s.disk)))
    ensures X.AllLaidOut(c, of, ContentsOf(s.disk), Runs(h), views, backs)
  {
    hide InStock, Backs, Genuine, Summarized, HeadOk, X.Marks, X.LaidOut, Stored, X.Summaries, ContentsOf, Shards;
    hide Blobs, ViewOf, Within;
    HeadServed(c, s, bs, h, ps, views, backs);
    var runs := Runs(h);
    hide Runs;
    forall k | 0 <= k < |runs|
      ensures FilterOk(backs[k], views[k])
      ensures Genuine(c, views[k], backs[k], X.Summaries(store, ContentsOf(s.disk)))
      ensures X.LaidOut(c, of(runs[k]), ContentsOf(s.disk), views[k], backs[k])
    {
      assert Opens(c, s, bs, runs[k], views[k], backs[k]) && runs[k] in runs;
      OpensServed(c, s, bs, runs[k], views[k], backs[k]);
      RemainingGenuine(c, s.disk, views[k], backs[k], store);
      OpenLaidOut(c, s, bs, runs[k], views[k], backs[k]);
    }
  }

  /** The committed packages hold accounts, slots and code only. */
  ghost predicate AllState(ps: seq<Package>)
  {
    forall p :: p in ps ==> Worker.Shaped(p.records)
  }

  lemma StateShaped(h: Head, ps: seq<Package>, views: seq<View>, backs: seq<Backing>)
    requires HeadOk(h, ps) && Archive.Realizes(Runs(h), views, backs) && AllState(ps)
    ensures Worker.AllShaped(backs)
  {
    hide HeadOk, Archive.Realizes, KeyOf;
    Archive.RecordsAreEvents(h, ps, views, backs);
    forall j | 0 <= j < |backs| ensures Worker.Shaped(backs[j].records) {
      forall r | r in backs[j].records ensures exists name :: r.key == KeyOf(name) {
        assert r in AllRecords(backs);
        var i :| 0 <= i < |ps| && r in ps[i].records;
        assert ps[i] in ps;
      }
    }
  }

  lemma CurrentHead(cfg: G.Config, cas: P.Cas, of: X.Layout, actions: seq<X.Action>)
    requires X.After(cfg, cas, of, actions).protocol.log != []
    ensures
      var log := X.After(cfg, cas, of, actions).protocol.log;
      Log(log) && HeadOk(log[|log| - 1].head, Packages(log))
  {
    hide X.After, HeadOk, P.After, P.SystemOk, Log;
    X.Projections(cfg, cas, of, actions);
    P.EveryRunOk(cas, X.ProcessSteps(cfg, cas, of, actions));
    LogOf(P.After(cas, X.ProcessSteps(cfg, cas, of, actions)));
    LogHeadOk(X.After(cfg, cas, of, actions).protocol.log);
  }

  /**
   A cold storage read of the current head from what the collectors left of a stock that
   holds its runs: without false positives about its keys it answers as the flat history.
   */
  method ReadCurrentInStock(c: Codec, s: Stock, store: G.System, h: Head, address: Hash20, slot: Hash32, block: U64,
                            ghost bs: map<Run, Backing>, ghost cfg: G.Config, ghost cas: P.Cas, ghost of: X.Layout,
                            ghost actions: seq<X.Action>)
    returns (r: Result<Hash32>, ghost views: seq<View>, ghost backs: seq<Backing>)
    requires G.Enough(cfg) && X.After(cfg, cas, of, actions).protocol.log != []
    requires
      var j := X.After(cfg, cas, of, actions);
      && store == j.store && h == j.protocol.log[|j.protocol.log| - 1].head && AllState(Packages(j.protocol.log))
    requires InStock(c, s, bs) && Covers(s, h) && NamedAs(c, s, bs, of, h) && block <= h.number < END
    ensures AllOpen(c, s, bs, Runs(h), views, backs)
    ensures
      var read := key => FlatRead(Packages(X.After(cfg, cas, of, actions).protocol.log), key, block);
      Worker.NoChance(c, views, backs, read, address, slot) ==>
        StorageOf(read, address, slot).Ok? ==> r == StorageOf(read, address, slot)
  {
    hide X.After, InStock, HeadOk, AllOpen, Archive.Realizes, Backed, Worker.AllServed, Worker.AllShaped, Runs, Covers;
    hide Worker.NoChance, FlatRead, StorageOf, AllState, NamedAs, X.AllLaidOut, ContentsOf, G.Enough, X.Objects;
    hide X.Summaries, Blobs, Shards;
    CurrentHead(cfg, cas, of, actions);
    ghost var ps := Packages(X.After(cfg, cas, of, actions).protocol.log);
    var found, behind := OpenHead(c, s, h, bs, ps);
    views, backs := found, behind;
    HeadServed(c, s, bs, h, ps, views, backs);
    StateShaped(h, ps, views, backs);
    RemainingBacked(c, s, bs, h, ps, views, backs, of, store);
    var contents := ContentsOf(s.disk);
    var worker := new Worker.Reader(c, X.Objects(store, contents), X.Summaries(store, contents), found, behind);
    r := X.ReadCurrent(worker, address, slot, block, cfg, cas, of, contents, actions);
  }

  // ---------------------------------------------------------------- the whole way beside collectors

  /** The names under which a run sized for so many keys is written. */
  ghost function NamesFor(c: Codec, records: seq<Record>, expected: nat): set<G.Object>
  {
    if !RunBuilder.Bounded(c, records) then {}
    else
      var trees := RunBuilder.Layout(c, records);
      var root := c.sha(FenceIndex.EncodeRoot(RunBuilder.Indexes(c, trees)));
      X.Marks(c, View(0, 0, root, Sizing(expected).0, []), Backing([], trees, Views.Summary.Filter([], []), 0))
  }

  /** Every run of the history is stored under the names it is written to. */
  ghost predicate StoredAs(c: Codec, of: X.Layout, log: seq<Commit>)
  {
    forall k :: 0 <= k < |log| ==> of(AddedAt(log, k)) == NamesFor(c, AddedAt(log, k).records, ExpectedAt(log, k))
  }

  lemma WrittenNames(c: Codec, records: seq<Record>, expected: nat, built: BuiltRun, b: Backing, start: U64, end: U64)
    requires Written(c, records, expected, built, b)
    ensures X.Marks(c, ViewOf(c, built, b.trees, start, end), b) == NamesFor(c, records, expected)
  {
    hide RunWriter.Holds, Views.Summary.Sums, Views.Summary.MayContain, Views.Summary.BytesPerShard;
    hide Views.Summary.ShardCount, Views.Summary.PowerOfTwo, RunBuilder.TreeOut, RunBuilder.KeysOk, RunBuilder.AllOf;
    hide RunBuilder.Layout, RunBuilder.Bounded, RunWalk.IndexRefs, RunScanner.TreePages, RunTree.TreeRecords;
    hide Merge.DistinctKeys;
    RootLength(RunBuilder.Indexes(c, b.trees));
    MarksDepend(c, ViewOf(c, built, b.trees, start, end), b,
                View(0, 0, built.root.digest, built.shards, []),
                Backing([], b.trees, Views.Summary.Filter([], []), 0));
  }

  /** What is marked depends on the root digest, the shard count and the trees. */
  lemma MarksDepend(c: Codec, v: View, b: Backing, u: View, a: Backing)
    requires v.run == u.run && v.shards == u.shards && b.trees == a.trees
    ensures X.Marks(c, v, b) == X.Marks(c, u, a)
  {
  }

  lemma StockNamed(c: Codec, log: seq<Commit>, s: Stock, bs: map<Run, Backing>, of: X.Layout, h: Head,
                   ps: seq<Package>)
    requires AllAdded(c, log, s, bs) && StoredAs(c, of, log) && Covers(s, h) && HeadOk(h, ps) && h.number < END
    ensures NamedAs(c, s, bs, of, h)
  {
    hide HeadOk, AddedAt, ExpectedAt, Written, NamesFor, X.Marks, ViewOf;
    var runs := Runs(h);
    hide Runs;
    forall run | run in runs ensures of(run) == NamesOf(c, s, bs, run) {
      var j :| 0 <= j < |runs| && runs[j] == run;
      HeadWithin(h, ps, j);
      var k :| WroteAt(c, log, k, run, s, bs);
      WrittenNames(c, run.records, ExpectedAt(log, k), s.catalog[run], bs[run], run.start, run.end);
    }
  }

  /**
   Publishers, compactors and collectors together: carry out the commits of such a run
   against an empty store, then read the current head from what the collectors left.
   */
  method StoreAndReadCurrent(c: Codec, log: seq<Commit>, store: G.System, address: Hash20, slot: Hash32, block: U64,
                             ghost cfg: G.Config, ghost cas: P.Cas, ghost of: X.Layout, ghost actions: seq<X.Action>)
    returns (out: Outcome, r: Result<Hash32>, ghost bs: map<Run, Backing>, ghost views: seq<View>,
             ghost backs: seq<Backing>)
    requires
      var j := X.After(cfg, cas, of, actions);
      log == j.protocol.log && store == j.store
    requires G.Enough(cfg) && log != [] && AllState(Packages(log)) && block <= log[|log| - 1].head.number < END
    requires AllSeparate(c, log) && StoredAs(c, of, log)
    ensures out.Complete? <==> Clear(c, log, |log|)
    ensures out.Complete? ==>
              InStock(c, out.stock, bs) && AllOpen(c, out.stock, bs, Runs(log[|log| - 1].head), views, backs)
    ensures
      var read := key => FlatRead(Packages(log), key, block);
      out.Complete? && Worker.NoChance(c, views, backs, read, address, slot) ==>
        StorageOf(read, address, slot).Ok? ==> r == StorageOf(read, address, slot)
  {
    hide X.After, InStock, AllOpen, Worker.NoChance, FlatRead, AllSeparate, StorageOf, AllState, StoredAs, NamedAs;
    hide Covers, Log, Clear, RefusesAt, RepeatsAt, AllAdded, HeadOk, G.Enough, Runs;
    views, backs, r := [], [], Err;
    CurrentHead(cfg, cas, of, actions);
    out, bs := StoredHistory.Replay(c, log);
    if out.Complete? {
      var h := log[|log| - 1].head;
      StockNamed(c, log, out.stock, bs, of, h, Packages(log));
      r, views, backs := ReadCurrentInStock(c, out.stock, store, h, address, slot, block, bs, cfg, cas, of, actions);
    }
  }
}
