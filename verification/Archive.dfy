/**
 All layers together: the bytes behind any head of any run of the protocol are read, by
 either reader, as the flat history of the committed packages.
 */
module Archive {
  import opened Bytes
  import opened Versions
  import opened Head
  import opened Ledger
  import opened History
  import opened Commits
  import opened Protocol
  import opened Keys
  import opened StateReads
  import Views
  import Native
  import Worker
  import L = Lifetimes
  import E = Exports
  import N = Normalized
  import P = Packaging

  /** The views and their backing stand for the runs of a manifest. */
  ghost predicate Realizes(runs: seq<Run>, views: seq<Views.View>, bs: seq<Views.Backing>)
  {
    && |views| == |bs| == |runs|
    && forall j :: 0 <= j < |runs| ==>
         bs[j].records == runs[j].records && views[j].start == runs[j].start && views[j].end == runs[j].end
  }

  /** The records behind a manifest in step with its packages are all their events. */
  lemma RecordsAreEvents(h: Head, ps: seq<Package>, views: seq<Views.View>, bs: seq<Views.Backing>)
    requires HeadOk(h, ps) && Realizes(Runs(h), views, bs)
    ensures Views.AllRecords(bs) == Events(ps)
  {
    hide Contiguous, Weight, Runs;
    var runs := Runs(h);
    forall r ensures r in Views.AllRecords(bs) <==> r in Events(ps) {
      if r in Views.AllRecords(bs) {
        var j :| 0 <= j < |bs| && r in bs[j].records;
        assert Faithful(runs[j], Events(ps)) && r in Contents(runs[j].records);
      }
      if r in Events(ps) {
        EventsBound(ps, r);
        var j := ContiguousFinds(runs, 0, r.block);
        assert Faithful(runs[j], Events(ps)) && r in Contents(runs[j].records);
        assert r in bs[j].records;
      }
    }
  }

  /** A head answers as the flat history of its packages, key by key. */
  lemma HeadAnswers(h: Head, ps: seq<Package>, views: seq<Views.View>, bs: seq<Views.Backing>, block: nat)
    requires HeadOk(h, ps) && Realizes(Runs(h), views, bs)
    ensures ReadsAs(Views.AllRecords(bs), block, key => FlatRead(ps, key, block))
  {
    hide HeadOk, ReadsAs, FlatRead;
    RecordsAreEvents(h, ps, views, bs);
    FlatReadsEvents(h, ps, block);
  }

  /**
   In every interleaving of publishers and compactors, the records behind any head ever
   committed answer every block up to its number as the packages committed by the end do.
   */
  lemma EveryRunAnswers(cas: Cas, actions: seq<Action>, i: nat, views: seq<Views.View>, bs: seq<Views.Backing>,
                        block: nat)
    requires i < |After(cas, actions).log| && block <= After(cas, actions).log[i].head.number
    requires Realizes(Runs(After(cas, actions).log[i].head), views, bs)
    ensures ReadsAs(Views.AllRecords(bs), block, key => FlatRead(Packages(After(cas, actions).log), key, block))
    ensures |views| <= MAX_L0_BACKLOG + MAX_LEVELS
  {
    hide HeadOk, After, Wellformed, Realizes, IsAnswer, FlatRead;
    EveryRunOk(cas, actions);
    var log := After(cas, actions).log;
    var past, h := log[..i + 1], log[i].head;
    LogPrefix(log, i + 1);
    LogHeadOk(past);
    LogHeadOk(log);
    var ps, all := Packages(past), Packages(log);
    HeadAnswers(h, ps, views, bs, block);
    PackagesPrefix(log, i + 1);
    forall key ensures FlatRead(ps, key, block) == FlatRead(all, key, block) {
      LaterSame(h, ps, log[|log| - 1].head, all, key, block);
    }
    ReadsSame(Views.AllRecords(bs), block, key => FlatRead(ps, key, block), key => FlatRead(all, key, block));
    HeadWellformed(h, ps);
    FewRuns(h, views, bs);
  }

  lemma ReadsSame(rs: set<Record>, block: int, read: Lookups, other: Lookups)
    requires ReadsAs(rs, block, read) && forall key :: read(key) == other(key)
    ensures ReadsAs(rs, block, other)
  {
    hide IsAnswer;
    forall key ensures IsAnswer(rs, key, block, other(key)) {
      assert IsAnswer(rs, key, block, read(key));
    }
  }

  lemma LaterSame(h: Head, ps: seq<Package>, last: Head, all: seq<Package>, key: Bytes, block: nat)
    requires HeadOk(h, ps) && HeadOk(last, all) && |ps| <= |all| && all[..|ps|] == ps && block <= h.number
    ensures FlatRead(ps, key, block) == FlatRead(all, key, block)
  {
    hide FlatRead, Runs, Weight;
    assert all[|ps| - 1] == ps[|ps| - 1];
    FlatStable(all, |ps|, key, block);
  }

  lemma {:induction false} LevelRunsFew(levels: seq<Option<Run>>)
    ensures |LevelRuns(levels)| <= |levels|
  {
    if levels != [] { LevelRunsFew(levels[1..]); }
  }

  lemma FewRuns(h: Head, views: seq<Views.View>, bs: seq<Views.Backing>)
    requires Wellformed(h) && Realizes(Runs(h), views, bs)
    ensures |views| <= MAX_L0_BACKLOG + MAX_LEVELS
  {
    LevelRunsFew(h.levels);
  }

  /**
   A cold storage read by the Worker against any head of any run of the protocol. Its
   answer is the flat history's; without false positives about its two keys it takes at
   most 1 + 2 * runs + 12 GETs; and an honest store never trips its budget.
   */
  method ReadAnyHead(worker: Worker.Reader, address: Hash20, slot: Hash32, block: U64,
                     ghost cas: Cas, ghost actions: seq<Action>, ghost i: nat)
    returns (r: Result<Hash32>)
    requires worker.Valid() && Worker.AllShaped(worker.backs)
    requires worker.gets == 1 && worker.fetched == Worker.MIB / 4
    requires i < |After(cas, actions).log| && block <= After(cas, actions).log[i].head.number
    requires Realizes(Runs(After(cas, actions).log[i].head), worker.runs, worker.backs)
    modifies worker`gets, worker`fetched, worker`shards
    ensures
      var read := key => FlatRead(Packages(After(cas, actions).log), key, block);
      && (r.Ok? ==> r == StorageOf(read, address, slot))
      && (Worker.NoChance(worker.c, worker.runs, worker.backs, read, address, slot) ==>
            worker.gets <= 1 + 2 * |worker.runs| + 12)
      && (Worker.NoChance(worker.c, worker.runs, worker.backs, read, address, slot) ==>
            StorageOf(read, address, slot).Ok? ==>
            Worker.AllServed(worker.c, worker.runs, worker.backs, worker.objects, worker.summaries) ==> r.Ok?)
  {
    hide After, Realizes, ReadsAs, StorageOf, Worker.NoChance, Worker.AllServed, Worker.AllShaped, FlatRead;
    EveryRunAnswers(cas, actions, i, worker.runs, worker.backs, block);
    ghost var read := key => FlatRead(Packages(After(cas, actions).log), key, block);
    r := worker.StorageAt(address, slot, block, read);
  }

  /** The committed packages are the exported history and its code blobs. */
  ghost predicate Publishes(ps: seq<Package>, kv: L.Archive, blocks: seq<L.Change>, codes: set<Record>)
  {
    && E.Fits(kv, blocks, 0) && Events(ps) == E.Written(kv, blocks, 0) + codes
    && forall r :: r in codes ==> exists h :: r.key == CodeKey(h)
  }

  /**
   When the packages committed in a run are the export of a consistent block history, any
   head of the run answers storage at any of its blocks as the flat state after that block.
   */
  lemma EveryRunReadsState(cas: Cas, actions: seq<Action>, i: nat, views: seq<Views.View>, bs: seq<Views.Backing>,
                           states: seq<L.State>, kv: L.Archive, blocks: seq<L.Change>, codes: set<Record>,
                           block: nat, address: Hash20, slot: Hash32, read: Lookups)
    requires i < |After(cas, actions).log| && block <= After(cas, actions).log[i].head.number && block <= |blocks|
    requires Realizes(Runs(After(cas, actions).log[i].head), views, bs)
    requires L.History(states, blocks) && L.Baseline(states[0], kv)
    requires Publishes(Packages(After(cas, actions).log), kv, blocks, codes)
    requires ReadsAs(Views.AllRecords(bs), block, read)
    ensures StorageOf(read, address, slot) == Ok(L.SlotOf(states[block], address, slot))
    ensures LiveAccountOf(read, address).Ok? && (LiveAccountOf(read, address).value.Some? <==> address in states[block])
    ensures address in states[block] ==>
              var s, info := LiveAccountOf(read, address).value.value, states[block][address].info;
              s.nonce == info.nonce && s.balance == info.balance && s.codeHash == info.codeHash
    ensures AccountOf(read, address).Ok? && (address !in states[block] ==>
              AccountOf(read, address).value.None? || !AccountOf(read, address).value.value.live)
  {
    hide After, Realizes, ReadsAs, FlatRead, L.History, L.Baseline, E.Written, E.Fits, HeadOk, IsAnswer, StorageOf;
    hide LiveAccountOf;
    ReadsEvents(cas, actions, i, views, bs, block, read);
    E.CodeApart(E.Written(kv, blocks, 0), codes, block, read);
    E.ExportReadsFlat(states, kv, blocks, 0, block, address, slot, read);
  }

  /** The committed packages of the run are the export of the history, and the block is one of its blocks. */
  ghost predicate Exported(cas: Cas, actions: seq<Action>, i: nat, states: seq<L.State>, kv: L.Archive,
                           blocks: seq<L.Change>, codes: set<Record>, block: nat)
  {
    && i < |After(cas, actions).log| && block <= After(cas, actions).log[i].head.number && block <= |blocks|
    && L.History(states, blocks) && L.Baseline(states[0], kv)
    && Publishes(Packages(After(cas, actions).log), kv, blocks, codes)
  }

  /** The number of states an exported history goes through. */
  lemma ExportedStates(cas: Cas, actions: seq<Action>, i: nat, states: seq<L.State>, kv: L.Archive,
                       blocks: seq<L.Change>, codes: set<Record>, block: nat)
    requires Exported(cas, actions, i, states, kv, blocks, codes, block)
    ensures block < |states|
  {
    hide After, L.Baseline, Publishes;
    E.HistoryDistinct(states, blocks);
  }

  /**
   From bytes to state: a cold storage read by the Worker of any head of any run answers,
   if at all, with the flat state after the block; an honest store makes it answer.
   */
  method ReadState(worker: Worker.Reader, address: Hash20, slot: Hash32, block: U64,
                   ghost cas: Cas, ghost actions: seq<Action>, ghost i: nat, ghost states: seq<L.State>,
                   ghost kv: L.Archive, ghost blocks: seq<L.Change>, ghost codes: set<Record>)
    returns (r: Result<Hash32>)
    requires worker.Valid() && Worker.AllShaped(worker.backs)
    requires worker.gets == 1 && worker.fetched == Worker.MIB / 4
    requires Exported(cas, actions, i, states, kv, blocks, codes, block)
    requires Realizes(Runs(After(cas, actions).log[i].head), worker.runs, worker.backs)
    modifies worker`gets, worker`fetched, worker`shards
    ensures block < |states| && (r.Ok? ==> r.value == L.SlotOf(states[block], address, slot))
    ensures
      var read := key => FlatRead(Packages(After(cas, actions).log), key, block);
      (Worker.NoChance(worker.c, worker.runs, worker.backs, read, address, slot)
       && Worker.AllServed(worker.c, worker.runs, worker.backs, worker.objects, worker.summaries)) ==> r.Ok?
  {
    hide After, Realizes, ReadsAs, StorageOf, Worker.NoChance, Worker.AllServed, Worker.AllShaped, FlatRead;
    hide LiveAccountOf, L.History, L.Baseline, Publishes;
    ExportedStates(cas, actions, i, states, kv, blocks, codes, block);
    EveryRunAnswers(cas, actions, i, worker.runs, worker.backs, block);
    ghost var read := key => FlatRead(Packages(After(cas, actions).log), key, block);
    EveryRunReadsState(cas, actions, i, worker.runs, worker.backs, states, kv, blocks, codes, block, address, slot,
                       read);
    r := ReadAnyHead(worker, address, slot, block, cas, actions, i);
  }

  /** The same through the native reader. */
  method ReadStateNative(native: Native.Reader, address: Hash20, slot: Hash32, block: U64,
                         ghost cas: Cas, ghost actions: seq<Action>, ghost i: nat, ghost states: seq<L.State>,
                         ghost kv: L.Archive, ghost blocks: seq<L.Change>, ghost codes: set<Record>)
    returns (r: Result<Hash32>)
    requires native.Valid() && block <= native.number
    requires Exported(cas, actions, i, states, kv, blocks, codes, block)
    requires Realizes(Runs(After(cas, actions).log[i].head), native.runs, native.backs)
    modifies native`cache, native`gets, native`bytes
    ensures block < |states| && (r.Ok? ==> r.value == L.SlotOf(states[block], address, slot))
    ensures
      var read := key => FlatRead(Packages(After(cas, actions).log), key, block);
      (Worker.NoChance(native.c, native.runs, native.backs, read, address, slot)
       && Worker.AllServed(native.c, native.runs, native.backs, native.objects, native.summaries)) ==> r.Ok?
  {
    hide After, Realizes, ReadsAs, StorageOf, Worker.NoChance, Worker.AllServed, FlatRead;
    hide LiveAccountOf, L.History, L.Baseline, Publishes;
    ExportedStates(cas, actions, i, states, kv, blocks, codes, block);
    EveryRunAnswers(cas, actions, i, native.runs, native.backs, block);
    ghost var read := key => FlatRead(Packages(After(cas, actions).log), key, block);
    EveryRunReadsState(cas, actions, i, native.runs, native.backs, states, kv, blocks, codes, block, address, slot,
                       read);
    r := native.Storage(address, slot, block, read);
  }

  lemma FlatReadsEvents(h: Head, ps: seq<Package>, block: nat)
    requires HeadOk(h, ps)
    ensures ReadsAs(Events(ps), block, key => FlatRead(ps, key, block))
  {
    hide Runs, IsAnswer, Concat, Flat, Weight;
    EventsUnique(ps);
    ConcatEvents(ps);
    forall key ensures IsAnswer(Events(ps), key, block, FlatRead(ps, key, block)) {
      FlatIsAnswer(Concat(ps), key, block);
    }
  }

  lemma SameRead(rs: set<Record>, block: int, read: Lookups, other: Lookups, key: Bytes)
    requires ReadsAs(rs, block, read) && ReadsAs(rs, block, other)
    ensures read(key) == other(key)
  {
    SameAnswer(rs, block, read, key, other(key));
  }

  /** Reading a head of a run is reading all events committed by its end. */
  lemma ReadsEvents(cas: Cas, actions: seq<Action>, i: nat, views: seq<Views.View>, bs: seq<Views.Backing>,
                    block: nat, read: Lookups)
    requires i < |After(cas, actions).log| && block <= After(cas, actions).log[i].head.number
    requires Realizes(Runs(After(cas, actions).log[i].head), views, bs) && ReadsAs(Views.AllRecords(bs), block, read)
    ensures ReadsAs(Events(Packages(After(cas, actions).log)), block, read)
  {
    hide After, Realizes, ReadsAs, FlatRead, HeadOk;
    EveryRunAnswers(cas, actions, i, views, bs, block);
    EveryRunOk(cas, actions);
    var log := After(cas, actions).log;
    LogHeadOk(log);
    var ps := Packages(log);
    FlatReadsEvents(log[|log| - 1].head, ps, block);
    forall key ensures read(key) == FlatRead(ps, key, block) {
      SameRead(Views.AllRecords(bs), block, read, key => FlatRead(ps, key, block), key);
    }
    ReadsSame(Events(ps), block, key => FlatRead(ps, key, block), read);
  }

  /** A committed package owns its block interval among all committed events. */
  lemma PackageOwns(h: Head, ps: seq<Package>, k: nat, header: N.Header, keccak: Bytes -> Hash32, g: N.Segment,
                    input: Hash)
    requires HeadOk(h, ps) && k < |ps| && N.Accepted(header, keccak, g) && |g.blocks| <= MAX_BLOCKS
    requires ps[k] == P.ToPackage(header, g, input, P.SortRecords(P.Candidates(g)))
    ensures P.Owns(Events(ps), g)
  {
    hide P.SortRecords, P.Candidates, P.Candidate, Runs, Weight, N.Accepted, ManifestOk;
    P.AcceptedIsPublishable(header, keccak, g, input);
    forall r | P.Candidate(g, r) ensures r in Events(ps) { assert r in ps[k].records; }
    forall r | r in Events(ps) && N.Within(g.blocks, r.block) ensures P.Candidate(g, r) {
      var j :| 0 <= j < |ps| && r in ps[j].records;
      assert Publishable(ps[j]);
      if j < k { ChainOrder(ps, j, k); }
      if k < j { ChainOrder(ps, k, j); }
    }
  }

  /**
   Every storage record of a committed package that passed the lifecycle check, in an
   anchor or with an account record at or before its block in its package, reads back its
   own value at its own block from the committing head and every later one.
   */
  lemma EveryRunReadsBack(cas: Cas, actions: seq<Action>, i: nat, views: seq<Views.View>, bs: seq<Views.Backing>,
                          k: nat,
                          header: N.Header, keccak: Bytes -> Hash32, g: N.Segment, input: Hash,
                          e: N.StorageEvent, read: Lookups)
    requires i < |After(cas, actions).log| && e.block <= After(cas, actions).log[i].head.number
    requires Realizes(Runs(After(cas, actions).log[i].head), views, bs) && ReadsAs(Views.AllRecords(bs), e.block, read)
    requires N.Accepted(header, keccak, g) && |g.blocks| <= MAX_BLOCKS && P.Lifecycle(header.mode, g, keccak)
    requires k < |Packages(After(cas, actions).log)|
    requires Packages(After(cas, actions).log)[k] == P.ToPackage(header, g, input, P.SortRecords(P.Candidates(g)))
    requires e in g.storage
    requires header.mode == Anchor || exists a :: a in g.accounts && a.address == e.address && a.block <= e.block
    ensures StorageOf(read, e.address, e.slot) == Ok(e.value)
  {
    hide After, Realizes, ReadsAs, HeadOk, N.Accepted, P.ToPackage, P.SortRecords, P.Candidates, P.Owns;
    hide P.Established, StorageOf;
    ReadsEvents(cas, actions, i, views, bs, e.block, read);
    EveryRunOk(cas, actions);
    var log := After(cas, actions).log;
    LogHeadOk(log);
    PackageOwns(log[|log| - 1].head, Packages(log), k, header, keccak, g, input);
    P.StorageReadsBack(Events(Packages(log)), header, keccak, g, e, read);
  }
}
