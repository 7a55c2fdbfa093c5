/**
 Exports pass the lifecycle check. The journal that numbers the lives of an address makes
 every storage event carry the incarnation of the newest account event before it, so every
 package cut from a consistent history is accepted, and so is the baseline with its code.
 */
module ExportLifecycle {
  import opened Bytes
  import opened Versions
  import opened Keys
  import opened Ledger
  import opened ExportPackages
  import L = Lifetimes
  import E = Exports
  import N = Normalized
  import P = Packaging

  /** The export of a consistent history, and a package that starts behind block `m`. */
  ghost predicate Case(states: seq<L.State>, kv: L.Archive, blocks: seq<L.Change>, headers: seq<Block>,
                       codes: seq<seq<N.CodeBlob>>, keccak: Bytes -> Hash32, m: nat, n: nat)
  {
    && Exporting(kv, blocks, headers, codes) && m <= n <= |blocks| && FreshCodes(keccak, codes, m, n)
    && L.History(states, blocks) && L.Baseline(states[0], kv)
  }

  lemma CaseBefore(states: seq<L.State>, kv: L.Archive, blocks: seq<L.Change>, headers: seq<Block>,
                   codes: seq<seq<N.CodeBlob>>, keccak: Bytes -> Hash32, m: nat, n: nat)
    requires Case(states, kv, blocks, headers, codes, keccak, m, n) && m < n
    ensures Case(states, kv, blocks, headers, codes, keccak, m, n - 1)
    ensures CodeFresh(keccak, codes[n - 1], n, Seen(codes, m, n - 1))
  {
    hide Exporting, L.History, L.Baseline, CodeFresh, Seen;
  }

  lemma CaseSizes(states: seq<L.State>, kv: L.Archive, blocks: seq<L.Change>, headers: seq<Block>,
                  codes: seq<seq<N.CodeBlob>>, keccak: Bytes -> Hash32, m: nat, n: nat)
    requires Case(states, kv, blocks, headers, codes, keccak, m, n)
    ensures |headers| == |codes| == |blocks| < 0x1_0000_0000_0000_0000 && |states| == |blocks| + 1
  {
    hide L.Baseline, FreshCodes;
    Lengths(kv, blocks, headers, codes);
  }

  ghost function Segment(kv: L.Archive, blocks: seq<L.Change>, headers: seq<Block>, codes: seq<seq<N.CodeBlob>>,
                         m: nat, n: nat): N.Segment
    requires Exporting(kv, blocks, headers, codes) && m <= n <= |blocks|
  {
    N.Body(Chunks(kv, blocks, headers, codes, m, n))
  }

  /** What block `i` adds to a package: its account and storage events, as the journal wrote them. */
  lemma ChunkParts(kv: L.Archive, blocks: seq<L.Change>, headers: seq<Block>, codes: seq<seq<N.CodeBlob>>, i: nat,
                   keccak: Bytes -> Hash32, seen: set<Hash32>)
    requires Exporting(kv, blocks, headers, codes) && i < |blocks| < 0x1_0000_0000_0000_0000
    requires CodeFresh(keccak, codes[i], i + 1, seen)
    ensures L.Exported(kv, blocks[..i]).Some?
    ensures L.AccountsOut(L.Exported(kv, blocks[..i]).value.0, blocks[i].accounts).Some?
    ensures
      var (rows, accounts) := L.AccountsOut(L.Exported(kv, blocks[..i]).value.0, blocks[i].accounts).value;
      && L.StorageOut(rows, blocks[i].storage).Some?
      && var storage := L.StorageOut(rows, blocks[i].storage).value;
         var c := ChunkAt(kv, blocks, headers, codes, i);
         && AccountsFit(accounts) && StorageFits(storage) && c.code == codes[i]
         && c.accounts == AccountLines(accounts, i + 1) && c.storage == StorageLines(storage, i + 1)
         && accounts + storage == E.LastEvents(kv, blocks[..i + 1])
         && L.BlockOut(L.Exported(kv, blocks[..i]).value.0, blocks[i]) == Some((rows, accounts + storage))
  {
    hide L.Exported, N.ChunkOk, E.LastEvents, AccountsFit, StorageFits, InOrder, CodeFresh, L.AccountsOut, L.StorageOut;
    BlockEvents(kv, blocks, i);
    ChunkAccepted(keccak, L.Exported(kv, blocks[..i]).value.0, blocks[i], headers[i], codes[i], seen);
  }

  lemma SegmentMore(kv: L.Archive, blocks: seq<L.Change>, headers: seq<Block>, codes: seq<seq<N.CodeBlob>>, m: nat,
                    n: nat)
    requires Exporting(kv, blocks, headers, codes) && m < n <= |blocks|
    ensures
      var before, c := Segment(kv, blocks, headers, codes, m, n - 1), ChunkAt(kv, blocks, headers, codes, n - 1);
      var g := Segment(kv, blocks, headers, codes, m, n);
      && g.accounts == before.accounts + c.accounts && g.storage == before.storage + c.storage
      && g.code == before.code + c.code
  {
    hide Exporting, ChunkAt, Chunks, N.Body;
    MoreChunks(kv, blocks, headers, codes, m, n);
    BodyMore(Chunks(kv, blocks, headers, codes, m, n - 1), ChunkAt(kv, blocks, headers, codes, n - 1));
  }

  lemma SegmentNone(kv: L.Archive, blocks: seq<L.Change>, headers: seq<Block>, codes: seq<seq<N.CodeBlob>>, m: nat)
    requires Exporting(kv, blocks, headers, codes) && m <= |blocks|
    ensures Segment(kv, blocks, headers, codes, m, m) == N.Segment([], [], [], [])
  {
    hide Exporting, Chunks, N.Body;
    NoChunks(kv, blocks, headers, codes, m);
  }

  // ---------------------------------------------------------------- events and their blocks

  lemma {:induction false} AccountBlocks(states: seq<L.State>, kv: L.Archive, blocks: seq<L.Change>,
                                         headers: seq<Block>, codes: seq<seq<N.CodeBlob>>, keccak: Bytes -> Hash32,
                                         m: nat, n: nat)
    requires Case(states, kv, blocks, headers, codes, keccak, m, n)
    ensures forall x :: x in Segment(kv, blocks, headers, codes, m, n).accounts ==> x.block <= n
    decreases n
  {
    hide Exporting, L.History, L.Baseline, FreshCodes, CodeFresh, Segment, ChunkAt, AccountsFit, StorageFits, AccountOf;
    hide L.Exported, L.AccountsOut, L.StorageOut, E.LastEvents, L.BlockOut, Seen;
    CaseSizes(states, kv, blocks, headers, codes, keccak, m, n);
    if n == m {
      SegmentNone(kv, blocks, headers, codes, m);
    } else {
      CaseBefore(states, kv, blocks, headers, codes, keccak, m, n);
      AccountBlocks(states, kv, blocks, headers, codes, keccak, m, n - 1);
      SegmentMore(kv, blocks, headers, codes, m, n);
      ChunkParts(kv, blocks, headers, codes, n - 1, keccak, Seen(codes, m, n - 1));
      var accounts := L.AccountsOut(L.Exported(kv, blocks[..n - 1]).value.0, blocks[n - 1].accounts).value.1;
      LinesAt(accounts, n);
    }
  }

  lemma LinesAt(accounts: seq<L.Event>, block: U64)
    requires AccountsFit(accounts)
    ensures forall x :: x in AccountLines(accounts, block) ==>
              x.block == block && exists e :: e in accounts && IsLine(e, block, x)
  {
    hide E.EventFits;
    forall x | x in AccountLines(accounts, block)
      ensures x.block == block && exists e :: e in accounts && IsLine(e, block, x)
    {
      var p :| 0 <= p < |accounts| && AccountLines(accounts, block)[p] == x;
      assert IsLine(accounts[p], block, x);
    }
  }

  ghost predicate IsLine(e: L.Event, block: U64, x: N.AccountEvent)
  {
    e.key.Account? && E.EventFits(e) && x == AccountOf(e, block) && e.key == L.Account(x.address)
  }

  /** The accounts of a package up to a block are those of the package cut there. */
  lemma {:induction false} AccountsUpTo(states: seq<L.State>, kv: L.Archive, blocks: seq<L.Change>,
                                        headers: seq<Block>, codes: seq<seq<N.CodeBlob>>, keccak: Bytes -> Hash32,
                                        m: nat, j: nat, n: nat)
    requires Case(states, kv, blocks, headers, codes, keccak, m, n) && m <= j <= n
    ensures
      var g, cut := Segment(kv, blocks, headers, codes, m, n), Segment(kv, blocks, headers, codes, m, j);
      && (forall x :: x in cut.accounts ==> x in g.accounts)
      && forall x :: x in g.accounts && x.block <= j ==> x in cut.accounts
    decreases n
  {
    hide Exporting, L.History, L.Baseline, FreshCodes, CodeFresh, Segment, ChunkAt, AccountsFit, StorageFits, AccountOf;
    hide L.Exported, L.AccountsOut, L.StorageOut, E.LastEvents, L.BlockOut, Seen, IsLine;
    CaseSizes(states, kv, blocks, headers, codes, keccak, m, n);
    if j < n {
      CaseBefore(states, kv, blocks, headers, codes, keccak, m, n);
      AccountsUpTo(states, kv, blocks, headers, codes, keccak, m, j, n - 1);
      SegmentMore(kv, blocks, headers, codes, m, n);
      ChunkParts(kv, blocks, headers, codes, n - 1, keccak, Seen(codes, m, n - 1));
      LinesAt(L.AccountsOut(L.Exported(kv, blocks[..n - 1]).value.0, blocks[n - 1].accounts).value.1, n);
    }
  }

  // ---------------------------------------------------------------- the newest account event is the archive's

  /** The archive holds the event the account record was made of. */
  ghost predicate Held(x: N.AccountEvent, archive: L.Archive)
  {
    exists e :: IsLine(e, x.block, x) && L.Get(archive, e.key) == Some(e.value)
  }

  ghost predicate Agrees(accounts: seq<N.AccountEvent>, block: nat, archive: L.Archive)
  {
    forall x: N.AccountEvent :: P.IsLatest(accounts, x.address, block, x) ==> Held(x, archive)
  }

  lemma Distinct(events: seq<L.Event>, d: L.Event, e: L.Event)
    requires E.DistinctEvents(events) && d in events && e in events && d.key == e.key
    ensures d == e
  {
    var i :| 0 <= i < |events| && events[i] == d;
    var j :| 0 <= j < |events| && events[j] == e;
  }

  /** One more block keeps the newest account events and the archive in step. */
  lemma AgreesMore(before: seq<N.AccountEvent>, archive: L.Archive, accounts: seq<L.Event>, storage: seq<L.Event>,
                   n: U64)
    requires n > 0 && Agrees(before, n - 1, archive) && AccountsFit(accounts)
    requires forall x :: x in before ==> x.block < n
    requires E.DistinctEvents(accounts + storage) && forall e :: e in storage ==> e.key.Storage?
    ensures Agrees(before + AccountLines(accounts, n), n, L.Apply(archive, accounts + storage))
  {
    hide L.Apply, AccountOf, E.EventFits;
    var events, lines := accounts + storage, AccountLines(accounts, n);
    var all := before + lines;
    LinesAt(accounts, n);
    forall x: N.AccountEvent | P.IsLatest(all, x.address, n, x) ensures Held(x, L.Apply(archive, events)) {
      E.ApplyGet(archive, events, L.Account(x.address));
      if x in lines {
        var e :| e in accounts && IsLine(e, n, x);
        assert e in events;
        OneValue(archive, events, e);
      } else {
        NoNewer(before, accounts, n, x);
        assert P.IsLatest(before, x.address, n - 1, x);
        var e :| IsLine(e, x.block, x) && L.Get(archive, e.key) == Some(e.value);
        forall d | d in events ensures d.key != L.Account(x.address) { if d in storage { assert d.key.Storage?; } }
      }
    }
  }

  lemma OneValue(archive: L.Archive, events: seq<L.Event>, e: L.Event)
    requires E.DistinctEvents(events) && e in events
    ensures L.Get(L.Apply(archive, events), e.key) == Some(e.value)
  {
    hide L.Apply, E.DistinctEvents;
    E.ApplyGet(archive, events, e.key);
    if d :| d in events && d.key == e.key && L.Get(L.Apply(archive, events), e.key) == Some(d.value) {
      Distinct(events, d, e);
    }
  }

  /** A newest account event of an earlier block means the block has none of that address. */
  lemma NoNewer(before: seq<N.AccountEvent>, accounts: seq<L.Event>, n: U64, x: N.AccountEvent)
    requires AccountsFit(accounts) && P.IsLatest(before + AccountLines(accounts, n), x.address, n, x) && x.block < n
    ensures forall e :: e in accounts ==> e.key != L.Account(x.address)
  {
    hide E.EventFits;
    forall e | e in accounts ensures e.key != L.Account(x.address) {
      var p :| 0 <= p < |accounts| && accounts[p] == e;
      var y := AccountLines(accounts, n)[p];
      assert y in before + AccountLines(accounts, n) && y.block == n && y.address == e.key.address;
    }
  }

  lemma {:induction false} LatestAgrees(states: seq<L.State>, kv: L.Archive, blocks: seq<L.Change>,
                                        headers: seq<Block>, codes: seq<seq<N.CodeBlob>>, keccak: Bytes -> Hash32,
                                        m: nat, n: nat)
    requires Case(states, kv, blocks, headers, codes, keccak, m, n)
    ensures L.Exported(kv, blocks[..n]).Some?
    ensures Agrees(Segment(kv, blocks, headers, codes, m, n).accounts, n, L.Exported(kv, blocks[..n]).value.1)
    decreases n
  {
    hide Exporting, L.History, L.Baseline, FreshCodes, CodeFresh, Segment, ChunkAt, AccountsFit, StorageFits, Agrees;
    hide L.Exported, L.AccountsOut, L.StorageOut, E.LastEvents, L.BlockOut, Seen, L.Apply, E.DistinctEvents;
    CaseSizes(states, kv, blocks, headers, codes, keccak, m, n);
    ExportingExported(kv, blocks, headers, codes);
    ExportedPrefix(kv, blocks, n);
    if n == m {
      SegmentNone(kv, blocks, headers, codes, m);
      NoneAgree(n, L.Exported(kv, blocks[..n]).value.1);
    } else {
      CaseBefore(states, kv, blocks, headers, codes, keccak, m, n);
      LatestAgrees(states, kv, blocks, headers, codes, keccak, m, n - 1);
      AccountBlocks(states, kv, blocks, headers, codes, keccak, m, n - 1);
      SegmentMore(kv, blocks, headers, codes, m, n);
      ChunkParts(kv, blocks, headers, codes, n - 1, keccak, Seen(codes, m, n - 1));
      var rows := L.Exported(kv, blocks[..n - 1]).value.0;
      var (after, accounts) := L.AccountsOut(rows, blocks[n - 1].accounts).value;
      var storage := L.StorageOut(after, blocks[n - 1].storage).value;
      E.HistoryDistinct(states, blocks);
      E.BlockDistinct(rows, blocks[n - 1]);
      KeysOfStorage(storage);
      assert blocks[..n][..n - 1] == blocks[..n - 1];
      E.StepArchive(kv, blocks[..n]);
      AgreesMore(Segment(kv, blocks, headers, codes, m, n - 1).accounts, L.Exported(kv, blocks[..n - 1]).value.1,
                 accounts, storage, n);
    }
  }

  lemma KeysOfStorage(storage: seq<L.Event>)
    requires StorageFits(storage)
    ensures forall e :: e in storage ==> e.key.Storage?
  {
  }

  lemma ExportingExported(kv: L.Archive, blocks: seq<L.Change>, headers: seq<Block>, codes: seq<seq<N.CodeBlob>>)
    requires Exporting(kv, blocks, headers, codes)
    ensures L.Exported(kv, blocks).Some?
  {
  }

  lemma NoneAgree(n: nat, archive: L.Archive)
    ensures Agrees([], n, archive)
  {
  }

  // ---------------------------------------------------------------- storage events

  /** The block of a storage event of a package, and the event it was made of. */
  lemma {:induction false} StorageIn(states: seq<L.State>, kv: L.Archive, blocks: seq<L.Change>, headers: seq<Block>,
                                     codes: seq<seq<N.CodeBlob>>, keccak: Bytes -> Hash32, m: nat, n: nat,
                                     e: N.StorageEvent)
    returns (i: nat)
    requires Case(states, kv, blocks, headers, codes, keccak, m, n)
    requires e in Segment(kv, blocks, headers, codes, m, n).storage
    ensures m <= i < n && e.block == i + 1 && e in ChunkAt(kv, blocks, headers, codes, i).storage
    decreases n
  {
    hide Exporting, L.History, L.Baseline, FreshCodes, CodeFresh, Segment, ChunkAt, AccountsFit, StorageFits, SlotOf;
    hide L.Exported, L.AccountsOut, L.StorageOut, E.LastEvents, L.BlockOut, Seen;
    CaseSizes(states, kv, blocks, headers, codes, keccak, m, n);
    if n == m {
      SegmentNone(kv, blocks, headers, codes, m);
    } else {
      CaseBefore(states, kv, blocks, headers, codes, keccak, m, n);
      SegmentMore(kv, blocks, headers, codes, m, n);
      if e in Segment(kv, blocks, headers, codes, m, n - 1).storage {
        i := StorageIn(states, kv, blocks, headers, codes, keccak, m, n - 1, e);
      } else {
        i := n - 1;
        ChunkParts(kv, blocks, headers, codes, i, keccak, Seen(codes, m, i));
        var rows := L.AccountsOut(L.Exported(kv, blocks[..i]).value.0, blocks[i].accounts).value.0;
        SlotLinesAt(L.StorageOut(rows, blocks[i].storage).value, n);
      }
    }
  }

  lemma SlotLinesAt(storage: seq<L.Event>, block: U64)
    requires StorageFits(storage)
    ensures forall x :: x in StorageLines(storage, block) ==>
              x.block == block && exists d :: d in storage && d.key == L.Storage(x.address, x.incarnation, x.slot)
  {
    hide E.EventFits;
    forall x | x in StorageLines(storage, block)
      ensures x.block == block && exists d :: d in storage && d.key == L.Storage(x.address, x.incarnation, x.slot)
    {
      var p :| 0 <= p < |storage| && StorageLines(storage, block)[p] == x;
      assert storage[p] in storage;
    }
  }

  lemma {:induction false} FindsSome<V>(pairs: seq<(L.Address, V)>, i: nat)
    requires i < |pairs|
    ensures L.Find(pairs, pairs[i].0).Some?
  {
    if i < |pairs| - 1 { FindsSome(pairs[..|pairs| - 1], i); }
  }

  /** A storage event is of a live account, under its current incarnation. */
  lemma StorageLives(states: seq<L.State>, kv: L.Archive, blocks: seq<L.Change>, headers: seq<Block>,
                     codes: seq<seq<N.CodeBlob>>, keccak: Bytes -> Hash32, seen: set<Hash32>, i: nat,
                     e: N.StorageEvent)
    requires Exporting(kv, blocks, headers, codes) && i < |blocks| < 0x1_0000_0000_0000_0000
    requires L.History(states, blocks) && L.Baseline(states[0], kv) && CodeFresh(keccak, codes[i], i + 1, seen)
    requires e in ChunkAt(kv, blocks, headers, codes, i).storage
    ensures L.Exported(kv, blocks[..i + 1]).Some? && |states| == |blocks| + 1
    ensures
      var (rows, archive) := L.Exported(kv, blocks[..i + 1]).value;
      && e.address in states[i + 1] && e.incarnation == L.IncarnationOf(rows, e.address)
      && L.TracksAt(rows, archive, states[i + 1], e.address)
  {
    hide Exporting, CodeFresh, ChunkAt, AccountsFit, StorageFits, L.Exported, L.AccountsOut, L.StorageOut, E.LastEvents;
    hide L.BlockOut, L.Baseline, L.TracksAt, L.Apply, L.StepAt;
    ChunkParts(kv, blocks, headers, codes, i, keccak, seen);
    ExportingExported(kv, blocks, headers, codes);
    ExportedPrefix(kv, blocks, i + 1);
    var (rows, accounts) := L.AccountsOut(L.Exported(kv, blocks[..i]).value.0, blocks[i].accounts).value;
    var storage := L.StorageOut(rows, blocks[i].storage).value;
    SlotLinesAt(storage, i + 1);
    var d :| d in storage && d.key == L.Storage(e.address, e.incarnation, e.slot);
    L.StorageCurrent(rows, blocks[i].storage);
    assert L.Step(states[i], blocks[i], states[i + 1]);
    E.StorageEvents(rows, blocks[i].storage);
    var j :| 0 <= j < |blocks[i].storage| && blocks[i].storage[j].0 == e.address;
    FindsSome(blocks[i].storage, j);
    StepLives(states[i], blocks[i], e.address, states[i + 1]);
    RowsAfter(kv, blocks, i);
    assert L.History(states[..i + 2], blocks[..i + 1]);
    L.ExportTracks(states[..i + 2], kv, blocks[..i + 1]);
  }

  lemma StepLives(before: L.State, c: L.Change, a: L.Address, after: L.State)
    requires L.Step(before, c, after) && L.Find(c.storage, a).Some?
    ensures a in after
  {
    assert L.StepAt(before, c, a, after);
  }

  lemma RowsAfter(kv: L.Archive, blocks: seq<L.Change>, i: nat)
    requires i < |blocks| && L.Exported(kv, blocks[..i]).Some? && L.Exported(kv, blocks[..i + 1]).Some?
    requires L.BlockOut(L.Exported(kv, blocks[..i]).value.0, blocks[i]).Some?
    ensures L.Exported(kv, blocks[..i + 1]).value.0
            == L.BlockOut(L.Exported(kv, blocks[..i]).value.0, blocks[i]).value.0
  {
    hide L.BlockOut, L.Apply;
    assert blocks[..i + 1][..i] == blocks[..i];
  }

  // ---------------------------------------------------------------- packages pass

  lemma Matches(rows: L.Rows, archive: L.Archive, st: L.State, a: N.AccountEvent, e: N.StorageEvent)
    requires Held(a, archive) && L.TracksAt(rows, archive, st, a.address) && a.address == e.address && e.address in st
    requires e.incarnation == L.IncarnationOf(rows, e.address)
    ensures a.state.live && a.state.incarnation == e.incarnation
  {
    var d :| IsLine(d, a.block, a) && L.Get(archive, d.key) == Some(d.value);
  }

  lemma StorageMatches(states: seq<L.State>, kv: L.Archive, blocks: seq<L.Change>, headers: seq<Block>,
                       codes: seq<seq<N.CodeBlob>>, keccak: Bytes -> Hash32, m: nat, n: nat, e: N.StorageEvent,
                       a: N.AccountEvent)
    requires Case(states, kv, blocks, headers, codes, keccak, m, n)
    requires e in Segment(kv, blocks, headers, codes, m, n).storage
    requires P.IsLatest(Segment(kv, blocks, headers, codes, m, n).accounts, e.address, e.block, a)
    ensures a.state.live && a.state.incarnation == e.incarnation
  {
    hide Exporting, L.History, L.Baseline, CodeFresh, Segment, ChunkAt, L.Exported, Seen, Held, L.TracksAt;
    CaseSizes(states, kv, blocks, headers, codes, keccak, m, n);
    var i := StorageIn(states, kv, blocks, headers, codes, keccak, m, n, e);
    AccountsUpTo(states, kv, blocks, headers, codes, keccak, m, i + 1, n);
    CaseCut(states, kv, blocks, headers, codes, keccak, m, i + 1, n);
    LatestAgrees(states, kv, blocks, headers, codes, keccak, m, i + 1);
    assert P.IsLatest(Segment(kv, blocks, headers, codes, m, i + 1).accounts, a.address, i + 1, a);
    StorageLives(states, kv, blocks, headers, codes, keccak, Seen(codes, m, i), i, e);
    var (rows, archive) := L.Exported(kv, blocks[..i + 1]).value;
    Matches(rows, archive, states[i + 1], a, e);
  }

  lemma CaseCut(states: seq<L.State>, kv: L.Archive, blocks: seq<L.Change>, headers: seq<Block>,
                codes: seq<seq<N.CodeBlob>>, keccak: Bytes -> Hash32, m: nat, j: nat, n: nat)
    requires Case(states, kv, blocks, headers, codes, keccak, m, n) && m <= j <= n
    ensures Case(states, kv, blocks, headers, codes, keccak, m, j)
    ensures forall i :: m <= i < n ==> CodeFresh(keccak, codes[i], i + 1, Seen(codes, m, i))
  {
    hide Exporting, L.History, L.Baseline, CodeFresh, Seen;
  }

  /** Every package cut from the export of a consistent history passes the lifecycle check. */
  lemma CutsPass(states: seq<L.State>, kv: L.Archive, blocks: seq<L.Change>, headers: seq<Block>,
                 codes: seq<seq<N.CodeBlob>>, keccak: Bytes -> Hash32, m: nat, n: nat, h: N.Header)
    requires Case(states, kv, blocks, headers, codes, keccak, m, n) && m < n && Continues(h, headers, m)
    ensures P.Lifecycle(Delta, Segment(kv, blocks, headers, codes, m, n), keccak)
  {
    hide Exporting, L.History, L.Baseline, FreshCodes, Segment, P.Lifecycle, N.ParseOf, N.BodyLines;
    var g := Segment(kv, blocks, headers, codes, m, n);
    SegmentAccounts(kv, blocks, headers, codes, m, n, h, keccak);
    forall e, a | e in g.storage && P.IsLatest(g.accounts, e.address, e.block, a)
      ensures a.state.live && a.state.incarnation == e.incarnation
    {
      StorageMatches(states, kv, blocks, headers, codes, keccak, m, n, e, a);
    }
    P.LifecycleIff(Delta, g.blocks, g, keccak);
  }

  lemma SegmentAccounts(kv: L.Archive, blocks: seq<L.Change>, headers: seq<Block>, codes: seq<seq<N.CodeBlob>>,
                        m: nat, n: nat, h: N.Header, keccak: Bytes -> Hash32)
    requires Exporting(kv, blocks, headers, codes) && m < n <= |blocks| && FreshCodes(keccak, codes, m, n)
    requires Continues(h, headers, m)
    ensures
      var g := Segment(kv, blocks, headers, codes, m, n);
      N.Accepted(h, keccak, g) && N.AccountsOk(g.blocks, g.accounts)
  {
    hide Exporting, FreshCodes, N.ParseOf, N.BodyLines, Chunks, N.Body, N.AccountsOk;
    Lengths(kv, blocks, headers, codes);
    ExportParses(kv, blocks, headers, codes, m, n, h, keccak);
    var chunks := Chunks(kv, blocks, headers, codes, m, n);
    var lines := N.BodyLines(h, keccak, chunks) + [N.TrailerLine(n, headers[n - 1].hash, n - m)];
    N.ParsedAccepted(h, lines, keccak);
  }

  // ---------------------------------------------------------------- the baseline passes

  /** A segment of the baseline: every account and every slot of it, at block zero. */
  ghost predicate BaseSegment(kv: L.Archive, g: N.Segment)
  {
    && (forall x :: x in g.accounts <==> exists k :: k in kv && k.Account? && IsLine(L.Event(k, kv[k]), 0, x))
    && (forall e :: e in g.storage ==>
          && e.block == 0 && L.Storage(e.address, e.incarnation, e.slot) in kv)
  }

  /** The baseline passes as an anchor exactly when it brings the code of its accounts. */
  lemma BasePasses(st: L.State, kv: L.Archive, g: N.Segment, keccak: Bytes -> Hash32)
    requires L.Baseline(st, kv) && BaseSegment(kv, g) && E.Fits(kv, [], 0) && N.AccountsOk(g.blocks, g.accounts)
    ensures P.Lifecycle(Anchor, g, keccak) <==>
            forall a :: a in st && st[a].info.codeHash != keccak([]) ==>
              exists b :: b in g.code && b.hash == st[a].info.codeHash
  {
    hide N.AccountsOk, P.Lifecycle;
    P.LifecycleIff(Anchor, g.blocks, g, keccak);
    forall e | e in g.storage ensures exists a :: a in g.accounts && a.address == e.address && a.block <= e.block {
      assert L.Storage(e.address, e.incarnation, e.slot) in kv;
      var x := BaseAccount(st, kv, g, e.address);
    }
    forall x | x in g.accounts
      ensures x.address in st && x.state.live && x.state.incarnation == 0
              && x.state.codeHash == st[x.address].info.codeHash
    {
      var k :| k in kv && k.Account? && IsLine(L.Event(k, kv[k]), 0, x);
    }
    forall a | a in st ensures exists x :: x in g.accounts && x.address == a { var x := BaseAccount(st, kv, g, a); }
  }

  lemma BaseAccount(st: L.State, kv: L.Archive, g: N.Segment, a: L.Address) returns (x: N.AccountEvent)
    requires L.Baseline(st, kv) && BaseSegment(kv, g) && E.Fits(kv, [], 0) && a in st
    ensures x in g.accounts && x.address == a && x.block == 0
  {
    var k := L.Account(a);
    assert k in kv && E.EventFits(L.Event(k, kv[k]));
    x := AccountOf(L.Event(k, kv[k]), 0);
    assert IsLine(L.Event(k, kv[k]), 0, x);
  }
}
