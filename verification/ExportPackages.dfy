/**
 From the exporter's events to packages: what the exporter writes for a block is accepted
 line by line, and the records of the packages cut from an export are exactly the records
 of its history, with its code blobs beside them.
 */
module ExportPackages {
  import opened Bytes
  import opened Versions
  import opened Keys
  import opened Ledger
  import Archive
  import History
  import L = Lifetimes
  import E = Exports
  import N = Normalized
  import P = Packaging

  // ---------------------------------------------------------------- byte order of storage keys

  lemma {:induction false} LessBehind(p: Bytes, s: Bytes, t: Bytes)
    requires Less(s, t)
    ensures Less(p + s, p + t)
  {
    if p == [] {
      assert p + s == s && p + t == t;
    } else {
      LessBehind(p[1..], s, t);
      assert (p + s)[1..] == p[1..] + s && (p + t)[1..] == p[1..] + t;
    }
  }

  lemma {:induction false} LessAhead(a: Bytes, b: Bytes, x: Bytes, y: Bytes)
    requires |a| == |b| && Less(a, b)
    ensures Less(a + x, b + y)
  {
    if a[0] == b[0] { LessAhead(a[1..], b[1..], x, y); }
    assert (a + x)[1..] == a[1..] + x && (b + y)[1..] == b[1..] + y;
  }

  lemma AddressOrder(a: Hash20, b: Hash20, i: U64, j: U64, s: Hash32, t: Hash32)
    requires Less(a, b)
    ensures Less(StorageKey(a, i, s), StorageKey(b, j, t))
  {
    hide Less, U64Bytes;
    LessAhead(a, b, U64Bytes(i) + s, U64Bytes(j) + t);
    LessBehind([2], a + (U64Bytes(i) + s), b + (U64Bytes(j) + t));
    assert [2] + (a + (U64Bytes(i) + s)) == StorageKey(a, i, s);
    assert [2] + (b + (U64Bytes(j) + t)) == StorageKey(b, j, t);
  }

  lemma SlotOrder(a: Hash20, i: U64, s: Hash32, t: Hash32)
    requires Less(s, t)
    ensures Less(StorageKey(a, i, s), StorageKey(a, i, t))
  {
    hide Less, U64Bytes;
    LessBehind([2] + a + U64Bytes(i), s, t);
  }

  // ---------------------------------------------------------------- one block

  ghost predicate Ascending<V>(pairs: seq<(Bytes, V)>)
  {
    forall i, j :: 0 <= i < j < |pairs| ==> Less(pairs[i].0, pairs[j].0)
  }

  /** The changes of a block in the order the exporter writes them. */
  ghost predicate InOrder(c: L.Change)
  {
    Ascending(c.accounts) && Ascending(c.storage) && forall i :: 0 <= i < |c.storage| ==> Ascending(c.storage[i].1)
  }

  /** Storage events in the byte order of their keys. */
  ghost predicate KeysAscend(events: seq<L.Event>)
  {
    forall i, j :: 0 <= i < j < |events| ==> Less(E.KeyBytes(events[i].key), E.KeyBytes(events[j].key))
  }

  lemma {:induction false} SlotsAscend(a: L.Address, incarnation: nat, slots: seq<(L.Slot, L.Value)>)
    requires Ascending(slots) && E.AllFit(L.SlotsOut(a, incarnation, slots))
    ensures KeysAscend(L.SlotsOut(a, incarnation, slots))
  {
    hide Less, StorageKey;
    E.SlotEvents(a, incarnation, slots);
    var events := L.SlotsOut(a, incarnation, slots);
    forall i, j | 0 <= i < j < |events| ensures Less(E.KeyBytes(events[i].key), E.KeyBytes(events[j].key)) {
      assert events[i] in events && events[j] in events;
      assert E.EventFits(events[i]) && E.EventFits(events[j]);
      SlotOrder(a, incarnation, slots[i].0, slots[j].0);
    }
  }

  lemma {:induction false} StorageAscends(rows: L.Rows, storage: seq<(L.Address, seq<(L.Slot, L.Value)>)>)
    requires Ascending(storage) && (forall i :: 0 <= i < |storage| ==> Ascending(storage[i].1))
    requires L.StorageOut(rows, storage).Some? && E.AllFit(L.StorageOut(rows, storage).value)
    ensures KeysAscend(L.StorageOut(rows, storage).value)
    ensures forall e :: e in L.StorageOut(rows, storage).value ==> E.OfAddress(storage, e.key)
  {
    hide Less, L.SlotsOut, E.KeyBytes, E.EventFits;
    if storage != [] {
      var last := |storage| - 1;
      var front := storage[..last];
      var (a, slots) := storage[last];
      var before, group := L.StorageOut(rows, front).value, L.SlotsOut(a, L.IncarnationOf(rows, a), slots);
      var events := L.StorageOut(rows, storage).value;
      assert events == before + group;
      StorageAscends(rows, front);
      E.SlotEvents(a, L.IncarnationOf(rows, a), slots);
      SlotsAscend(a, L.IncarnationOf(rows, a), slots);
      forall e | e in events ensures E.OfAddress(storage, e.key) {
        if e in before { FrontAddress(storage, e.key); } else { assert storage[last].0 == e.key.address; }
      }
      forall i, j | 0 <= i < |before| && 0 <= j < |group|
        ensures Less(E.KeyBytes(before[i].key), E.KeyBytes(group[j].key))
      {
        assert before[i] in events && group[j] in events && before[i] in before;
        GroupsApart(storage, before[i], group[j]);
      }
    }
  }

  lemma FrontAddress(storage: seq<(L.Address, seq<(L.Slot, L.Value)>)>, k: L.StateKey)
    requires storage != [] && E.OfAddress(storage[..|storage| - 1], k)
    ensures E.OfAddress(storage, k)
  {
    var i :| 0 <= i < |storage| - 1 && storage[..|storage| - 1][i].0 == k.address;
    assert storage[i].0 == k.address;
  }

  lemma GroupsApart(storage: seq<(L.Address, seq<(L.Slot, L.Value)>)>, e: L.Event, f: L.Event)
    requires storage != [] && Ascending(storage) && E.OfAddress(storage[..|storage| - 1], e.key)
    requires f.key.Storage? && f.key.address == storage[|storage| - 1].0 && E.EventFits(e) && E.EventFits(f)
    ensures Less(E.KeyBytes(e.key), E.KeyBytes(f.key))
  {
    hide Less, StorageKey;
    var i :| 0 <= i < |storage| - 1 && storage[..|storage| - 1][i].0 == e.key.address;
    assert Less(storage[i].0, storage[|storage| - 1].0);
    AddressOrder(e.key.address, f.key.address, e.key.incarnation, f.key.incarnation, e.key.slot, f.key.slot);
  }

  // ---------------------------------------------------------------- as normalized events

  ghost predicate AccountsFit(events: seq<L.Event>)
  {
    forall i :: 0 <= i < |events| ==> events[i].key.Account? && E.EventFits(events[i])
  }

  ghost predicate StorageFits(events: seq<L.Event>)
  {
    forall i :: 0 <= i < |events| ==> events[i].key.Storage? && E.EventFits(events[i])
  }

  ghost function AccountOf(e: L.Event, block: U64): N.AccountEvent
    requires e.key.Account? && E.EventFits(e)
  {
    N.AccountEvent(block, e.key.address, E.StateOf(e.value.incarnation, e.value.info))
  }

  ghost function SlotOf(e: L.Event, block: U64): N.StorageEvent
    requires e.key.Storage? && E.EventFits(e)
  {
    N.StorageEvent(block, e.key.address, e.key.incarnation, e.key.slot, e.value.value)
  }

  ghost function AccountLines(events: seq<L.Event>, block: U64): (out: seq<N.AccountEvent>)
    requires AccountsFit(events)
    ensures |out| == |events| && forall i :: 0 <= i < |events| ==> out[i] == AccountOf(events[i], block)
  {
    seq(|events|, i requires 0 <= i < |events| => AccountOf(events[i], block))
  }

  ghost function StorageLines(events: seq<L.Event>, block: U64): (out: seq<N.StorageEvent>)
    requires StorageFits(events)
    ensures |out| == |events| && forall i :: 0 <= i < |events| ==> out[i] == SlotOf(events[i], block)
  {
    seq(|events|, i requires 0 <= i < |events| => SlotOf(events[i], block))
  }

  /** The record of an event is the record its normalized form becomes. */
  lemma SameRecord(e: L.Event, block: U64)
    requires E.EventFits(e)
    ensures e.key.Account? ==> P.AccountRecord(AccountOf(e, block)) == E.RecordOf(e, block)
    ensures e.key.Storage? ==> P.StorageRecord(SlotOf(e, block)) == E.RecordOf(e, block)
  {
    hide EncodeState, StorageKey, AccountKey;
  }

  /** One block as it is written, with the code it brings. */
  ghost function ChunkOf(block: Block, accounts: seq<L.Event>, storage: seq<L.Event>, code: seq<N.CodeBlob>): N.Chunk
    requires block.number < 0x1_0000_0000_0000_0000 && AccountsFit(accounts) && StorageFits(storage)
  {
    N.Chunk(block, AccountLines(accounts, block.number), StorageLines(storage, block.number), code)
  }

  ghost function Loose(c: N.Chunk): N.Segment { N.Segment([], c.accounts, c.storage, c.code) }

  /** The records of the block are its events as records, and its code. */
  lemma ChunkRecords(block: Block, accounts: seq<L.Event>, storage: seq<L.Event>, code: seq<N.CodeBlob>)
    requires block.number < 0x1_0000_0000_0000_0000 && AccountsFit(accounts) && StorageFits(storage)
    ensures Contents(P.Candidates(Loose(ChunkOf(block, accounts, storage, code))))
            == E.Recorded(accounts + storage, block.number) + Contents(P.CodeRecords(code))
  {
    hide AccountOf, SlotOf, P.AccountRecord, P.StorageRecord, P.CodeRecord, E.RecordOf;
    var n := block.number;
    var c := ChunkOf(block, accounts, storage, code);
    var a, s := P.AccountRecords(c.accounts), P.StorageRecords(c.storage);
    var events := accounts + storage;
    forall i | 0 <= i < |events| ensures (a + s)[i] == E.RecordOf(events[i], n) { SameRecord(events[i], n); }
    forall r ensures r in a + s <==> r in E.Recorded(events, n) {
      if r in a + s {
        var i :| 0 <= i < |a + s| && (a + s)[i] == r;
        assert events[i] in events;
      }
      if r in E.Recorded(events, n) {
        var e :| e in events && E.RecordOf(e, n) == r;
        var i :| 0 <= i < |events| && events[i] == e;
        assert (a + s)[i] == r;
      }
    }
    assert P.Candidates(Loose(c)) == (a + s) + P.CodeRecords(code);
    ContentsConcat(a + s, P.CodeRecords(code));
  }

  lemma ContentsConcat(a: seq<Record>, b: seq<Record>)
    ensures Contents(a + b) == Contents(a) + Contents(b)
  {
  }

  /** Joining a block adds its records. */
  lemma JoinedRecords(g: N.Segment, c: N.Chunk)
    ensures Contents(P.Candidates(N.Joined(g, c))) == Contents(P.Candidates(g)) + Contents(P.Candidates(Loose(c)))
  {
    hide P.AccountRecord, P.StorageRecord, P.CodeRecord;
    var a, s, d := P.AccountRecords(g.accounts), P.StorageRecords(g.storage), P.CodeRecords(g.code);
    var x, y, z := P.AccountRecords(c.accounts), P.StorageRecords(c.storage), P.CodeRecords(c.code);
    assert P.AccountRecords(g.accounts + c.accounts) == a + x;
    assert P.StorageRecords(g.storage + c.storage) == s + y;
    assert P.CodeRecords(g.code + c.code) == d + z;
    assert Contents(a + x + (s + y) + (d + z)) == Contents(a + s + d) + Contents(x + y + z);
  }

  // ---------------------------------------------------------------- what the exporter writes is accepted

  /** The code of a block: under its own hash, of this block, and not written before in the package. */
  ghost predicate CodeFresh(keccak: Bytes -> Hash32, code: seq<N.CodeBlob>, number: nat, seen: set<Hash32>)
  {
    && (forall b :: b in code ==> b.block == number && keccak(b.bytes) == b.hash && b.hash !in seen)
    && forall i, j :: 0 <= i < j < |code| ==> code[i].hash != code[j].hash
  }

  lemma ChunkAccepted(keccak: Bytes -> Hash32, rows: L.Rows, c: L.Change, block: Block, code: seq<N.CodeBlob>,
                      seen: set<Hash32>)
    requires InOrder(c) && L.BlockOut(rows, c).Some? && E.AllFit(L.BlockOut(rows, c).value.1)
    requires block.number < 0x1_0000_0000_0000_0000 && CodeFresh(keccak, code, block.number, seen)
    requires |L.BlockOut(rows, c).value.1| + |code| < 0x1_0000_0000_0000_0000
    ensures L.AccountsOut(rows, c.accounts).Some?
    ensures L.StorageOut(L.AccountsOut(rows, c.accounts).value.0, c.storage).Some?
    ensures
      var accounts := L.AccountsOut(rows, c.accounts).value.1;
      var storage := L.StorageOut(L.AccountsOut(rows, c.accounts).value.0, c.storage).value;
      && AccountsFit(accounts) && StorageFits(storage) && accounts + storage == L.BlockOut(rows, c).value.1
      && N.ChunkOk(keccak, ChunkOf(block, accounts, storage, code), seen)
  {
    hide Less, E.KeyBytes, E.EventFits, StateOk, L.StorageOut, L.AccountsOut, N.KeyOfSlot;
    var after := L.AccountsOut(rows, c.accounts).value.0;
    var accounts := L.AccountsOut(rows, c.accounts).value.1;
    var storage := L.StorageOut(after, c.storage).value;
    var events := accounts + storage;
    E.AccountEvents(rows, c.accounts);
    forall e | e in accounts || e in storage ensures E.EventFits(e) { assert e in events; }
    StorageAscends(after, c.storage);
    forall e | e in storage ensures e.key.Storage? { assert E.OfAddress(c.storage, e.key); }
    StatesOk(accounts, block.number);
    SlotsSorted(storage, block.number);
  }

  lemma StatesOk(events: seq<L.Event>, block: U64)
    requires AccountsFit(events)
    ensures forall e :: e in AccountLines(events, block) ==> e.block == block && StateOk(e.state)
  {
  }

  lemma SlotsSorted(events: seq<L.Event>, block: U64)
    requires StorageFits(events) && KeysAscend(events)
    ensures
      var out := StorageLines(events, block);
      && (forall e :: e in out ==> e.block == block)
      && forall i, j :: 0 <= i < j < |out| ==> Less(N.KeyOfSlot(out[i]), N.KeyOfSlot(out[j]))
  {
    hide Less, StorageKey;
    var out := StorageLines(events, block);
    forall i | 0 <= i < |out| ensures N.KeyOfSlot(out[i]) == E.KeyBytes(events[i].key) {}
  }

  // ---------------------------------------------------------------- a range of blocks

  /** An exported history with the block headers and the code that go with it; block `i` has the number `i + 1`. */
  ghost predicate Exporting(kv: L.Archive, blocks: seq<L.Change>, headers: seq<Block>, codes: seq<seq<N.CodeBlob>>)
  {
    && |headers| == |codes| == |blocks| && E.Fits(kv, blocks, 0) && L.Exported(kv, blocks).Some?
    && (forall i :: 0 <= i < |blocks| ==> InOrder(blocks[i]) && headers[i].number == i + 1)
    && (forall i :: 0 <= i < |blocks| ==> |E.LastEvents(kv, blocks[..i + 1])| + |codes[i]| < 0x1_0000_0000_0000_0000)
    && forall i, j :: 0 <= i < j < |blocks| && j == i + 1 ==> headers[j].parentHash == headers[i].hash
  }

  lemma {:induction false} ExportedPrefix(kv: L.Archive, blocks: seq<L.Change>, n: nat)
    requires L.Exported(kv, blocks).Some? && n <= |blocks|
    ensures L.Exported(kv, blocks[..n]).Some?
  {
    hide L.BlockOut, L.Apply;
    if n < |blocks| {
      ExportedPrefix(kv, blocks[..|blocks| - 1], n);
      assert blocks[..|blocks| - 1][..n] == blocks[..n];
    } else {
      assert blocks[..n] == blocks;
    }
  }

  /** The events of block `i` come from the journal as the blocks before left it. */
  lemma BlockEvents(kv: L.Archive, blocks: seq<L.Change>, i: nat)
    requires L.Exported(kv, blocks).Some? && i < |blocks| && E.Fits(kv, blocks, 0)
    ensures L.Exported(kv, blocks[..i]).Some?
    ensures L.BlockOut(L.Exported(kv, blocks[..i]).value.0, blocks[i]).Some?
    ensures E.LastEvents(kv, blocks[..i + 1]) == L.BlockOut(L.Exported(kv, blocks[..i]).value.0, blocks[i]).value.1
    ensures E.AllFit(E.LastEvents(kv, blocks[..i + 1]))
  {
    hide L.BlockOut, L.Apply, E.AllFit;
    ExportedPrefix(kv, blocks, i);
    ExportedPrefix(kv, blocks, i + 1);
    assert blocks[..i + 1][..i] == blocks[..i];
    E.FitsPrefix(kv, blocks, 0, i + 1);
  }

  /** Block `i` as it is written. */
  ghost function ChunkAt(kv: L.Archive, blocks: seq<L.Change>, headers: seq<Block>, codes: seq<seq<N.CodeBlob>>,
                         i: nat): N.Chunk
    requires Exporting(kv, blocks, headers, codes) && i < |blocks|
  {
    BlockEvents(kv, blocks, i);
    var rows := L.Exported(kv, blocks[..i]).value.0;
    var accounts := L.AccountsOut(rows, blocks[i].accounts).value;
    var storage := L.StorageOut(accounts.0, blocks[i].storage).value;
    if AccountsFit(accounts.1) && StorageFits(storage) && headers[i].number < 0x1_0000_0000_0000_0000
    then ChunkOf(headers[i], accounts.1, storage, codes[i]) else N.Chunk(headers[i], [], [], [])
  }

  lemma ChunkAtOk(kv: L.Archive, blocks: seq<L.Change>, headers: seq<Block>, codes: seq<seq<N.CodeBlob>>, i: nat,
                  keccak: Bytes -> Hash32, seen: set<Hash32>)
    requires Exporting(kv, blocks, headers, codes) && i < |blocks| && CodeFresh(keccak, codes[i], i + 1, seen)
    ensures
      var c := ChunkAt(kv, blocks, headers, codes, i);
      c.block == headers[i] && c.code == codes[i] && N.ChunkOk(keccak, c, seen)
  {
    hide L.BlockOut, L.Exported, N.ChunkOk, E.LastEvents, AccountsFit, StorageFits, InOrder, CodeFresh;
    BlockEvents(kv, blocks, i);
    FitsBound(kv, blocks);
    ChunkAccepted(keccak, L.Exported(kv, blocks[..i]).value.0, blocks[i], headers[i], codes[i], seen);
  }

  lemma ChunkAtRecords(kv: L.Archive, blocks: seq<L.Change>, headers: seq<Block>, codes: seq<seq<N.CodeBlob>>, i: nat,
                       keccak: Bytes -> Hash32, seen: set<Hash32>)
    requires Exporting(kv, blocks, headers, codes) && i < |blocks| < 0x1_0000_0000_0000_0000
    requires CodeFresh(keccak, codes[i], i + 1, seen)
    ensures Contents(P.Candidates(Loose(ChunkAt(kv, blocks, headers, codes, i))))
            == E.Recorded(E.LastEvents(kv, blocks[..i + 1]), i + 1) + Contents(P.CodeRecords(codes[i]))
  {
    hide L.BlockOut, L.Exported, N.ChunkOk, E.Recorded, P.CodeRecords, P.Candidates, E.LastEvents, AccountsFit;
    hide StorageFits, InOrder, CodeFresh;
    BlockEvents(kv, blocks, i);
    var rows := L.Exported(kv, blocks[..i]).value.0;
    ChunkAccepted(keccak, rows, blocks[i], headers[i], codes[i], seen);
    var accounts := L.AccountsOut(rows, blocks[i].accounts).value;
    ChunkRecords(headers[i], accounts.1, L.StorageOut(accounts.0, blocks[i].storage).value, codes[i]);
  }

  lemma FitsBound(kv: L.Archive, blocks: seq<L.Change>)
    requires E.Fits(kv, blocks, 0)
    ensures |blocks| < 0x1_0000_0000_0000_0000
  {
  }

  /** The blocks `m` to `n` as they are written. */
  ghost function Chunks(kv: L.Archive, blocks: seq<L.Change>, headers: seq<Block>, codes: seq<seq<N.CodeBlob>>,
                        m: nat, n: nat)
    : (chunks: seq<N.Chunk>)
    requires m <= n <= |blocks| && Exporting(kv, blocks, headers, codes)
    ensures |chunks| == n - m
  {
    seq(n - m, i requires 0 <= i < n - m => ChunkAt(kv, blocks, headers, codes, m + i))
  }

  lemma ChunksAre(kv: L.Archive, blocks: seq<L.Change>, headers: seq<Block>, codes: seq<seq<N.CodeBlob>>,
                  m: nat, n: nat)
    requires m <= n <= |blocks| && Exporting(kv, blocks, headers, codes)
    ensures forall i :: 0 <= i < n - m ==>
              Chunks(kv, blocks, headers, codes, m, n)[i] == ChunkAt(kv, blocks, headers, codes, m + i)
  {
    hide Exporting, ChunkAt;
  }

  /** The code hashes written in blocks `m` to `n`. */
  ghost function Seen(codes: seq<seq<N.CodeBlob>>, m: nat, n: nat): set<Hash32>
    requires m <= n <= |codes|
    decreases n
  {
    if n == m then {} else Seen(codes, m, n - 1) + N.CodeSet(codes[n - 1])
  }

  /** No code is written twice in a package of the blocks `m` to `n`. */
  ghost predicate FreshCodes(keccak: Bytes -> Hash32, codes: seq<seq<N.CodeBlob>>, m: nat, n: nat)
  {
    m <= n <= |codes| && forall i :: m <= i < n ==> CodeFresh(keccak, codes[i], i + 1, Seen(codes, m, i))
  }

  /** The package continues the block before `m`. */
  ghost predicate Continues(h: N.Header, headers: seq<Block>, m: nat)
    requires m < |headers|
  {
    h.mode == Delta && h.preceding == Some((m, headers[m].parentHash)) && m < 0x1_0000_0000_0000_0000
  }

  lemma {:induction false} ChunksAccepted(kv: L.Archive, blocks: seq<L.Change>, headers: seq<Block>,
                                          codes: seq<seq<N.CodeBlob>>,
                                          m: nat, n: nat, h: N.Header, keccak: Bytes -> Hash32)
    requires Exporting(kv, blocks, headers, codes) && m <= n <= |blocks| && m < |blocks|
    requires FreshCodes(keccak, codes, m, n)
    requires Continues(h, headers, m)
    ensures
      var chunks := Chunks(kv, blocks, headers, codes, m, n);
      N.ChunksOk(h, keccak, chunks) && N.CodeSet(N.Body(chunks).code) == Seen(codes, m, n)
    decreases n
  {
    hide ChunkAt, N.ChunkOk, CodeFresh, N.CodeSet, Exporting, Chunks, P.Candidates, P.CodeRecords, E.Recorded;
    hide E.LastEvents, N.Joined;
    hide N.ChunksOk, N.Body, Seen, FreshCodes;
    Lengths(kv, blocks, headers, codes);
    FreshBefore(keccak, codes, m, n);
    if n == m {
      NoCode();
      NoneSeen(codes, m);
      NoChunks(kv, blocks, headers, codes, m);
    } else {
      ChunksAccepted(kv, blocks, headers, codes, m, n - 1, h, keccak);
      var front, c := Chunks(kv, blocks, headers, codes, m, n - 1), ChunkAt(kv, blocks, headers, codes, n - 1);
      MoreChunks(kv, blocks, headers, codes, m, n);
      BodyMore(front, c);
      ChunkAtOk(kv, blocks, headers, codes, n - 1, keccak, Seen(codes, m, n - 1));
      Linked(kv, blocks, headers, codes, n - 1);
      if n - 1 > m {
        ChunkAtOk(kv, blocks, headers, codes, n - 2, keccak, Seen(codes, m, n - 2));
        ChunksAre(kv, blocks, headers, codes, m, n - 1);
        assert front[|front| - 1] == ChunkAt(kv, blocks, headers, codes, n - 2);
      }
      N.CodesJoin(N.Body(front).code, c.code);
      SeenMore(codes, m, n);
      AllOkMore(h, keccak, front, c);
    }
  }

  lemma FreshBefore(keccak: Bytes -> Hash32, codes: seq<seq<N.CodeBlob>>, m: nat, n: nat)
    requires FreshCodes(keccak, codes, m, n)
    ensures m < n ==> FreshCodes(keccak, codes, m, n - 1) && CodeFresh(keccak, codes[n - 1], n, Seen(codes, m, n - 1))
    ensures m < n - 1 ==> CodeFresh(keccak, codes[n - 2], n - 1, Seen(codes, m, n - 2))
  {
    hide CodeFresh, Seen;
  }

  lemma NoneSeen(codes: seq<seq<N.CodeBlob>>, m: nat)
    requires m <= |codes|
    ensures Seen(codes, m, m) == {}
  {
  }

  lemma SeenMore(codes: seq<seq<N.CodeBlob>>, m: nat, n: nat)
    requires m < n <= |codes|
    ensures Seen(codes, m, n) == Seen(codes, m, n - 1) + N.CodeSet(codes[n - 1])
  {
  }

  lemma NoChunks(kv: L.Archive, blocks: seq<L.Change>, headers: seq<Block>, codes: seq<seq<N.CodeBlob>>, m: nat)
    requires Exporting(kv, blocks, headers, codes) && m <= |blocks|
    ensures Chunks(kv, blocks, headers, codes, m, m) == []
    ensures forall h, keccak :: N.ChunksOk(h, keccak, [])
    ensures N.Body([]) == N.Segment([], [], [], [])
  {
  }

  lemma MoreChunks(kv: L.Archive, blocks: seq<L.Change>, headers: seq<Block>, codes: seq<seq<N.CodeBlob>>, m: nat,
                   n: nat)
    requires Exporting(kv, blocks, headers, codes) && m < n <= |blocks|
    ensures Chunks(kv, blocks, headers, codes, m, n)
            == Chunks(kv, blocks, headers, codes, m, n - 1) + [ChunkAt(kv, blocks, headers, codes, n - 1)]
  {
    hide ChunkAt, Exporting;
  }

  lemma AllOkMore(h: N.Header, keccak: Bytes -> Hash32, front: seq<N.Chunk>, c: N.Chunk)
    requires N.ChunksOk(h, keccak, front) && N.ChunkOk(keccak, c, N.CodeSet(N.Body(front).code))
    requires front != [] ==>
               && front[|front| - 1].block.number + 1 == c.block.number
               && c.block.parentHash == front[|front| - 1].block.hash
    requires front == [] && h.mode == Delta ==> h.preceding.Some? && c.block.parentHash == h.preceding.value.1
    ensures N.ChunksOk(h, keccak, front + [c])
  {
    hide N.ChunkOk, N.CodeSet, N.Body;
    assert (front + [c])[..|front|] == front;
  }

  lemma BodyMore(front: seq<N.Chunk>, c: N.Chunk)
    ensures N.Body(front + [c]) == N.Joined(N.Body(front), c)
    ensures N.Joined(N.Body(front), c).code == N.Body(front).code + c.code
    ensures (front + [c])[..|front + [c]| - 1] == front
  {
    assert (front + [c])[..|front|] == front;
  }

  lemma Lengths(kv: L.Archive, blocks: seq<L.Change>, headers: seq<Block>, codes: seq<seq<N.CodeBlob>>)
    requires Exporting(kv, blocks, headers, codes)
    ensures |headers| == |codes| == |blocks| < 0x1_0000_0000_0000_0000
  {
    FitsBound(kv, blocks);
  }

  /** A block follows the one before. */
  lemma Linked(kv: L.Archive, blocks: seq<L.Change>, headers: seq<Block>, codes: seq<seq<N.CodeBlob>>, i: nat)
    requires Exporting(kv, blocks, headers, codes) && i < |blocks|
    ensures |headers| == |blocks| && headers[i].number == i + 1
    ensures i > 0 ==> headers[i].parentHash == headers[i - 1].hash && headers[i - 1].number == i
  {
    hide E.Fits, L.Exported, InOrder, E.LastEvents;
  }

  lemma NoCode()
    ensures N.CodeSet([]) == {}
  {
  }

  /** What the exporter writes for a range of blocks parses back to exactly those blocks. */
  lemma ExportParses(kv: L.Archive, blocks: seq<L.Change>, headers: seq<Block>, codes: seq<seq<N.CodeBlob>>,
                     m: nat, n: nat, h: N.Header, keccak: Bytes -> Hash32)
    requires Exporting(kv, blocks, headers, codes) && m < n <= |blocks| && FreshCodes(keccak, codes, m, n)
    requires Continues(h, headers, m)
    ensures
      var chunks := Chunks(kv, blocks, headers, codes, m, n);
      && (forall i :: 0 <= i < |chunks| ==>
            && chunks[i].block.number < 0x1_0000_0000_0000_0000
            && |chunks[i].accounts| + |chunks[i].storage| + |chunks[i].code| < 0x1_0000_0000_0000_0000)
      && n < 0x1_0000_0000_0000_0000
      && N.ParseOf(h, N.BodyLines(h, keccak, chunks) + [N.TrailerLine(n, headers[n - 1].hash, n - m)], keccak)
         == Ok(N.Body(chunks))
  {
    hide ChunkAt, N.ChunksOk, N.Body, N.BodyLines, N.ParseOf, Exporting, N.ChunkOk, CodeFresh, P.Candidates;
    hide P.CodeRecords, Chunks;
    ChunksAccepted(kv, blocks, headers, codes, m, n, h, keccak);
    Lengths(kv, blocks, headers, codes);
    Linked(kv, blocks, headers, codes, m);
    Linked(kv, blocks, headers, codes, n - 1);
    ChunkAtOk(kv, blocks, headers, codes, m, keccak, Seen(codes, m, m));
    ChunkAtOk(kv, blocks, headers, codes, n - 1, keccak, Seen(codes, m, n - 1));
    ChunksAre(kv, blocks, headers, codes, m, n);
    N.WrittenParses(h, keccak, Chunks(kv, blocks, headers, codes, m, n));
  }

  // ---------------------------------------------------------------- the records of the packages

  ghost function RecordsOf(kv: L.Archive, blocks: seq<L.Change>, m: nat, n: nat): set<Record>
    requires m <= n <= |blocks| < 0x1_0000_0000_0000_0000
    decreases n
  {
    if n == m then {} else RecordsOf(kv, blocks, m, n - 1) + E.Recorded(E.LastEvents(kv, blocks[..n]), n)
  }

  ghost function CodesOf(codes: seq<seq<N.CodeBlob>>, m: nat, n: nat): set<Record>
    requires m <= n <= |codes|
    decreases n
  {
    if n == m then {} else CodesOf(codes, m, n - 1) + Contents(P.CodeRecords(codes[n - 1]))
  }

  lemma {:induction false} BodyRecords(kv: L.Archive, blocks: seq<L.Change>, headers: seq<Block>,
                                       codes: seq<seq<N.CodeBlob>>, m: nat, n: nat, keccak: Bytes -> Hash32)
    requires Exporting(kv, blocks, headers, codes) && m <= n <= |blocks| < 0x1_0000_0000_0000_0000
    requires FreshCodes(keccak, codes, m, n)
    ensures Contents(P.Candidates(N.Body(Chunks(kv, blocks, headers, codes, m, n))))
            == RecordsOf(kv, blocks, m, n) + CodesOf(codes, m, n)
    decreases n
  {
    hide ChunkAt, P.Candidates, E.Recorded, P.CodeRecords, E.LastEvents, Exporting, CodeFresh, N.Joined, Chunks;
    hide N.Body, N.ChunkOk;
    Lengths(kv, blocks, headers, codes);
    if n == m {
      NoCandidates();
      NoChunks(kv, blocks, headers, codes, m);
    } else {
      BodyRecords(kv, blocks, headers, codes, m, n - 1, keccak);
      var front, c := Chunks(kv, blocks, headers, codes, m, n - 1), ChunkAt(kv, blocks, headers, codes, n - 1);
      MoreChunks(kv, blocks, headers, codes, m, n);
      BodyMore(front, c);
      ChunkAtRecords(kv, blocks, headers, codes, n - 1, keccak, Seen(codes, m, n - 1));
      JoinedRecords(N.Body(front), c);
    }
  }

  lemma NoCandidates()
    ensures P.Candidates(N.Segment([], [], [], [])) == []
  {
  }

  /** The records of the blocks up to `n` are those up to `m` and those between. */
  lemma {:induction false} WrittenSplits(kv: L.Archive, blocks: seq<L.Change>, m: nat, n: nat)
    requires E.Fits(kv, blocks, 0) && m <= n <= |blocks| < 0x1_0000_0000_0000_0000
    ensures E.Fits(kv, blocks[..m], 0) && E.Fits(kv, blocks[..n], 0)
    ensures E.Written(kv, blocks[..n], 0) == E.Written(kv, blocks[..m], 0) + RecordsOf(kv, blocks, m, n)
    decreases n
  {
    hide E.Recorded, E.LastEvents, E.Fits;
    E.FitsPrefix(kv, blocks, 0, m);
    E.FitsPrefix(kv, blocks, 0, n);
    if m < n {
      WrittenSplits(kv, blocks, m, n - 1);
      assert blocks[..n][..n - 1] == blocks[..n - 1];
    }
  }

  lemma {:induction false} PlaceMembers(sorted: seq<Record>, r: Record)
    ensures forall q :: q in P.Place(sorted, r) <==> q in sorted || q == r
  {
    if sorted != [] && !Before(At(sorted[|sorted| - 1]), At(r)) {
      PlaceMembers(sorted[..|sorted| - 1], r);
      assert sorted == sorted[..|sorted| - 1] + [sorted[|sorted| - 1]];
    }
  }

  lemma {:induction false} SortMembers(rs: seq<Record>)
    ensures Contents(P.SortRecords(rs)) == Contents(rs)
  {
    hide P.Place;
    if rs != [] {
      var front, last := rs[..|rs| - 1], rs[|rs| - 1];
      SortMembers(front);
      PlaceMembers(P.SortRecords(front), last);
      assert rs == front + [last];
      assert forall q :: q in front <==> q in Contents(front);
      assert forall q :: q in P.SortRecords(front) <==> q in Contents(P.SortRecords(front));
    }
  }

  /** Package `k` holds the blocks between two cuts; the first package is the baseline with the code `base`. */
  ghost predicate Cut(kv: L.Archive, blocks: seq<L.Change>, headers: seq<Block>, codes: seq<seq<N.CodeBlob>>,
                      keccak: Bytes -> Hash32, base: seq<N.CodeBlob>, ps: seq<Package>, cuts: seq<nat>)
    requires Exporting(kv, blocks, headers, codes)
  {
    && |ps| == |cuts| > 0 && cuts[0] == 0 && |blocks| < 0x1_0000_0000_0000_0000
    && (forall k :: 0 <= k < |cuts| ==> cuts[k] <= |blocks|)
    && Contents(ps[0].records) == E.BaseRecords(kv, 0) + Contents(P.CodeRecords(base))
    && forall j, k :: 0 <= j < k < |cuts| && k == j + 1 ==>
         && cuts[j] <= cuts[k] && FreshCodes(keccak, codes, cuts[j], cuts[k])
         && ps[k].records == P.SortRecords(P.Candidates(N.Body(Chunks(kv, blocks, headers, codes, cuts[j], cuts[k]))))
  }

  /** All code written up to a cut. */
  ghost function AllCodes(base: seq<N.CodeBlob>, codes: seq<seq<N.CodeBlob>>, n: nat): set<Record>
    requires n <= |codes|
  {
    Contents(P.CodeRecords(base)) + CodesOf(codes, 0, n)
  }

  lemma {:induction false} CodesSplit(codes: seq<seq<N.CodeBlob>>, m: nat, n: nat)
    requires m <= n <= |codes|
    ensures CodesOf(codes, 0, n) == CodesOf(codes, 0, m) + CodesOf(codes, m, n)
    decreases n
  {
    hide P.CodeRecords;
    if m < n { CodesSplit(codes, m, n - 1); }
  }

  lemma {:induction false} CutEvents(kv: L.Archive, blocks: seq<L.Change>, headers: seq<Block>,
                                     codes: seq<seq<N.CodeBlob>>,
                                     keccak: Bytes -> Hash32, base: seq<N.CodeBlob>, ps: seq<Package>,
                                     cuts: seq<nat>, k: nat)
    requires Exporting(kv, blocks, headers, codes) && Cut(kv, blocks, headers, codes, keccak, base, ps, cuts)
    requires k < |ps|
    ensures E.Fits(kv, blocks[..cuts[k]], 0)
    ensures History.Events(ps[..k + 1]) == E.Written(kv, blocks[..cuts[k]], 0) + AllCodes(base, codes, cuts[k])
    decreases k
  {
    hide Exporting, E.Fits, E.Written, P.SortRecords, P.Candidates, Chunks, E.BaseRecords, FreshCodes, CodesOf;
    hide RecordsOf, N.Body, P.CodeRecords, History.Events;
    Lengths(kv, blocks, headers, codes);
    ExportingFits(kv, blocks, headers, codes);
    WrittenSplits(kv, blocks, 0, cuts[k]);
    History.EventsAppend(ps[..k], ps[k]);
    assert ps[..k + 1] == ps[..k] + [ps[k]];
    if k == 0 {
      assert ps[..0] == [] && blocks[..0] == [];
      FirstEvents(kv, base, codes);
    } else {
      CutEvents(kv, blocks, headers, codes, keccak, base, ps, cuts, k - 1);
      var m, n := cuts[k - 1], cuts[k];
      PackageEvents(kv, blocks, headers, codes, keccak, m, n);
      hide Cut;
      WrittenSplits(kv, blocks, m, n);
      CodesSplit(codes, m, n);
    }
  }

  /** A package holds the records and the code of its blocks. */
  lemma PackageEvents(kv: L.Archive, blocks: seq<L.Change>, headers: seq<Block>, codes: seq<seq<N.CodeBlob>>,
                      keccak: Bytes -> Hash32, m: nat, n: nat)
    requires Exporting(kv, blocks, headers, codes) && m <= n <= |blocks| < 0x1_0000_0000_0000_0000
    requires FreshCodes(keccak, codes, m, n)
    ensures Contents(P.SortRecords(P.Candidates(N.Body(Chunks(kv, blocks, headers, codes, m, n)))))
            == RecordsOf(kv, blocks, m, n) + CodesOf(codes, m, n)
  {
    hide Exporting, FreshCodes, RecordsOf, CodesOf, P.Candidates, P.SortRecords, N.Body, Chunks;
    SortMembers(P.Candidates(N.Body(Chunks(kv, blocks, headers, codes, m, n))));
    BodyRecords(kv, blocks, headers, codes, m, n, keccak);
  }

  lemma ExportingFits(kv: L.Archive, blocks: seq<L.Change>, headers: seq<Block>, codes: seq<seq<N.CodeBlob>>)
    requires Exporting(kv, blocks, headers, codes)
    ensures E.Fits(kv, blocks, 0)
  {
  }

  lemma FirstEvents(kv: L.Archive, base: seq<N.CodeBlob>, codes: seq<seq<N.CodeBlob>>)
    requires E.Fits(kv, [], 0)
    ensures E.Written(kv, [], 0) == E.BaseRecords(kv, 0) && AllCodes(base, codes, 0) == Contents(P.CodeRecords(base))
    ensures History.Events([]) == {}
  {
  }

  lemma {:induction false} CodesAreCode(codes: seq<seq<N.CodeBlob>>, n: nat, r: Record)
    requires n <= |codes| && r in CodesOf(codes, 0, n)
    ensures exists h :: r.key == CodeKey(h)
  {
    if r !in CodesOf(codes, 0, n - 1) {
      var i :| 0 <= i < |codes[n - 1]| && P.CodeRecords(codes[n - 1])[i] == r;
      assert r.key == CodeKey(codes[n - 1][i].hash);
    } else {
      CodesAreCode(codes, n - 1, r);
    }
  }

  /**
   The packages cut from an export, baseline first, publish exactly its history: every read
   of a head that committed them sees the flat state.
   */
  lemma ExportIsPublished(kv: L.Archive, blocks: seq<L.Change>, headers: seq<Block>, codes: seq<seq<N.CodeBlob>>,
                          keccak: Bytes -> Hash32, base: seq<N.CodeBlob>, ps: seq<Package>, cuts: seq<nat>)
    requires Exporting(kv, blocks, headers, codes) && Cut(kv, blocks, headers, codes, keccak, base, ps, cuts)
    requires cuts[|cuts| - 1] == |blocks|
    ensures |codes| == |blocks| && Archive.Publishes(ps, kv, blocks, AllCodes(base, codes, |blocks|))
  {
    hide Exporting, Cut, E.Written, E.Fits, History.Events, CodesOf;
    Lengths(kv, blocks, headers, codes);
    ExportingFits(kv, blocks, headers, codes);
    CutLengths(kv, blocks, headers, codes, keccak, base, ps, cuts);
    var k := |ps| - 1;
    CutEvents(kv, blocks, headers, codes, keccak, base, ps, cuts, k);
    assert ps[..k + 1] == ps && blocks[..|blocks|] == blocks;
    forall r | r in AllCodes(base, codes, |blocks|) ensures exists h :: r.key == CodeKey(h) {
      if r in CodesOf(codes, 0, |blocks|) {
        CodesAreCode(codes, |blocks|, r);
      } else {
        var i :| 0 <= i < |base| && P.CodeRecords(base)[i] == r;
        assert r.key == CodeKey(base[i].hash);
      }
    }
  }

  lemma CutLengths(kv: L.Archive, blocks: seq<L.Change>, headers: seq<Block>, codes: seq<seq<N.CodeBlob>>,
                   keccak: Bytes -> Hash32, base: seq<N.CodeBlob>, ps: seq<Package>, cuts: seq<nat>)
    requires Exporting(kv, blocks, headers, codes) && Cut(kv, blocks, headers, codes, keccak, base, ps, cuts)
    ensures |ps| == |cuts| > 0
  {
  }
}
