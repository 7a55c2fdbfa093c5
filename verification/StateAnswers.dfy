/**
 Accounts and code, from bytes to state: what either reader answers about an account or its
 code, against any head of any run of the protocol, is the flat account after the block and
 the code that was published under its hash.
 */
module StateAnswers {
  import opened Bytes
  import opened Versions
  import opened Head
  import opened Ledger
  import opened History
  import opened Commits
  import opened Protocol
  import opened Keys
  import opened StateReads
  import opened Archive
  import Views
  import Native
  import Worker
  import L = Lifetimes
  import E = Exports
  import N = Normalized
  import P = Packaging
  import X = ExportPackages

  // ---------------------------------------------------------------- code records stand alone

  /** No record of an exported history is a code record. */
  lemma {:induction false} WrittenNotCode(kv: L.Archive, blocks: seq<L.Change>, base: nat, r: Record, h: Hash32)
    requires E.Fits(kv, blocks, base) && r in E.Written(kv, blocks, base)
    ensures r.key != CodeKey(h)
  {
    hide CodeKey, E.KeyBytes;
    if blocks != [] && r in E.Written(kv, blocks[..|blocks| - 1], base) {
      WrittenNotCode(kv, blocks[..|blocks| - 1], base, r, h);
    } else if blocks != [] {
      var e :| e in E.LastEvents(kv, blocks) && r == E.RecordOf(e, base + |blocks|);
      E.NotCode(e.key, h);
    } else {
      var k :| k in kv && r == E.RecordOf(L.Event(k, kv[k]), base);
      assert E.EventFits(L.Event(k, kv[k]));
      E.NotCode(k, h);
    }
  }

  /** So a code key is answered by the code records alone. */
  lemma CodeAlone(rs: set<Record>, codes: set<Record>, key: Bytes, block: int, answer: Option<Bytes>)
    requires IsAnswer(rs + codes, key, block, answer) && forall r :: r in rs ==> r.key != key
    ensures IsAnswer(codes, key, block, answer)
  {
    if answer.Some? {
      var r :| Newest(rs + codes, key, block, r) && r.value == answer.value;
      assert Newest(codes, key, block, r);
    }
  }

  /** Every code record holds bytes that hash to its key's hash, and no more than a reader takes. */
  ghost predicate Genuine(keccak: Bytes -> Hash32, codes: set<Record>)
  {
    forall r, h :: r in codes && r.key == CodeKey(h) ==> keccak(r.value) == h && |r.value| <= Worker.MIB
  }

  /** The record is the code under `h` at the block, and nothing else was published under that hash. */
  ghost predicate IsCode(codes: set<Record>, h: Hash32, block: int, r: Record)
  {
    && r in codes && r.key == CodeKey(h) && r.block <= block
    && forall q :: q in codes && q.key == r.key ==> q.value == r.value
  }

  lemma CodeAnswer(codes: set<Record>, h: Hash32, block: int, r: Record, answer: Option<Bytes>)
    requires IsCode(codes, h, block, r) && IsAnswer(codes, CodeKey(h), block, answer)
    ensures answer == Some(r.value)
  {
    hide CodeKey;
  }

  /**
   Any head of a run whose packages are an export answers the code of a live account with
   the blob that was published under the account's code hash at or before the block.
   */
  lemma EveryRunReadsCode(cas: Cas, actions: seq<Action>, i: nat, views: seq<Views.View>, bs: seq<Views.Backing>,
                          states: seq<L.State>, kv: L.Archive, blocks: seq<L.Change>, codes: set<Record>, block: nat,
                          address: Hash20, keccak: Bytes -> Hash32, read: Lookups)
    requires Exported(cas, actions, i, states, kv, blocks, codes, block) && Genuine(keccak, codes)
    requires Realizes(Runs(After(cas, actions).log[i].head), views, bs) && ReadsAs(Views.AllRecords(bs), block, read)
    ensures block < |states|
    ensures address !in states[block] ==> CodeOf(read, keccak, Worker.MIB, address) == Ok([])
    ensures address in states[block] && states[block][address].info.codeHash == keccak([]) ==>
              CodeOf(read, keccak, Worker.MIB, address) == Ok([])
    ensures forall h: Hash32, r ::
              (address in states[block] && states[block][address].info.codeHash == h != keccak([])
               && IsCode(codes, h, block, r)) ==> CodeOf(read, keccak, Worker.MIB, address) == Ok(r.value)
  {
    hide After, Realizes, ReadsAs, L.History, L.Baseline, Publishes, LiveAccountOf, StorageOf, IsCode, Genuine, CodeKey;
    hide AccountOf;
    ExportedStates(cas, actions, i, states, kv, blocks, codes, block);
    EveryRunReadsState(cas, actions, i, views, bs, states, kv, blocks, codes, block, address, ZERO32, read);
    forall h: Hash32, r |
      address in states[block] && states[block][address].info.codeHash == h != keccak([]) && IsCode(codes, h, block, r)
      ensures CodeOf(read, keccak, Worker.MIB, address) == Ok(r.value)
    {
      PublishedCode(cas, actions, i, views, bs, states, kv, blocks, codes, block, keccak, read, h, r);
    }
  }

  lemma PublishedCode(cas: Cas, actions: seq<Action>, i: nat, views: seq<Views.View>, bs: seq<Views.Backing>,
                      states: seq<L.State>, kv: L.Archive, blocks: seq<L.Change>, codes: set<Record>, block: nat,
                      keccak: Bytes -> Hash32, read: Lookups, h: Hash32, r: Record)
    requires Exported(cas, actions, i, states, kv, blocks, codes, block) && Genuine(keccak, codes)
    requires Realizes(Runs(After(cas, actions).log[i].head), views, bs) && ReadsAs(Views.AllRecords(bs), block, read)
    requires IsCode(codes, h, block, r)
    ensures read(CodeKey(h)) == Some(r.value) && keccak(r.value) == h && |r.value| <= Worker.MIB
  {
    hide After, Realizes, L.History, L.Baseline, CodeKey, IsAnswer, E.Written, E.Fits, Views.AllRecords, UniqueVersions;
    ReadsEvents(cas, actions, i, views, bs, block, read);
    var rs := E.Written(kv, blocks, 0);
    assert IsAnswer(rs + codes, CodeKey(h), block, read(CodeKey(h)));
    forall q | q in rs ensures q.key != CodeKey(h) { WrittenNotCode(kv, blocks, 0, q, h); }
    CodeAlone(rs, codes, CodeKey(h), block, read(CodeKey(h)));
    CodeAnswer(codes, h, block, r, read(CodeKey(h)));
  }

  // ---------------------------------------------------------------- the readers

  /** The Worker's answer about an account is the flat account after the block, field by field. */
  method ReadAccount(worker: Worker.Reader, address: Hash20, block: U64,
                     ghost cas: Cas, ghost actions: seq<Action>, ghost i: nat, ghost states: seq<L.State>,
                     ghost kv: L.Archive, ghost blocks: seq<L.Change>, ghost codes: set<Record>)
    returns (r: Result<Option<AccountState>>)
    requires worker.Valid() && Worker.AllShaped(worker.backs)
    requires worker.gets == 1 && worker.fetched == Worker.MIB / 4
    requires Exported(cas, actions, i, states, kv, blocks, codes, block)
    requires Realizes(Runs(After(cas, actions).log[i].head), worker.runs, worker.backs)
    modifies worker`gets, worker`fetched, worker`shards
    ensures block < |states| && (r.Ok? ==> (r.value.Some? <==> address in states[block]))
    ensures r.Ok? && r.value.Some? ==>
              var s, info := r.value.value, states[block][address].info;
              s.live && s.nonce == info.nonce && s.balance == info.balance && s.codeHash == info.codeHash
    ensures (Worker.AllExact(worker.c, worker.runs, worker.backs, AccountKey(address))
             && Worker.AllServed(worker.c, worker.runs, worker.backs, worker.objects, worker.summaries)) ==> r.Ok?
  {
    hide After, Realizes, ReadsAs, Worker.AllExact, Worker.AllServed, Worker.AllShaped, FlatRead, AccountOf;
    hide L.History, L.Baseline, Publishes, LiveAccountOf, Worker.Room, Worker.Spent, Worker.LookedUp, Worker.WarmFrom;
    hide Views.Backed, Worker.Cached, StorageOf;
    ExportedStates(cas, actions, i, states, kv, blocks, codes, block);
    EveryRunAnswers(cas, actions, i, worker.runs, worker.backs, block);
    ghost var read := key => FlatRead(Packages(After(cas, actions).log), key, block);
    EveryRunReadsState(cas, actions, i, worker.runs, worker.backs, states, kv, blocks, codes, block, address, ZERO32,
                       read);
    AccountRoom(|worker.runs|);
    LiveIsLive(read, address);
    ghost var stop;
    r, stop := worker.AccountAt(address, block, read);
  }

  lemma LiveIsLive(read: Lookups, address: Hash20)
    ensures LiveAccountOf(read, address).Ok? && LiveAccountOf(read, address).value.Some? ==>
              LiveAccountOf(read, address).value.value.live
  {
    hide AccountOf;
  }

  lemma AccountRoom(runs: nat)
    requires runs <= MAX_L0_BACKLOG + MAX_LEVELS
    ensures Worker.Room(1, Worker.MIB / 4, 2 * runs + 6)
  {
  }

  /** The native reader's, tombstones aside. */
  method ReadAccountNative(native: Native.Reader, address: Hash20, block: U64,
                           ghost cas: Cas, ghost actions: seq<Action>, ghost i: nat, ghost states: seq<L.State>,
                           ghost kv: L.Archive, ghost blocks: seq<L.Change>, ghost codes: set<Record>)
    returns (r: Result<Option<AccountState>>)
    requires native.Valid() && block <= native.number
    requires Exported(cas, actions, i, states, kv, blocks, codes, block)
    requires Realizes(Runs(After(cas, actions).log[i].head), native.runs, native.backs)
    modifies native`cache, native`gets, native`bytes
    ensures block < |states| && (r.Ok? ==> (r.value.Some? && r.value.value.live <==> address in states[block]))
    ensures r.Ok? && r.value.Some? && r.value.value.live ==>
              var s, info := r.value.value, states[block][address].info;
              s.nonce == info.nonce && s.balance == info.balance && s.codeHash == info.codeHash
    ensures (Worker.AllExact(native.c, native.runs, native.backs, AccountKey(address))
             && Worker.AllServed(native.c, native.runs, native.backs, native.objects, native.summaries)) ==> r.Ok?
  {
    hide After, Realizes, ReadsAs, Worker.AllExact, Worker.AllServed, FlatRead, AccountOf;
    hide L.History, L.Baseline, Publishes;
    ExportedStates(cas, actions, i, states, kv, blocks, codes, block);
    EveryRunAnswers(cas, actions, i, native.runs, native.backs, block);
    ghost var read := key => FlatRead(Packages(After(cas, actions).log), key, block);
    EveryRunReadsState(cas, actions, i, native.runs, native.backs, states, kv, blocks, codes, block, address, ZERO32,
                       read);
    r := native.Account(address, block, read);
  }

  /** What the flat account and the published blobs say its code is. */
  ghost predicate CodeIs(states: seq<L.State>, codes: set<Record>, block: nat, address: Hash20,
                         keccak: Bytes -> Hash32, code: Bytes)
    requires block < |states|
  {
    if address !in states[block] || states[block][address].info.codeHash == keccak([]) then code == []
    else
      exists h: Hash32, r ::
        states[block][address].info.codeHash == h && IsCode(codes, h, block, r) && code == r.value
  }

  /** The Worker's answer about code is the published blob of the flat account's code hash; an honest store gives it. */
  method ReadCode(worker: Worker.Reader, address: Hash20, block: U64, keccak: Bytes -> Hash32, ghost code: Bytes,
                  ghost cas: Cas, ghost actions: seq<Action>, ghost i: nat, ghost states: seq<L.State>,
                  ghost kv: L.Archive, ghost blocks: seq<L.Change>, ghost codes: set<Record>)
    returns (r: Result<Bytes>)
    requires worker.Valid() && Worker.AllShaped(worker.backs)
    requires worker.gets == 1 && worker.fetched == Worker.MIB / 4
    requires Exported(cas, actions, i, states, kv, blocks, codes, block) && Genuine(keccak, codes) && block < |states|
    requires CodeIs(states, codes, block, address, keccak, code)
    requires Realizes(Runs(After(cas, actions).log[i].head), worker.runs, worker.backs)
    modifies worker`gets, worker`fetched, worker`shards
    ensures r.Ok? ==> r.value == code
    ensures
      var read := key => FlatRead(Packages(After(cas, actions).log), key, block);
      (Worker.NoCodeChance(worker.c, worker.runs, worker.backs, read, address)
       && Worker.AllServed(worker.c, worker.runs, worker.backs, worker.objects, worker.summaries)) ==> r.Ok?
  {
    hide After, Realizes, ReadsAs, Worker.NoCodeChance, Worker.AllServed, Worker.AllShaped, FlatRead, CodeOf, Exported;
    hide CodeThere, CodeMeans, IsCode, Genuine;
    ExportedHead(cas, actions, i, states, kv, blocks, codes, block);
    EveryRunAnswers(cas, actions, i, worker.runs, worker.backs, block);
    ghost var read := key => FlatRead(Packages(After(cas, actions).log), key, block);
    EveryRunReadsCode(cas, actions, i, worker.runs, worker.backs, states, kv, blocks, codes, block, address, keccak,
                      read);
    CodeOfIff(read, keccak, Worker.MIB, address);
    EnoughRoom(|worker.runs|);
    r := worker.CodeAt(address, block, keccak, read);
  }

  lemma ExportedHead(cas: Cas, actions: seq<Action>, i: nat, states: seq<L.State>, kv: L.Archive,
                     blocks: seq<L.Change>, codes: set<Record>, block: nat)
    requires Exported(cas, actions, i, states, kv, blocks, codes, block)
    ensures i < |After(cas, actions).log| && block <= After(cas, actions).log[i].head.number
  {
  }

  lemma EnoughRoom(runs: nat)
    requires runs <= MAX_L0_BACKLOG + MAX_LEVELS
    ensures Worker.Room(1, Worker.MIB / 4, 3 * runs + 12)
  {
  }

  /** The same through the native reader. */
  method ReadCodeNative(native: Native.Reader, address: Hash20, block: U64, keccak: Bytes -> Hash32, ghost code: Bytes,
                        ghost cas: Cas, ghost actions: seq<Action>, ghost i: nat, ghost states: seq<L.State>,
                        ghost kv: L.Archive, ghost blocks: seq<L.Change>, ghost codes: set<Record>)
    returns (r: Result<Bytes>)
    requires native.Valid() && block <= native.number
    requires Exported(cas, actions, i, states, kv, blocks, codes, block) && Genuine(keccak, codes) && block < |states|
    requires CodeIs(states, codes, block, address, keccak, code)
    requires Realizes(Runs(After(cas, actions).log[i].head), native.runs, native.backs)
    modifies native`cache, native`gets, native`bytes
    ensures r.Ok? ==> r.value == code
    ensures
      var read := key => FlatRead(Packages(After(cas, actions).log), key, block);
      (Worker.NoCodeChance(native.c, native.runs, native.backs, read, address)
       && Worker.AllServed(native.c, native.runs, native.backs, native.objects, native.summaries)) ==> r.Ok?
  {
    hide After, Realizes, ReadsAs, Worker.NoCodeChance, Worker.AllServed, FlatRead, CodeOf, Exported;
    hide CodeThere, CodeMeans, IsCode, Genuine;
    ExportedHead(cas, actions, i, states, kv, blocks, codes, block);
    EveryRunAnswers(cas, actions, i, native.runs, native.backs, block);
    ghost var read := key => FlatRead(Packages(After(cas, actions).log), key, block);
    EveryRunReadsCode(cas, actions, i, native.runs, native.backs, states, kv, blocks, codes, block, address, keccak,
                      read);
    CodeOfIff(read, keccak, Worker.MIB, address);
    r := native.Code(address, block, keccak, read);
  }

  // ---------------------------------------------------------------- the code of an export

  /** The blob is of the baseline, or of one of the blocks. */
  ghost predicate Blob(base: seq<N.CodeBlob>, codes: seq<seq<N.CodeBlob>>, b: N.CodeBlob)
  {
    b in base || exists i :: 0 <= i < |codes| && b in codes[i]
  }

  /** Every blob hashes to its name and is no larger than a reader takes. */
  ghost predicate BlobsOk(keccak: Bytes -> Hash32, base: seq<N.CodeBlob>, codes: seq<seq<N.CodeBlob>>)
  {
    forall b :: Blob(base, codes, b) ==> keccak(b.bytes) == b.hash && |b.bytes| <= Worker.MIB
  }

  lemma {:induction false} CodesOfBlobs(codes: seq<seq<N.CodeBlob>>, n: nat, r: Record)
    requires n <= |codes|
    ensures r in X.CodesOf(codes, 0, n) <==>
            exists i, b :: 0 <= i < n && b in codes[i] && r == Record(CodeKey(b.hash), b.block, b.bytes)
  {
    hide CodeKey;
    if n > 0 {
      CodesOfBlobs(codes, n - 1, r);
      CodeRecordsAre(codes[n - 1], r);
    }
  }

  lemma CodeRecordsAre(blobs: seq<N.CodeBlob>, r: Record)
    ensures r in Contents(P.CodeRecords(blobs)) <==>
            exists b :: b in blobs && r == Record(CodeKey(b.hash), b.block, b.bytes)
  {
    hide CodeKey;
    if b :| b in blobs && r == Record(CodeKey(b.hash), b.block, b.bytes) {
      var i :| 0 <= i < |blobs| && blobs[i] == b;
      assert P.CodeRecords(blobs)[i] == r;
    }
  }

  /** What is published of the code is every blob's own bytes under its hash, and nothing else. */
  lemma BlobsPublished(base: seq<N.CodeBlob>, codes: seq<seq<N.CodeBlob>>, r: Record)
    ensures r in X.AllCodes(base, codes, |codes|) <==>
            exists b :: Blob(base, codes, b) && r == Record(CodeKey(b.hash), b.block, b.bytes)
  {
    hide CodeKey, X.CodesOf, P.CodeRecords;
    CodesOfBlobs(codes, |codes|, r);
    CodeRecordsAre(base, r);
  }

  lemma CodesGenuine(keccak: Bytes -> Hash32, base: seq<N.CodeBlob>, codes: seq<seq<N.CodeBlob>>)
    requires BlobsOk(keccak, base, codes)
    ensures Genuine(keccak, X.AllCodes(base, codes, |codes|))
  {
    hide X.AllCodes, Blob;
    forall r, h | r in X.AllCodes(base, codes, |codes|) && r.key == CodeKey(h)
      ensures keccak(r.value) == h && |r.value| <= Worker.MIB
    {
      BlobsPublished(base, codes, r);
      var b :| Blob(base, codes, b) && r == Record(CodeKey(b.hash), b.block, b.bytes);
      SameHash(b.hash, h);
    }
  }

  lemma SameHash(g: Hash32, h: Hash32)
    requires CodeKey(g) == CodeKey(h)
    ensures g == h
  {
    assert CodeKey(g)[1..] == g && CodeKey(h)[1..] == h;
  }

  /** A blob published at or before the block, the only one of its hash, is the code under that hash. */
  lemma BlobIsCode(keccak: Bytes -> Hash32, base: seq<N.CodeBlob>, codes: seq<seq<N.CodeBlob>>, block: nat,
                   b: N.CodeBlob)
    requires Blob(base, codes, b) && b.block <= block
    requires forall d :: Blob(base, codes, d) && d.hash == b.hash ==> d.bytes == b.bytes
    ensures IsCode(X.AllCodes(base, codes, |codes|), b.hash, block, Record(CodeKey(b.hash), b.block, b.bytes))
  {
    hide X.AllCodes, Blob;
    var r := Record(CodeKey(b.hash), b.block, b.bytes);
    BlobsPublished(base, codes, r);
    forall q | q in X.AllCodes(base, codes, |codes|) && q.key == r.key ensures q.value == r.value {
      BlobsPublished(base, codes, q);
      var d :| Blob(base, codes, d) && q == Record(CodeKey(d.hash), d.block, d.bytes);
      SameHash(d.hash, b.hash);
    }
  }

  /**
   Packages cut from an export, read through any head: the code of a live account is the
   blob exported under its code hash.
   */
  lemma ExportReadsCode(cas: Cas, actions: seq<Action>, i: nat, views: seq<Views.View>, bs: seq<Views.Backing>,
                        states: seq<L.State>, kv: L.Archive, blocks: seq<L.Change>, base: seq<N.CodeBlob>,
                        codes: seq<seq<N.CodeBlob>>, block: nat, address: Hash20, keccak: Bytes -> Hash32,
                        read: Lookups, b: N.CodeBlob)
    requires |codes| == |blocks| && BlobsOk(keccak, base, codes)
    requires Exported(cas, actions, i, states, kv, blocks, X.AllCodes(base, codes, |blocks|), block)
    requires Realizes(Runs(After(cas, actions).log[i].head), views, bs) && ReadsAs(Views.AllRecords(bs), block, read)
    requires Blob(base, codes, b) && b.block <= block
    requires forall d :: Blob(base, codes, d) && d.hash == b.hash ==> d.bytes == b.bytes
    ensures block < |states|
    ensures address in states[block] && states[block][address].info.codeHash == b.hash != keccak([]) ==>
              CodeOf(read, keccak, Worker.MIB, address) == Ok(b.bytes)
  {
    hide After, Realizes, ReadsAs, Exported, X.AllCodes, Blob, BlobsOk, Genuine, IsCode, CodeOf, CodeKey;
    CodesGenuine(keccak, base, codes);
    BlobIsCode(keccak, base, codes, block, b);
    EveryRunReadsCode(cas, actions, i, views, bs, states, kv, blocks, X.AllCodes(base, codes, |blocks|), block, address,
                      keccak, read);
  }
}
