/**
 From the exporter's events to archive records: whatever reads the records of an exported
 history by block sees the flat state after that block.
 */
module Exports {
  import opened Bytes
  import opened Versions
  import opened StateReads
  import K = Keys
  import L = Lifetimes

  // ---------------------------------------------------------------- events as records

  ghost predicate KeyFits(k: L.StateKey)
  {
    |k.address| == 20 && (k.Storage? ==> k.incarnation < 0x1_0000_0000_0000_0000 && |k.slot| == 32)
  }

  ghost predicate InfoFits(info: L.Info)
  {
    info.nonce < 0x1_0000_0000_0000_0000 && |info.balance| == 32 && |info.codeHash| == 32
  }

  /** The event has the widths the normalized format gives its fields. */
  ghost predicate EventFits(e: L.Event)
  {
    && KeyFits(e.key)
    && (e.key.Account? ==> e.value.AccountValue? && e.value.incarnation < 0x1_0000_0000_0000_0000
                           && (e.value.info.Some? ==> InfoFits(e.value.info.value)))
    && (e.key.Storage? ==> e.value.SlotValue? && |e.value.value| == 32)
  }

  ghost function NameOf(k: L.StateKey): K.Name
    requires KeyFits(k)
  {
    match k
    case Account(a) => K.Account(a)
    case Storage(a, i, s) => K.Storage(a, i, s)
  }

  ghost function KeyBytes(k: L.StateKey): Bytes
  {
    if KeyFits(k) then K.KeyOf(NameOf(k)) else []
  }

  ghost function StateOf(incarnation: U64, info: Option<L.Info>): K.AccountState
  {
    if info.Some? && InfoFits(info.value)
    then K.AccountState(true, incarnation, info.value.nonce, info.value.balance, info.value.codeHash)
    else K.AccountState(false, incarnation, 0, K.ZERO32, K.ZERO32)
  }

  ghost function ValueBytes(v: L.StateValue): Bytes
  {
    match v
    case AccountValue(i, info) => if i < 0x1_0000_0000_0000_0000 then K.EncodeState(StateOf(i, info)) else []
    case SlotValue(value) => value
  }

  ghost function RecordOf(e: L.Event, block: U64): Record
  {
    Record(KeyBytes(e.key), block, ValueBytes(e.value))
  }

  ghost function Answer(v: Option<L.StateValue>): Option<Bytes>
  {
    if v.Some? then Some(ValueBytes(v.value)) else None
  }

  lemma KeyBytesInjective(k: L.StateKey, m: L.StateKey)
    requires KeyFits(k) && KeyFits(m) && KeyBytes(k) == KeyBytes(m)
    ensures k == m
  {
    hide K.KeyOf;
    K.KeysInjective(NameOf(k), NameOf(m));
  }

  // ---------------------------------------------------------------- the records of a history

  ghost predicate AllFit(events: seq<L.Event>)
  {
    forall e :: e in events ==> EventFits(e)
  }

  ghost function Recorded(events: seq<L.Event>, block: U64): set<Record>
  {
    set e | e in events :: RecordOf(e, block)
  }

  ghost function BaseRecords(kv: L.Archive, base: U64): set<Record>
  {
    set k | k in kv :: RecordOf(L.Event(k, kv[k]), base)
  }

  ghost function LastEvents(kv: L.Archive, blocks: seq<L.Change>): seq<L.Event>
    requires blocks != []
  {
    match L.Exported(kv, blocks[..|blocks| - 1])
    case None => []
    case Some((rows, _)) =>
      match L.BlockOut(rows, blocks[|blocks| - 1])
      case None => []
      case Some((_, events)) => events
  }

  /** The baseline is block `base`; the blocks follow it; every event fits its fields. */
  ghost predicate Fits(kv: L.Archive, blocks: seq<L.Change>, base: nat)
  {
    && base + |blocks| < 0x1_0000_0000_0000_0000
    && if blocks == [] then forall k :: k in kv ==> EventFits(L.Event(k, kv[k]))
       else Fits(kv, blocks[..|blocks| - 1], base) && AllFit(LastEvents(kv, blocks))
  }

  /** Every record of the baseline and of the blocks. */
  ghost function Written(kv: L.Archive, blocks: seq<L.Change>, base: nat): set<Record>
    requires Fits(kv, blocks, base)
  {
    if blocks == [] then BaseRecords(kv, base)
    else Written(kv, blocks[..|blocks| - 1], base) + Recorded(LastEvents(kv, blocks), base + |blocks|)
  }

  lemma {:induction false} WrittenBound(kv: L.Archive, blocks: seq<L.Change>, base: nat, r: Record)
    requires Fits(kv, blocks, base) && r in Written(kv, blocks, base)
    ensures base <= r.block <= base + |blocks|
  {
    if blocks != [] && r in Written(kv, blocks[..|blocks| - 1], base) {
      WrittenBound(kv, blocks[..|blocks| - 1], base, r);
    }
  }

  /** What one event list does to one key. */
  lemma {:induction false} ApplyGet(kv: L.Archive, events: seq<L.Event>, k: L.StateKey)
    ensures
      || (exists e :: e in events && e.key == k && L.Get(L.Apply(kv, events), k) == Some(e.value))
      || ((forall e :: e in events ==> e.key != k) && L.Get(L.Apply(kv, events), k) == L.Get(kv, k))
  {
    if events != [] {
      var front, last := events[..|events| - 1], events[|events| - 1];
      ApplyGet(kv, front, k);
      assert last in events;
      assert forall e :: e in events <==> e in front || e == last;
    }
  }

  lemma StepArchive(kv: L.Archive, blocks: seq<L.Change>)
    requires blocks != [] && L.Exported(kv, blocks).Some?
    ensures L.Exported(kv, blocks[..|blocks| - 1]).Some?
    ensures L.Exported(kv, blocks).value.1
            == L.Apply(L.Exported(kv, blocks[..|blocks| - 1]).value.1, LastEvents(kv, blocks))
  {
    hide L.BlockOut, L.Apply;
  }

  /** The answer of the records at every block is the archive as of that block. */
  lemma {:induction false} WrittenAnswers(kv: L.Archive, blocks: seq<L.Change>, base: nat, m: nat, k: L.StateKey)
    requires Fits(kv, blocks, base) && L.Exported(kv, blocks).Some? && m <= |blocks| && KeyFits(k)
    requires L.Exported(kv, blocks[..m]).Some?
    ensures
      var archive := L.Exported(kv, blocks[..m]).value.1;
      IsAnswer(Written(kv, blocks, base), KeyBytes(k), base + m, Answer(L.Get(archive, k)))
    decreases |blocks|
  {
    hide L.Exported, L.Apply, LastEvents, KeyBytes, ValueBytes, IsAnswer, KeyFits, EventFits, L.Get;
    if blocks == [] {
      assert blocks[..m] == [];
      BaseAnswers(kv, base, k);
    } else {
      var front := blocks[..|blocks| - 1];
      StepArchive(kv, blocks);
      var older := Written(kv, front, base);
      var newer := Recorded(LastEvents(kv, blocks), base + |blocks|);
      if m < |blocks| {
        assert front[..m] == blocks[..m];
        WrittenAnswers(kv, front, base, m, k);
        AnswerStable(older, newer, KeyBytes(k), base + m, Answer(L.Get(L.Exported(kv, blocks[..m]).value.1, k)));
      } else {
        assert blocks[..m] == blocks && front[..|front|] == front;
        WrittenAnswers(kv, front, base, |front|, k);
        forall r | r in older ensures base <= r.block <= base + |front| { WrittenBound(kv, front, base, r); }
        LastAnswers(older, L.Exported(kv, front).value.1, LastEvents(kv, blocks), base + |blocks|, k);
      }
    }
  }

  lemma BaseAnswers(kv: L.Archive, base: nat, k: L.StateKey)
    requires Fits(kv, [], base) && KeyFits(k) && L.Exported(kv, []).Some?
    ensures IsAnswer(BaseRecords(kv, base), KeyBytes(k), base, Answer(L.Get(L.Exported(kv, []).value.1, k)))
  {
    hide ValueBytes, KeyFits;
    if k in kv {
      var r := RecordOf(L.Event(k, kv[k]), base);
      assert Newest(BaseRecords(kv, base), KeyBytes(k), base, r);
    } else {
      forall r | r in BaseRecords(kv, base) ensures r.key != KeyBytes(k) {
        var m :| m in kv && r == RecordOf(L.Event(m, kv[m]), base);
        if KeyBytes(m) == KeyBytes(k) { KeyBytesInjective(m, k); }
      }
    }
  }

  lemma LastAnswers(older: set<Record>, kv: L.Archive, events: seq<L.Event>, block: U64, k: L.StateKey)
    requires AllFit(events) && KeyFits(k) && block > 0
    requires forall r :: r in older ==> r.block <= block - 1
    requires IsAnswer(older, KeyBytes(k), block - 1, Answer(L.Get(kv, k)))
    ensures IsAnswer(older + Recorded(events, block), KeyBytes(k), block, Answer(L.Get(L.Apply(kv, events), k)))
  {
    hide L.Apply, ValueBytes, KeyBytes, KeyFits, L.Get;
    var newer := Recorded(events, block);
    ApplyGet(kv, events, k);
    if e :| e in events && e.key == k && L.Get(L.Apply(kv, events), k) == Some(e.value) {
      var r := RecordOf(e, block);
      assert r in newer;
      assert Newest(older + newer, KeyBytes(k), block, r);
    } else {
      forall r | r in newer ensures r.key != KeyBytes(k) {
        var e :| e in events && r == RecordOf(e, block);
        assert EventFits(e);
        if KeyBytes(e.key) == KeyBytes(k) { KeyBytesInjective(e.key, k); }
      }
      AnswerClamped(older, block - 1, KeyBytes(k), block, Answer(L.Get(kv, k)));
      AnswerLayers(older, newer, KeyBytes(k), block, Answer(L.Get(kv, k)), None);
    }
  }

  // ---------------------------------------------------------------- one version per key and block

  ghost predicate DistinctEvents(events: seq<L.Event>)
  {
    forall i, j :: 0 <= i < j < |events| ==> events[i].key != events[j].key
  }

  lemma {:induction false} AccountEvents(rows: L.Rows, accounts: seq<(L.Address, L.Entry)>)
    requires L.AccountsOut(rows, accounts).Some?
    ensures var events := L.AccountsOut(rows, accounts).value.1;
      |events| == |accounts| && forall i :: 0 <= i < |events| ==> events[i].key == L.Account(accounts[i].0)
  {
    hide L.Assign, L.Journaled;
    if accounts != [] { AccountEvents(rows, accounts[..|accounts| - 1]); }
  }

  lemma {:induction false} SlotEvents(a: L.Address, incarnation: nat, slots: seq<(L.Slot, L.Value)>)
    ensures var events := L.SlotsOut(a, incarnation, slots);
      |events| == |slots| && forall i :: 0 <= i < |events| ==> events[i].key == L.Storage(a, incarnation, slots[i].0)
  {
    if slots != [] { SlotEvents(a, incarnation, slots[..|slots| - 1]); }
  }

  ghost predicate OfAddress(storage: seq<(L.Address, seq<(L.Slot, L.Value)>)>, k: L.StateKey)
  {
    k.Storage? && exists i :: 0 <= i < |storage| && storage[i].0 == k.address
  }

  lemma {:induction false} StorageEvents(rows: L.Rows, storage: seq<(L.Address, seq<(L.Slot, L.Value)>)>)
    requires L.DistinctKeys(storage) && (forall i :: 0 <= i < |storage| ==> L.DistinctKeys(storage[i].1))
    requires L.StorageOut(rows, storage).Some?
    ensures DistinctEvents(L.StorageOut(rows, storage).value)
    ensures forall e :: e in L.StorageOut(rows, storage).value ==> OfAddress(storage, e.key)
  {
    if storage != [] {
      var last := |storage| - 1;
      var front := storage[..last];
      var (a, slots) := storage[last];
      StorageEvents(rows, front);
      var before := L.StorageOut(rows, front).value;
      var out := L.SlotsOut(a, L.IncarnationOf(rows, a), slots);
      SlotEvents(a, L.IncarnationOf(rows, a), slots);
      forall e | e in before ensures OfAddress(storage, e.key) && e.key.address != a {
        assert OfAddress(front, e.key);
        var i :| 0 <= i < |front| && front[i].0 == e.key.address;
        assert storage[i].0 != storage[last].0;
      }
      forall e | e in out ensures OfAddress(storage, e.key) {
        assert storage[last].0 == a;
      }
      assert L.DistinctKeys(storage[last].1);
      JoinDistinct(before, out);
    }
  }

  lemma JoinDistinct(a: seq<L.Event>, b: seq<L.Event>)
    requires DistinctEvents(a) && DistinctEvents(b)
    requires forall d, e :: d in a && e in b ==> d.key != e.key
    ensures DistinctEvents(a + b)
  {
    var all := a + b;
    forall i, j | 0 <= i < j < |all| ensures all[i].key != all[j].key {
      if i < |a| <= j { assert all[i] in a && all[j] in b; }
    }
  }

  /** A block writes every key at most once. */
  lemma BlockDistinct(rows: L.Rows, c: L.Change)
    requires L.DistinctChange(c) && L.BlockOut(rows, c).Some?
    ensures DistinctEvents(L.BlockOut(rows, c).value.1)
  {
    hide L.AccountsOut, L.StorageOut, DistinctEvents;
    var (after, accounts) := L.AccountsOut(rows, c.accounts).value;
    AccountEvents(rows, c.accounts);
    AccountsDistinct(c.accounts, accounts);
    StorageEvents(after, c.storage);
    var storage := L.StorageOut(after, c.storage).value;
    forall d, e | d in accounts && e in storage ensures d.key != e.key {
      assert OfAddress(c.storage, e.key);
    }
    JoinDistinct(accounts, storage);
  }

  lemma AccountsDistinct(accounts: seq<(L.Address, L.Entry)>, events: seq<L.Event>)
    requires L.DistinctKeys(accounts) && |events| == |accounts|
    requires forall i :: 0 <= i < |events| ==> events[i].key == L.Account(accounts[i].0)
    ensures DistinctEvents(events)
  {
  }

  lemma {:induction false} WrittenUnique(kv: L.Archive, blocks: seq<L.Change>, base: nat)
    requires Fits(kv, blocks, base) && forall i :: 0 <= i < |blocks| ==> L.DistinctChange(blocks[i])
    ensures UniqueVersions(Written(kv, blocks, base))
  {
    hide L.DistinctChange, L.Exported, L.BlockOut, KeyBytes, ValueBytes, KeyFits, LastEvents;
    if blocks == [] {
      BaseUnique(kv, base);
    } else {
      var front := blocks[..|blocks| - 1];
      WrittenUnique(kv, front, base);
      var events := LastEvents(kv, blocks);
      LastDistinct(kv, blocks);
      RecordedUnique(events, base + |blocks|);
      forall r | r in Written(kv, front, base) ensures r.block < base + |blocks| { WrittenBound(kv, front, base, r); }
    }
  }

  lemma BaseUnique(kv: L.Archive, base: nat)
    requires Fits(kv, [], base)
    ensures UniqueVersions(BaseRecords(kv, base))
  {
    hide KeyBytes, ValueBytes, KeyFits;
    forall r, q | r in BaseRecords(kv, base) && q in BaseRecords(kv, base) && At(r) == At(q) ensures r == q {
      var k :| k in kv && r == RecordOf(L.Event(k, kv[k]), base);
      var m :| m in kv && q == RecordOf(L.Event(m, kv[m]), base);
      assert EventFits(L.Event(k, kv[k])) && EventFits(L.Event(m, kv[m]));
      KeyBytesInjective(k, m);
    }
  }

  lemma LastDistinct(kv: L.Archive, blocks: seq<L.Change>)
    requires blocks != [] && L.DistinctChange(blocks[|blocks| - 1])
    ensures DistinctEvents(LastEvents(kv, blocks))
  {
    hide L.BlockOut, L.Exported, L.DistinctChange;
    match L.Exported(kv, blocks[..|blocks| - 1])
    case None =>
    case Some((rows, _)) =>
      if L.BlockOut(rows, blocks[|blocks| - 1]).Some? { BlockDistinct(rows, blocks[|blocks| - 1]); }
  }

  lemma RecordedUnique(events: seq<L.Event>, block: U64)
    requires AllFit(events) && DistinctEvents(events)
    ensures UniqueVersions(Recorded(events, block))
  {
    hide KeyBytes, ValueBytes, KeyFits;
    forall r, q | r in Recorded(events, block) && q in Recorded(events, block) && At(r) == At(q) ensures r == q {
      var d :| d in events && r == RecordOf(d, block);
      var e :| e in events && q == RecordOf(e, block);
      assert EventFits(d) && EventFits(e);
      KeyBytesInjective(d.key, e.key);
      var i :| 0 <= i < |events| && events[i] == d;
      var j :| 0 <= j < |events| && events[j] == e;
    }
  }

  // ---------------------------------------------------------------- the flat state

  /** Whatever the archive stores fits its fields. */
  lemma {:induction false} StoredFits(kv: L.Archive, blocks: seq<L.Change>, base: nat, k: L.StateKey)
    requires Fits(kv, blocks, base) && L.Exported(kv, blocks).Some? && k in L.Exported(kv, blocks).value.1
    ensures EventFits(L.Event(k, L.Exported(kv, blocks).value.1[k]))
  {
    hide EventFits, L.Apply, L.Exported, LastEvents;
    if blocks == [] {
      NoBlocks(kv);
    } else {
      var front := blocks[..|blocks| - 1];
      StepArchive(kv, blocks);
      var before := L.Exported(kv, front).value.1;
      ApplyGet(before, LastEvents(kv, blocks), k);
      if k in before { StoredFits(kv, front, base, k); }
      var events := LastEvents(kv, blocks);
      if e :| e in events && e.key == k && L.Get(L.Apply(before, events), k) == Some(e.value) {
        assert e == L.Event(k, e.value);
      }
    }
  }

  lemma NoBlocks(kv: L.Archive)
    ensures L.Exported(kv, []).Some? && L.Exported(kv, []).value.1 == kv
  {
  }

  /** `read` is the answer over `rs` for every account and storage key. */
  ghost predicate ReadsState(rs: set<Record>, block: int, read: Lookups)
  {
    forall k :: KeyFits(k) ==> IsAnswer(rs, KeyBytes(k), block, read(KeyBytes(k)))
  }

  /** Code blobs live under keys of their own and change no state answer. */
  lemma CodeApart(rs: set<Record>, codes: set<Record>, block: int, read: Lookups)
    requires forall r :: r in codes ==> exists h :: r.key == K.CodeKey(h)
    requires ReadsAs(rs + codes, block, read)
    ensures ReadsState(rs, block, read)
  {
    hide K.StorageKey, K.AccountKey;
    forall k | KeyFits(k) ensures IsAnswer(rs, KeyBytes(k), block, read(KeyBytes(k))) {
      var key := KeyBytes(k);
      forall r | r in codes ensures r.key != key {
        var h :| r.key == K.CodeKey(h);
        NotCode(k, h);
      }
      assert IsAnswer(rs + codes, key, block, read(key));
      if read(key).Some? {
        var r :| Newest(rs + codes, key, block, r) && r.value == read(key).value;
        assert Newest(rs, key, block, r);
      }
    }
  }

  lemma NotCode(k: L.StateKey, h: K.Hash32)
    requires KeyFits(k)
    ensures KeyBytes(k) != K.CodeKey(h)
  {
    hide K.KeyOf;
    if KeyBytes(k) == K.KeyOf(K.Code(h)) { K.KeysInjective(NameOf(k), K.Code(h)); }
    CodeName(h);
  }

  lemma CodeName(h: K.Hash32)
    ensures K.KeyOf(K.Code(h)) == K.CodeKey(h)
  {
  }

  lemma {:induction false} FitsPrefix(kv: L.Archive, blocks: seq<L.Change>, base: nat, m: nat)
    requires Fits(kv, blocks, base) && m <= |blocks|
    ensures Fits(kv, blocks[..m], base)
  {
    hide LastEvents, AllFit;
    if m < |blocks| {
      FitsPrefix(kv, blocks[..|blocks| - 1], base, m);
      assert blocks[..|blocks| - 1][..m] == blocks[..m];
    } else {
      assert blocks[..m] == blocks;
    }
  }

  /**
   Reading the records of an exported history at any of its blocks, account first, gives
   the flat state after that block: the account as it was and every slot as it was.
   */
  lemma ExportReadsFlat(states: seq<L.State>, kv: L.Archive, blocks: seq<L.Change>, base: nat, m: nat,
                        a: K.Hash20, slot: K.Hash32, read: Lookups)
    requires L.History(states, blocks) && L.Baseline(states[0], kv) && Fits(kv, blocks, base) && m <= |blocks|
    requires ReadsState(Written(kv, blocks, base), base + m, read)
    ensures StorageOf(read, a, slot) == Ok(L.SlotOf(states[m], a, slot))
    ensures LiveAccountOf(read, a).Ok? && (LiveAccountOf(read, a).value.Some? <==> a in states[m])
    ensures a in states[m] ==>
              var s, info := LiveAccountOf(read, a).value.value, states[m][a].info;
              s.nonce == info.nonce && s.balance == info.balance && s.codeHash == info.codeHash
    ensures AccountOf(read, a).Ok? && (a !in states[m] ==>
              AccountOf(read, a).value.None? || !AccountOf(read, a).value.value.live)
  {
    hide L.History, L.Baseline, IsAnswer, Written, Fits, L.Exported, K.EncodeState, K.DecodeState;
    HistoryDistinct(states, blocks);
    WrittenUnique(kv, blocks, base);
    L.EveryBlockReadsFlat(states, kv, blocks, m, a, slot);
    assert blocks[..|blocks|] == blocks;
    L.EveryBlockReadsFlat(states, kv, blocks, |blocks|, a, slot);
    var archive := L.Exported(kv, blocks[..m]).value.1;
    KeyReads(kv, blocks, base, m, L.Account(a), read);
    FitsPrefix(kv, blocks, base, m);
    if L.Account(a) in archive {
      StoredFits(kv, blocks[..m], base, L.Account(a));
      var v := archive[L.Account(a)];
      K.StateExact(ValueBytes(v), StateOf(v.incarnation, v.info));
      if v.info.Some? {
        var key := L.Storage(a, v.incarnation, slot);
        KeyReads(kv, blocks, base, m, key, read);
        if key in archive { StoredFits(kv, blocks[..m], base, key); }
      }
    }
  }

  lemma HistoryDistinct(states: seq<L.State>, blocks: seq<L.Change>)
    requires L.History(states, blocks)
    ensures |states| == |blocks| + 1 && forall i :: 0 <= i < |blocks| ==> L.DistinctChange(blocks[i])
  {
    hide L.StepAt, L.DistinctChange;
    forall i | 0 <= i < |blocks| ensures L.DistinctChange(blocks[i]) {
      assert L.Step(states[i], blocks[i], states[i + 1]);
    }
  }

  lemma KeyReads(kv: L.Archive, blocks: seq<L.Change>, base: nat, m: nat, k: L.StateKey, read: Lookups)
    requires Fits(kv, blocks, base) && m <= |blocks| && KeyFits(k)
    requires L.Exported(kv, blocks).Some? && L.Exported(kv, blocks[..m]).Some?
    requires UniqueVersions(Written(kv, blocks, base))
    requires ReadsState(Written(kv, blocks, base), base + m, read)
    ensures read(KeyBytes(k)) == Answer(L.Get(L.Exported(kv, blocks[..m]).value.1, k))
  {
    hide IsAnswer, UniqueVersions, L.Exported, Written, Fits, KeyBytes, ValueBytes, L.Get, KeyFits;
    assert IsAnswer(Written(kv, blocks, base), KeyBytes(k), base + m, read(KeyBytes(k)));
    WrittenAnswers(kv, blocks, base, m, k);
    AnswerUnique(Written(kv, blocks, base), KeyBytes(k), base + m, read(KeyBytes(k)),
      Answer(L.Get(L.Exported(kv, blocks[..m]).value.1, k)));
  }
}
