/**
 Account lifetimes. The exporter gives every lifetime of an address its own incarnation;
 storage is keyed by it, so a read that resolves the account first never sees a slot of
 an earlier lifetime. The reference is a flat state that really wipes storage.
 */
module Lifetimes {
  import opened Bytes

  type Address = Bytes
  type Slot = Bytes
  type Value = Bytes

  const ZERO: Value :=
    [0, 0, 0, 0, 0, 0, 0, 0, 0, 0, 0, 0, 0, 0, 0, 0, 0, 0, 0, 0, 0, 0, 0, 0, 0, 0, 0, 0, 0, 0, 0, 0]

  /** Nonce, balance and code hash of a live account. */
  datatype Info = Info(nonce: nat, balance: Value, codeHash: Value)

  // ---------------------------------------------------------------- the exporter's input

  /** One changed account as the replay reports it; `info` is absent for a dead account. */
  datatype Entry = Entry(info: Option<Info>, previousExists: bool, wiped: bool)

  /** One replayed block: its changed accounts and changed slots, each address once. */
  datatype Change = Change(accounts: seq<(Address, Entry)>, storage: seq<(Address, seq<(Slot, Value)>)>)

  ghost predicate DistinctKeys<K, V>(pairs: seq<(K, V)>)
  {
    forall i, j :: 0 <= i < j < |pairs| ==> pairs[i].0 != pairs[j].0
  }

  ghost predicate DistinctChange(c: Change)
  {
    && DistinctKeys(c.accounts) && DistinctKeys(c.storage)
    && forall i :: 0 <= i < |c.storage| ==> DistinctKeys(c.storage[i].1)
  }

  // ---------------------------------------------------------------- what it writes

  datatype StateKey = Account(address: Address) | Storage(address: Address, incarnation: nat, slot: Slot)
  datatype StateValue = AccountValue(incarnation: nat, info: Option<Info>) | SlotValue(value: Value)
  datatype Event = Event(key: StateKey, value: StateValue)

  /** A journal row: the newest incarnation of an address and whether it is live. */
  datatype Row = Row(incarnation: nat, live: bool)
  type Rows = map<Address, Row>

  function RowOf(rows: Rows, a: Address): Option<Row>
  {
    if a in rows then Some(rows[a]) else None
  }

  /** The incarnation `lifetime` returns, or a refusal of an inconsistent history. */
  function Assign(row: Option<Row>, e: Entry): Result<nat>
  {
    if row.Some? && row.value.live != e.previousExists then Err
    else
      var base := if row.None? then 0
                  else if e.info.Some? && !row.value.live then row.value.incarnation + 1
                  else row.value.incarnation;
      Ok(if e.info.Some? && e.previousExists && e.wiped then base + 1 else base)
  }

  /** Whether `lifetime` stores a row. */
  predicate Recorded(row: Option<Row>, e: Entry)
  {
    row.Some? || e.previousExists || e.info.Some?
  }

  function Journaled(rows: Rows, a: Address, e: Entry): (Rows, nat)
  {
    var given := Assign(RowOf(rows, a), e);
    var incarnation := if given.Ok? then given.value else 0;
    (if Recorded(RowOf(rows, a), e) then rows[a := Row(incarnation, e.info.Some?)] else rows, incarnation)
  }

  /** The journal and the events after a list of changed accounts; `None` once one is refused. */
  function AccountsOut(rows: Rows, accounts: seq<(Address, Entry)>): Option<(Rows, seq<Event>)>
  {
    if accounts == [] then Some((rows, []))
    else
      var (a, e) := accounts[|accounts| - 1];
      match AccountsOut(rows, accounts[..|accounts| - 1])
      case None => None
      case Some((before, events)) =>
        if Assign(RowOf(before, a), e).Err? then None
        else
          var (after, incarnation) := Journaled(before, a, e);
          Some((after, events + [Event(Account(a), AccountValue(incarnation, e.info))]))
  }

  function SlotsOut(a: Address, incarnation: nat, slots: seq<(Slot, Value)>): seq<Event>
  {
    if slots == [] then []
    else
      SlotsOut(a, incarnation, slots[..|slots| - 1])
        + [Event(Storage(a, incarnation, slots[|slots| - 1].0), SlotValue(slots[|slots| - 1].1))]
  }

  function IncarnationOf(rows: Rows, a: Address): nat
  {
    if a in rows then rows[a].incarnation else 0
  }

  function StorageOut(rows: Rows, storage: seq<(Address, seq<(Slot, Value)>)>): Option<seq<Event>>
  {
    if storage == [] then Some([])
    else
      var (a, slots) := storage[|storage| - 1];
      match StorageOut(rows, storage[..|storage| - 1])
      case None => None
      case Some(events) =>
        if a in rows && !rows[a].live then None
        else Some(events + SlotsOut(a, IncarnationOf(rows, a), slots))
  }

  /** One block of `convert`: the new journal and the emitted events. */
  function BlockOut(rows: Rows, c: Change): Option<(Rows, seq<Event>)>
  {
    match AccountsOut(rows, c.accounts)
    case None => None
    case Some((after, accounts)) =>
      match StorageOut(after, c.storage)
      case None => None
      case Some(storage) => Some((after, accounts + storage))
  }

  /** The journal knows the account as destroyed, so that its next appearance is a new life. */
  predicate Recreated(row: Option<Row>) { row.Some? && !row.value.live }

  /** No account falls back to an earlier life. */
  ghost predicate NeverFalls(before: Rows, after: Rows)
  {
    forall a :: IncarnationOf(before, a) <= IncarnationOf(after, a)
  }

  /** Every storage event is written under the current life of its account. */
  ghost predicate Current(rows: Rows, events: seq<Event>)
  {
    forall e :: e in events && e.key.Storage? ==> e.key.incarnation == IncarnationOf(rows, e.key.address)
  }

  lemma {:induction false} AccountsNeverFall(rows: Rows, accounts: seq<(Address, Entry)>)
    requires AccountsOut(rows, accounts).Some?
    ensures NeverFalls(rows, AccountsOut(rows, accounts).value.0)
    ensures forall e :: e in AccountsOut(rows, accounts).value.1 ==> e.key.Account?
  {
    if accounts != [] { AccountsNeverFall(rows, accounts[..|accounts| - 1]); }
  }

  lemma {:induction false} SlotsCurrent(rows: Rows, a: Address, slots: seq<(Slot, Value)>)
    ensures Current(rows, SlotsOut(a, IncarnationOf(rows, a), slots))
  {
    if slots != [] { SlotsCurrent(rows, a, slots[..|slots| - 1]); }
  }

  lemma {:induction false} StorageCurrent(rows: Rows, storage: seq<(Address, seq<(Slot, Value)>)>)
    requires StorageOut(rows, storage).Some?
    ensures Current(rows, StorageOut(rows, storage).value)
  {
    if storage != [] {
      StorageCurrent(rows, storage[..|storage| - 1]);
      SlotsCurrent(rows, storage[|storage| - 1].0, storage[|storage| - 1].1);
    }
  }

  /** The journal database of one export workspace. */
  class Journal {
    var rows: Rows

    constructor ()
      ensures rows == map[]
    {
      rows := map[];
    }

    /** Assign the incarnation of one changed account and replace its row. */
    method Lifetime(address: Address, e: Entry) returns (r: Result<nat>)
      modifies this
      ensures r == Assign(RowOf(old(rows), address), e)
      ensures rows == if r.Ok? then Journaled(old(rows), address, e).0 else old(rows)
      ensures r.Err? <==> address in old(rows) && old(rows)[address].live != e.previousExists
      ensures r.Ok? ==> IncarnationOf(old(rows), address) <= r.value <= IncarnationOf(old(rows), address) + 1
      ensures r.Ok? ==> (r.value > IncarnationOf(old(rows), address) <==>
                         e.info.Some? && (Recreated(RowOf(old(rows), address)) || (e.previousExists && e.wiped)))
    {
      var present := e.info.Some?;
      var found := address in rows;
      var incarnation: nat := 0;
      if found {
        incarnation := rows[address].incarnation;
        var before := rows[address].live;
        if before != e.previousExists {
          return Err;
        }
        if present && !before {
          incarnation := incarnation + 1;
        }
      }
      if present && e.previousExists && e.wiped {
        incarnation := incarnation + 1;
      }
      if found || e.previousExists || present {
        rows := rows[address := Row(incarnation, present)];
      }
      return Ok(incarnation);
    }

    /** The account and storage part of `convert` for one block. */
    method ConvertBlock(c: Change) returns (r: Option<seq<Event>>)
      modifies this
      ensures r.None? <==> BlockOut(old(rows), c).None?
      ensures r.Some? ==> BlockOut(old(rows), c) == Some((rows, r.value))
      ensures r.Some? ==> NeverFalls(old(rows), rows) && Current(rows, r.value)
    {
      var events: seq<Event> := [];
      for i := 0 to |c.accounts|
        invariant AccountsOut(old(rows), c.accounts[..i]) == Some((rows, events))
      {
        var (a, e) := c.accounts[i];
        assert c.accounts[..i + 1][..i] == c.accounts[..i];
        var given := Lifetime(a, e);
        if given.Err? {
          RefusedAccount(old(rows), c.accounts, i);
          return None;
        }
        events := events + [Event(Account(a), AccountValue(given.value, e.info))];
      }
      assert c.accounts[..|c.accounts|] == c.accounts;
      var storage: seq<Event> := [];
      for i := 0 to |c.storage|
        invariant AccountsOut(old(rows), c.accounts) == Some((rows, events))
        invariant StorageOut(rows, c.storage[..i]) == Some(storage)
      {
        var (a, slots) := c.storage[i];
        assert c.storage[..i + 1][..i] == c.storage[..i];
        if a in rows && !rows[a].live {
          RefusedStorage(rows, c.storage, i);
          return None;
        }
        var incarnation := IncarnationOf(rows, a);
        var out: seq<Event> := [];
        for k := 0 to |slots|
          invariant out == SlotsOut(a, incarnation, slots[..k])
        {
          assert slots[..k + 1][..k] == slots[..k];
          out := out + [Event(Storage(a, incarnation, slots[k].0), SlotValue(slots[k].1))];
        }
        assert slots[..|slots|] == slots;
        storage := storage + out;
      }
      assert c.storage[..|c.storage|] == c.storage;
      AccountsNeverFall(old(rows), c.accounts);
      StorageCurrent(rows, c.storage);
      return Some(events + storage);
    }
  }

  lemma {:induction false} RefusedAccount(rows: Rows, accounts: seq<(Address, Entry)>, i: nat)
    requires i < |accounts| && AccountsOut(rows, accounts[..i + 1]).None?
    ensures AccountsOut(rows, accounts).None?
    decreases |accounts|
  {
    if i + 1 < |accounts| {
      assert accounts[..|accounts| - 1][..i + 1] == accounts[..i + 1];
      RefusedAccount(rows, accounts[..|accounts| - 1], i);
    } else {
      assert accounts[..i + 1] == accounts;
    }
  }

  lemma {:induction false} RefusedStorage(rows: Rows, storage: seq<(Address, seq<(Slot, Value)>)>, i: nat)
    requires i < |storage| && StorageOut(rows, storage[..i + 1]).None?
    ensures StorageOut(rows, storage).None?
    decreases |storage|
  {
    if i + 1 < |storage| {
      assert storage[..|storage| - 1][..i + 1] == storage[..i + 1];
      RefusedStorage(rows, storage[..|storage| - 1], i);
    } else {
      assert storage[..i + 1] == storage;
    }
  }

  // ---------------------------------------------------------------- the flat reference

  /** A live account of the flat state; a slot that is not listed holds zero. */
  datatype Live = Live(info: Info, storage: map<Slot, Value>)
  type State = map<Address, Live>

  function InfoOf(st: State, a: Address): Option<Info>
  {
    if a in st then Some(st[a].info) else None
  }

  function SlotOf(st: State, a: Address, slot: Slot): Value
  {
    if a in st && slot in st[a].storage then st[a].storage[slot] else ZERO
  }

  /** The value a list of pairs gives a key. */
  function Find<K(==), V>(pairs: seq<(K, V)>, k: K): Option<V>
  {
    if pairs == [] then None
    else if pairs[|pairs| - 1].0 == k then Some(pairs[|pairs| - 1].1)
    else Find(pairs[..|pairs| - 1], k)
  }

  /** What the replay promises of one address: destruction and recreation empty its storage. */
  ghost predicate StepAt(before: State, c: Change, a: Address, after: State)
  {
    var entry := Find(c.accounts, a);
    var slots := Find(c.storage, a);
    && (entry.Some? ==> entry.value.previousExists == (a in before) && entry.value.info == InfoOf(after, a))
    && (entry.None? ==> InfoOf(after, a) == InfoOf(before, a))
    && (slots.Some? ==> a in after)
    && (a in after ==> forall slot :: SlotOf(after, a, slot) == NewSlot(before, entry, slots, a, slot))
  }

  function NewSlot(before: State, entry: Option<Entry>, slots: Option<seq<(Slot, Value)>>, a: Address, slot: Slot)
    : Value
  {
    if slots.Some? && Find(slots.value, slot).Some? then Find(slots.value, slot).value
    else if entry.Some? && entry.value.wiped then ZERO
    else SlotOf(before, a, slot)
  }

  ghost predicate Step(before: State, c: Change, after: State)
  {
    DistinctChange(c) && forall a :: StepAt(before, c, a, after)
  }

  // ---------------------------------------------------------------- the archive

  /** The newest version of every key, which is what a read at the current block sees. */
  type Archive = map<StateKey, StateValue>

  function Apply(kv: Archive, events: seq<Event>): Archive
  {
    if events == [] then kv
    else
      var e := events[|events| - 1];
      Apply(kv, events[..|events| - 1])[e.key := e.value]
  }

  function SlotAt(kv: Archive, a: Address, incarnation: nat, slot: Slot): Value
  {
    var key := Storage(a, incarnation, slot);
    if key in kv && kv[key].SlotValue? then kv[key].value else ZERO
  }

  /** The account-first storage read: resolve the lifetime, then the slot of that lifetime. */
  function ReadSlot(kv: Archive, a: Address, slot: Slot): Value
  {
    if Account(a) in kv && kv[Account(a)].AccountValue? && kv[Account(a)].info.Some?
    then SlotAt(kv, a, kv[Account(a)].incarnation, slot)
    else ZERO
  }

  function ReadInfo(kv: Archive, a: Address): Option<Info>
  {
    if Account(a) in kv && kv[Account(a)].AccountValue? then kv[Account(a)].info else None
  }

  /** The baseline anchor: every account is in its first lifetime, numbered zero. */
  ghost predicate Baseline(st: State, kv: Archive)
  {
    && (forall a :: Account(a) in kv <==> a in st)
    && (forall a :: a in st ==> kv[Account(a)] == AccountValue(0, Some(st[a].info)))
    && (forall a, i: nat, slot :: Storage(a, i, slot) in kv ==> i == 0 && a in st)
    && (forall a, slot :: a in st ==> SlotAt(kv, a, 0, slot) == SlotOf(st, a, slot))
    && (forall a, i: nat, slot :: Storage(a, i, slot) in kv ==> kv[Storage(a, i, slot)].SlotValue?)
  }

  // ---------------------------------------------------------------- the invariant

  /** No version of a later lifetime exists, and the current lifetime holds the flat storage. */
  ghost predicate TracksAt(rows: Rows, kv: Archive, st: State, a: Address)
  {
    && (a in rows ==> rows[a].live == (a in st))
    && (Account(a) in kv ==> kv[Account(a)].AccountValue? && kv[Account(a)].info == InfoOf(st, a))
    && (a in st ==>
          && Account(a) in kv && kv[Account(a)].incarnation == IncarnationOf(rows, a)
          && forall slot :: SlotAt(kv, a, IncarnationOf(rows, a), slot) == SlotOf(st, a, slot))
    && (forall i: nat, slot :: Storage(a, i, slot) in kv ==> i <= IncarnationOf(rows, a) && (a in rows || a in st))
  }

  ghost predicate Tracks(rows: Rows, kv: Archive, st: State)
  {
    forall a :: TracksAt(rows, kv, st, a)
  }

  lemma {:induction false} FindLast<K, V>(pairs: seq<(K, V)>)
    requires DistinctKeys(pairs) && pairs != []
    ensures Find(pairs[..|pairs| - 1], pairs[|pairs| - 1].0).None?
  {
    FindNone(pairs[..|pairs| - 1], pairs[|pairs| - 1].0);
  }

  lemma {:induction false} FindNone<K, V>(pairs: seq<(K, V)>, k: K)
    requires forall i :: 0 <= i < |pairs| ==> pairs[i].0 != k
    ensures Find(pairs, k).None?
  {
    if pairs != [] { FindNone(pairs[..|pairs| - 1], k); }
  }

  function Get(kv: Archive, key: StateKey): Option<StateValue>
  {
    if key in kv then Some(kv[key]) else None
  }

  /** Every changed account fits the journal. */
  ghost predicate Consistent(rows: Rows, accounts: seq<(Address, Entry)>)
  {
    forall a :: Find(accounts, a).Some? ==> Assign(RowOf(rows, a), Find(accounts, a).value).Ok?
  }

  /** The journal row and the versions of one address after a list of changed accounts. */
  lemma {:induction false} AccountsAt(rows: Rows, kv: Archive, accounts: seq<(Address, Entry)>, a: Address)
    requires DistinctKeys(accounts) && Consistent(rows, accounts)
    ensures AccountsOut(rows, accounts).Some?
    ensures
      var (after, events) := AccountsOut(rows, accounts).value;
      var entry := Find(accounts, a);
      && RowOf(after, a) == RowOf(if entry.Some? then Journaled(rows, a, entry.value).0 else rows, a)
      && Get(Apply(kv, events), Account(a))
           == (if entry.Some? then Some(AccountValue(Journaled(rows, a, entry.value).1, entry.value.info))
               else Get(kv, Account(a)))
      && forall i, slot :: Get(Apply(kv, events), Storage(a, i, slot)) == Get(kv, Storage(a, i, slot))
  {
    if accounts != [] {
      var last := |accounts| - 1;
      var front := accounts[..last];
      FindLast(accounts);
      forall b | Find(front, b).Some? ensures Assign(RowOf(rows, b), Find(front, b).value).Ok? {
        assert b != accounts[last].0;
        assert Find(accounts, b) == Find(front, b);
      }
      AccountsAt(rows, kv, front, a);
      AccountsAt(rows, kv, front, accounts[last].0);
      var (before, events) := AccountsOut(rows, front).value;
      var (a, entry) := accounts[last];
      var e := Event(Account(a), AccountValue(Journaled(before, a, entry).1, entry.info));
      assert AccountsOut(rows, accounts).value.1 == events + [e];
      assert (events + [e])[..|events|] == events;
    }
  }

  lemma {:induction false} SlotsAt(kv: Archive, a: Address, incarnation: nat, slots: seq<(Slot, Value)>, key: StateKey)
    ensures
      Get(Apply(kv, SlotsOut(a, incarnation, slots)), key)
        == if key.Storage? && key.address == a && key.incarnation == incarnation && Find(slots, key.slot).Some?
           then Some(SlotValue(Find(slots, key.slot).value))
           else Get(kv, key)
  {
    if slots != [] {
      var front := slots[..|slots| - 1];
      SlotsAt(kv, a, incarnation, front, key);
      var out := SlotsOut(a, incarnation, slots);
      assert out[..|out| - 1] == SlotsOut(a, incarnation, front);
    }
  }

  lemma {:induction false} ApplyConcat(kv: Archive, left: seq<Event>, right: seq<Event>)
    ensures Apply(kv, left + right) == Apply(Apply(kv, left), right)
  {
    if right == [] {
      assert left + right == left;
    } else {
      ApplyConcat(kv, left, right[..|right| - 1]);
      assert (left + right)[..|left + right| - 1] == left + right[..|right| - 1];
    }
  }

  /** The versions of one key after a list of changed slots. */
  lemma {:induction false} StorageAt(rows: Rows, kv: Archive, storage: seq<(Address, seq<(Slot, Value)>)>,
                                     key: StateKey)
    requires DistinctKeys(storage)
    requires forall a :: Find(storage, a).Some? && a in rows ==> rows[a].live
    ensures StorageOut(rows, storage).Some?
    ensures
      var slots := Find(storage, key.address);
      Get(Apply(kv, StorageOut(rows, storage).value), key)
        == if && key.Storage? && slots.Some? && key.incarnation == IncarnationOf(rows, key.address)
              && Find(slots.value, key.slot).Some?
           then Some(SlotValue(Find(slots.value, key.slot).value))
           else Get(kv, key)
  {
    if storage != [] {
      var last := |storage| - 1;
      var front := storage[..last];
      var (a, slots) := storage[last];
      FindLast(storage);
      forall b | Find(front, b).Some? && b in rows ensures rows[b].live {
        assert Find(storage, b).Some?;
      }
      assert Find(storage, a).Some?;
      StorageAt(rows, kv, front, key);
      var events := StorageOut(rows, front).value;
      ApplyConcat(kv, events, SlotsOut(a, IncarnationOf(rows, a), slots));
      SlotsAt(Apply(kv, events), a, IncarnationOf(rows, a), slots, key);
    }
  }

  // ---------------------------------------------------------------- one block keeps the invariant

  lemma TracksConsistent(rows: Rows, kv: Archive, before: State, c: Change, after: State)
    requires Tracks(rows, kv, before) && Step(before, c, after)
    ensures Consistent(rows, c.accounts)
  {
    forall a | Find(c.accounts, a).Some? ensures Assign(RowOf(rows, a), Find(c.accounts, a).value).Ok? {
      assert TracksAt(rows, kv, before, a) && StepAt(before, c, a, after);
    }
  }

  /** After the accounts of a block, every storage update is of a live account. */
  lemma LiveAfter(rows: Rows, kv: Archive, before: State, c: Change, after: State, middle: Rows)
    requires Tracks(rows, kv, before) && Step(before, c, after) && Consistent(rows, c.accounts)
    requires AccountsOut(rows, c.accounts).Some? && middle == AccountsOut(rows, c.accounts).value.0
    ensures forall a :: a in middle ==> middle[a].live == (a in after)
  {
    forall a | a in middle ensures middle[a].live == (a in after) {
      AccountsAt(rows, kv, c.accounts, a);
      assert TracksAt(rows, kv, before, a) && StepAt(before, c, a, after);
    }
  }

  /** `convert` accepts every consistent block, and the archive follows the flat state. */
  lemma BlockKeeps(rows: Rows, kv: Archive, before: State, c: Change, after: State)
    requires Tracks(rows, kv, before) && Step(before, c, after)
    ensures BlockOut(rows, c).Some?
    ensures Tracks(BlockOut(rows, c).value.0, Apply(kv, BlockOut(rows, c).value.1), after)
  {
    TracksConsistent(rows, kv, before, c, after);
    AccountsAt(rows, kv, c.accounts, []);
    var (middle, accounts) := AccountsOut(rows, c.accounts).value;
    LiveAfter(rows, kv, before, c, after, middle);
    forall a | Find(c.storage, a).Some? && a in middle ensures middle[a].live {
      assert StepAt(before, c, a, after);
    }
    StorageAt(middle, Apply(kv, accounts), c.storage, Account([]));
    var storage := StorageOut(middle, c.storage).value;
    ApplyConcat(kv, accounts, storage);
    forall a ensures TracksAt(middle, Apply(kv, accounts + storage), after, a) {
      AddressKeeps(rows, kv, before, c, after, a);
    }
  }

  lemma AddressKeeps(rows: Rows, kv: Archive, before: State, c: Change, after: State, a: Address)
    requires TracksAt(rows, kv, before, a) && StepAt(before, c, a, after)
    requires DistinctChange(c) && Consistent(rows, c.accounts) && BlockOut(rows, c).Some?
    requires forall b :: Find(c.storage, b).Some? && b in BlockOut(rows, c).value.0 ==>
               BlockOut(rows, c).value.0[b].live
    ensures TracksAt(BlockOut(rows, c).value.0, Apply(kv, BlockOut(rows, c).value.1), after, a)
  {
    var (middle, accounts) := AccountsOut(rows, c.accounts).value;
    var half := Apply(kv, accounts);
    var storage := StorageOut(middle, c.storage).value;
    var full := Apply(kv, accounts + storage);
    ApplyConcat(kv, accounts, storage);
    AccountsAt(rows, kv, c.accounts, a);
    StorageAt(middle, half, c.storage, Account(a));
    assert Get(full, Account(a)) == Get(half, Account(a));
    forall i, slot ensures SlotKept(kv, full, Find(c.storage, a), IncarnationOf(middle, a), a, i, slot) {
      StorageAt(middle, half, c.storage, Storage(a, i, slot));
      assert Get(half, Storage(a, i, slot)) == Get(kv, Storage(a, i, slot));
    }
    AddressFollows(rows, kv, before, c, after, a, middle, full);
  }

  /** The new version of one slot key of `a`, whose incarnation is now `current`. */
  ghost predicate SlotKept(kv: Archive, full: Archive, slots: Option<seq<(Slot, Value)>>, current: nat,
                           a: Address, i: nat, slot: Slot)
  {
    Get(full, Storage(a, i, slot))
      == if slots.Some? && i == current && Find(slots.value, slot).Some?
         then Some(SlotValue(Find(slots.value, slot).value))
         else Get(kv, Storage(a, i, slot))
  }

  lemma AddressFollows(rows: Rows, kv: Archive, before: State, c: Change, after: State, a: Address,
                       middle: Rows, full: Archive)
    requires TracksAt(rows, kv, before, a) && StepAt(before, c, a, after)
    requires Find(c.accounts, a).Some? ==> Assign(RowOf(rows, a), Find(c.accounts, a).value).Ok?
    requires
      var entry := Find(c.accounts, a);
      RowOf(middle, a) == RowOf(if entry.Some? then Journaled(rows, a, entry.value).0 else rows, a)
    requires
      var entry := Find(c.accounts, a);
      Get(full, Account(a))
      == (if entry.Some? then Some(AccountValue(Journaled(rows, a, entry.value).1, entry.value.info))
          else Get(kv, Account(a)))
    requires forall i, slot :: SlotKept(kv, full, Find(c.storage, a), IncarnationOf(middle, a), a, i, slot)
    ensures TracksAt(middle, full, after, a)
  {
    var entry := Find(c.accounts, a);
    var slots := Find(c.storage, a);
    var was := IncarnationOf(rows, a);
    var current := IncarnationOf(middle, a);
    assert was <= current;
    forall i, slot | Storage(a, i, slot) in full ensures i <= current && (a in middle || a in after) {
      assert SlotKept(kv, full, slots, current, a, i, slot);
    }
    if a in after {
      forall slot ensures SlotAt(full, a, current, slot) == SlotOf(after, a, slot) {
        assert SlotKept(kv, full, slots, current, a, current, slot);
        assert SlotOf(after, a, slot) == NewSlot(before, entry, slots, a, slot);
        if was == current && a in before {
          assert SlotAt(kv, a, current, slot) == SlotOf(before, a, slot);
        } else {
          assert Storage(a, current, slot) !in kv;
        }
      }
    }
  }

  // ---------------------------------------------------------------- every history

  /** A baseline and the blocks after it, each consistent with the flat state it leaves. */
  ghost predicate History(states: seq<State>, blocks: seq<Change>)
  {
    && |states| == |blocks| + 1
    && forall i, j :: 0 <= i < |blocks| && j == i + 1 ==> Step(states[i], blocks[i], states[j])
  }

  /** The journal and archive after a list of blocks. */
  function Exported(kv: Archive, blocks: seq<Change>): Option<(Rows, Archive)>
  {
    if blocks == [] then Some((map[], kv))
    else
      match Exported(kv, blocks[..|blocks| - 1])
      case None => None
      case Some((rows, before)) =>
        match BlockOut(rows, blocks[|blocks| - 1])
        case None => None
        case Some((after, events)) => Some((after, Apply(before, events)))
  }

  lemma {:induction false} ExportTracks(states: seq<State>, kv: Archive, blocks: seq<Change>)
    requires History(states, blocks) && Baseline(states[0], kv)
    ensures Exported(kv, blocks).Some?
    ensures Tracks(Exported(kv, blocks).value.0, Exported(kv, blocks).value.1, states[|blocks|])
  {
    if blocks == [] {
      forall a ensures TracksAt(map[], kv, states[0], a) {}
    } else {
      var last := |blocks| - 1;
      assert History(states[..|blocks|], blocks[..last]);
      ExportTracks(states[..|blocks|], kv, blocks[..last]);
      var (rows, before) := Exported(kv, blocks[..last]).value;
      assert Step(states[last], blocks[last], states[last + 1]);
      BlockKeeps(rows, before, states[last], blocks[last], states[last + 1]);
    }
  }

  /**
   After every block of every consistent history, account-first reads through
   incarnations see exactly the flat state: no slot of an earlier lifetime is visible.
   */
  lemma EveryBlockReadsFlat(states: seq<State>, kv: Archive, blocks: seq<Change>, n: nat, a: Address, slot: Slot)
    requires History(states, blocks) && Baseline(states[0], kv) && n <= |blocks|
    ensures Exported(kv, blocks[..n]).Some?
    ensures ReadSlot(Exported(kv, blocks[..n]).value.1, a, slot) == SlotOf(states[n], a, slot)
    ensures ReadInfo(Exported(kv, blocks[..n]).value.1, a) == InfoOf(states[n], a)
  {
    assert History(states[..n + 1], blocks[..n]);
    ExportTracks(states[..n + 1], kv, blocks[..n]);
    var (rows, archive) := Exported(kv, blocks[..n]).value;
    assert TracksAt(rows, archive, states[n], a);
  }
}
