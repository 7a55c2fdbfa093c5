/**
 From an accepted package to the records of its run: sorted, one version per key and
 block, inside the package's interval; and the lifecycle check that makes every storage
 record of the package readable at its own block.
 */
module Packaging {
  import opened Bytes
  import opened Versions
  import opened Keys
  import opened Head
  import opened Ledger
  import opened StateReads
  import opened Normalized

  const MAX_STAGED := 256 * 1024 * 1024
  const MAX_CODE := 1024 * 1024

  // ---------------------------------------------------------------- records of events

  function AccountRecord(e: AccountEvent): Record { Record(AccountKey(e.address), e.block, EncodeState(e.state)) }

  function StorageRecord(e: StorageEvent): Record
  {
    Record(StorageKey(e.address, e.incarnation, e.slot), e.block, e.value)
  }

  function CodeRecord(b: CodeBlob): Record { Record(CodeKey(b.hash), b.block, b.bytes) }

  ghost predicate Candidate(g: Segment, r: Record)
  {
    || (exists e :: e in g.accounts && r == AccountRecord(e))
    || (exists e :: e in g.storage && r == StorageRecord(e))
    || (exists b :: b in g.code && r == CodeRecord(b))
  }

  /** The record has the same key as no other record of its block. */
  ghost predicate DistinctVersions(rs: seq<Record>)
  {
    forall i, j :: 0 <= i < j < |rs| ==> At(rs[i]) != At(rs[j])
  }

  lemma AccountApart(a: AccountEvent, b: AccountEvent)
    requires At(AccountRecord(a)) == At(AccountRecord(b))
    ensures a.block == b.block && a.address == b.address
  {
    KeysInjective(Account(a.address), Account(b.address));
  }

  lemma StorageApart(a: StorageEvent, b: StorageEvent)
    requires At(StorageRecord(a)) == At(StorageRecord(b))
    ensures a.block == b.block && SlotId(a) == SlotId(b)
  {
    KeysInjective(Storage(a.address, a.incarnation, a.slot), Storage(b.address, b.incarnation, b.slot));
  }

  lemma CodeApart(a: CodeBlob, b: CodeBlob)
    requires At(CodeRecord(a)) == At(CodeRecord(b))
    ensures a.hash == b.hash
  {
    KeysInjective(Code(a.hash), Code(b.hash));
  }

  lemma KindsApart(a: Hash20, b: Hash20, i: U64, s: Hash32, h: Hash32)
    ensures AccountKey(a) != StorageKey(b, i, s) && AccountKey(a) != CodeKey(h) && StorageKey(b, i, s) != CodeKey(h)
  {
    StorageFields(b, i, s);
    assert AccountKey(a)[0] == 1 && CodeKey(h)[0] == 3;
  }

  // ---------------------------------------------------------------- collecting

  function Size(rs: seq<Record>): nat
  {
    if rs == [] then 0 else Size(rs[..|rs| - 1]) + |rs[|rs| - 1].key| + |rs[|rs| - 1].value| + 32
  }

  function AccountRecords(es: seq<AccountEvent>): (rs: seq<Record>)
    ensures |rs| == |es| && forall i :: 0 <= i < |es| ==> rs[i] == AccountRecord(es[i])
  {
    seq(|es|, i requires 0 <= i < |es| => AccountRecord(es[i]))
  }

  function StorageRecords(es: seq<StorageEvent>): (rs: seq<Record>)
    ensures |rs| == |es| && forall i :: 0 <= i < |es| ==> rs[i] == StorageRecord(es[i])
  {
    seq(|es|, i requires 0 <= i < |es| => StorageRecord(es[i]))
  }

  function CodeRecords(bs: seq<CodeBlob>): (rs: seq<Record>)
    ensures |rs| == |bs| && forall i :: 0 <= i < |bs| ==> rs[i] == CodeRecord(bs[i])
  {
    seq(|bs|, i requires 0 <= i < |bs| => CodeRecord(bs[i]))
  }

  /** Every event as a record, in the order they are collected. */
  function Candidates(g: Segment): seq<Record>
  {
    AccountRecords(g.accounts) + StorageRecords(g.storage) + CodeRecords(g.code)
  }

  lemma CandidatesAre(g: Segment, r: Record)
    ensures r in Candidates(g) <==> Candidate(g, r)
  {
    hide AccountRecord, StorageRecord, CodeRecord;
    var a, s, d := AccountRecords(g.accounts), StorageRecords(g.storage), CodeRecords(g.code);
    assert r in Candidates(g) <==> r in a || r in s || r in d;
    assert r in a <==> exists e :: e in g.accounts && r == AccountRecord(e) by {
      if e :| e in g.accounts && r == AccountRecord(e) {
        var i :| 0 <= i < |g.accounts| && g.accounts[i] == e;
        assert a[i] == r;
      }
    }
    assert r in s <==> exists e :: e in g.storage && r == StorageRecord(e) by {
      if e :| e in g.storage && r == StorageRecord(e) {
        var i :| 0 <= i < |g.storage| && g.storage[i] == e;
        assert s[i] == r;
      }
    }
    assert r in d <==> exists b :: b in g.code && r == CodeRecord(b) by {
      if b :| b in g.code && r == CodeRecord(b) {
        var i :| 0 <= i < |g.code| && g.code[i] == b;
        assert d[i] == r;
      }
    }
  }

  /** The events of an accepted package have different versions, inside its interval. */
  lemma CandidatesDistinct(keccak: Bytes -> Hash32, bs: seq<Block>, g: Segment)
    requires SegmentOk(keccak, bs, g)
    ensures DistinctVersions(Candidates(g))
  {
    hide AccountRecord, StorageRecord, CodeRecord;
    var a, s, d := AccountRecords(g.accounts), StorageRecords(g.storage), CodeRecords(g.code);
    forall i, j | 0 <= i < j < |a| ensures At(a[i]) != At(a[j]) {
      if At(a[i]) == At(a[j]) { AccountApart(g.accounts[i], g.accounts[j]); }
    }
    forall i, j | 0 <= i < j < |s| ensures At(s[i]) != At(s[j]) {
      if At(s[i]) == At(s[j]) { StorageApart(g.storage[i], g.storage[j]); }
    }
    forall i, j | 0 <= i < j < |d| ensures At(d[i]) != At(d[j]) {
      if At(d[i]) == At(d[j]) { CodeApart(g.code[i], g.code[j]); }
    }
    forall i, j | 0 <= i < |a| && 0 <= j < |s| ensures At(a[i]) != At(s[j]) {
      AccountStorage(g.accounts[i], g.storage[j]);
    }
    forall i, j | 0 <= i < |a + s| && 0 <= j < |d| ensures At((a + s)[i]) != At(d[j]) {
      if i < |a| { AccountCode(g.accounts[i], g.code[j]); } else { StorageCode(g.storage[i - |a|], g.code[j]); }
    }
    Joined(a, s);
    Joined(a + s, d);
  }

  lemma AccountStorage(a: AccountEvent, s: StorageEvent)
    ensures At(AccountRecord(a)) != At(StorageRecord(s))
  {
    KindsApart(a.address, s.address, s.incarnation, s.slot, ZERO32);
  }

  lemma AccountCode(a: AccountEvent, b: CodeBlob)
    ensures At(AccountRecord(a)) != At(CodeRecord(b))
  {
    KindsApart(a.address, a.address, 0, ZERO32, b.hash);
  }

  lemma StorageCode(s: StorageEvent, b: CodeBlob)
    ensures At(StorageRecord(s)) != At(CodeRecord(b))
  {
    KindsApart(s.address, s.address, s.incarnation, s.slot, b.hash);
  }

  lemma Joined(a: seq<Record>, b: seq<Record>)
    requires DistinctVersions(a) && DistinctVersions(b)
    requires forall i, j :: 0 <= i < |a| && 0 <= j < |b| ==> At(a[i]) != At(b[j])
    ensures DistinctVersions(a + b)
  {
  }

  lemma CandidatesWithin(keccak: Bytes -> Hash32, bs: seq<Block>, g: Segment, r: Record)
    requires SegmentOk(keccak, bs, g) && r in Candidates(g)
    ensures Within(bs, r.block)
  {
    CandidatesAre(g, r);
  }

  // ---------------------------------------------------------------- sorting

  /** Insert a record into a sorted list, as sorting by `(key, block)` places it. */
  function Place(sorted: seq<Record>, r: Record): seq<Record>
  {
    if sorted == [] || Before(At(sorted[|sorted| - 1]), At(r)) then sorted + [r]
    else Place(sorted[..|sorted| - 1], r) + [sorted[|sorted| - 1]]
  }

  function SortRecords(rs: seq<Record>): seq<Record>
  {
    if rs == [] then [] else Place(SortRecords(rs[..|rs| - 1]), rs[|rs| - 1])
  }

  lemma {:induction false} PlaceSorted(sorted: seq<Record>, r: Record)
    requires Sorted(sorted) && forall q :: q in sorted ==> At(q) != At(r)
    ensures Sorted(Place(sorted, r)) && forall q :: q in Place(sorted, r) <==> q in sorted || q == r
  {
    hide Before;
    if sorted != [] {
      var front, last := sorted[..|sorted| - 1], sorted[|sorted| - 1];
      assert sorted == front + [last];
      if Before(At(last), At(r)) {
        SortedAppend(sorted, r);
      } else {
        assert last in sorted;
        BeforeTotal(At(last), At(r));
        PlaceSorted(front, r);
        var placed := Place(front, r);
        forall i | 0 <= i < |placed| ensures Before(At(placed[i]), At(last)) {
          assert placed[i] in placed;
          if placed[i] != r {
            var j :| 0 <= j < |front| && front[j] == placed[i];
            assert Before(At(sorted[j]), At(sorted[|sorted| - 1]));
          }
        }
        assert Sorted(placed + [last]);
      }
    }
  }

  /** Records with different versions sort strictly, and none is lost or invented. */
  lemma {:induction false} SortIsSorted(rs: seq<Record>)
    requires DistinctVersions(rs)
    ensures Sorted(SortRecords(rs)) && forall r :: r in SortRecords(rs) <==> r in rs
  {
    if rs != [] {
      var front, last := rs[..|rs| - 1], rs[|rs| - 1];
      SortIsSorted(front);
      forall q | q in SortRecords(front) ensures At(q) != At(last) {
        var i :| 0 <= i < |front| && front[i] == q;
        assert At(rs[i]) != At(rs[|rs| - 1]);
      }
      PlaceSorted(SortRecords(front), last);
      assert rs == front + [last];
    }
  }

  // ---------------------------------------------------------------- package records

  lemma SizeMore(rs: seq<Record>, r: Record)
    ensures Size(rs + [r]) == Size(rs) + |r.key| + |r.value| + 32
  {
    assert (rs + [r])[..|rs|] == rs;
  }

  lemma {:induction false} SizePrefix(rs: seq<Record>, i: nat)
    requires i <= |rs|
    ensures Size(rs[..i]) <= Size(rs)
  {
    if i < |rs| {
      assert rs[..|rs| - 1][..i] == rs[..i];
      SizePrefix(rs[..|rs| - 1], i);
    } else {
      assert rs[..i] == rs;
    }
  }

  lemma NoSize()
    ensures Size([]) == 0
  {
  }

  /** Collect one list of records, checking the interval and the staging bound. */
  method Collect(before: seq<Record>, more: seq<Record>, first: nat, last: nat) returns (r: Result<seq<Record>>)
    requires Size(before) <= MAX_STAGED
    ensures r.Ok? ==> r.value == before + more
    ensures r.Ok? <==> (forall q :: q in more ==> first <= q.block <= last) && Size(before + more) <= MAX_STAGED
  {
    hide Size;
    var records := before;
    for i := 0 to |more|
      invariant records == before + more[..i]
      invariant forall k :: 0 <= k < i ==> first <= more[k].block <= last
      invariant Size(records) <= MAX_STAGED
    {
      SizeMore(records, more[i]);
      assert records + [more[i]] == (before + more)[..|before| + i + 1];
      SizePrefix(before + more, |before| + i + 1);
      if !(first <= more[i].block <= last) {
        return Err;
      }
      if Size(records) + |more[i].key| + |more[i].value| + 32 > MAX_STAGED {
        return Err;
      }
      records := records + [more[i]];
    }
    assert more[..|more|] == more;
    return Ok(records);
  }

  /** Codes are small enough and hash to their name. */
  ghost predicate CodesOk(keccak: Bytes -> Hash32, blobs: seq<CodeBlob>)
  {
    forall b :: b in blobs ==> |b.bytes| <= MAX_CODE && keccak(b.bytes) == b.hash
  }

  /** The sorted records of a package's run. */
  method PackageRecords(g: Segment, keccak: Bytes -> Hash32) returns (r: Result<seq<Record>>)
    ensures r.Ok? ==> r.value == SortRecords(Candidates(g))
    ensures r.Ok? <==> && g.blocks != [] && (forall q :: q in Candidates(g) ==> Within(g.blocks, q.block))
                       && CodesOk(keccak, g.code) && Size(Candidates(g)) <= MAX_STAGED
  {
    hide Size, SortRecords;
    if g.blocks == [] {
      return Err;
    }
    var first, last := g.blocks[0].number, g.blocks[|g.blocks| - 1].number;
    var a, s, d := AccountRecords(g.accounts), StorageRecords(g.storage), CodeRecords(g.code);
    assert Candidates(g) == a + s + d;
    assert [] + a == a;
    NoSize();
    SizePrefix(a + s + d, |a|);
    assert (a + s + d)[..|a|] == a;
    var accounts := Collect([], a, first, last);
    if accounts.Err? {
      return Err;
    }
    SizePrefix(a + s + d, |a + s|);
    assert (a + s + d)[..|a + s|] == a + s;
    var storage := Collect(accounts.value, s, first, last);
    if storage.Err? {
      return Err;
    }
    for i := 0 to |g.code|
      invariant forall k :: 0 <= k < i ==> |g.code[k].bytes| <= MAX_CODE && keccak(g.code[k].bytes) == g.code[k].hash
    {
      if |g.code[i].bytes| > MAX_CODE || keccak(g.code[i].bytes) != g.code[i].hash {
        assert g.code[i] in g.code;
        return Err;
      }
    }
    var all := Collect(storage.value, d, first, last);
    if all.Err? {
      return Err;
    }
    return Ok(SortRecords(all.value));
  }

  function ToPackage(h: Header, g: Segment, input: Hash, records: seq<Record>): Package
  {
    Package(h.mode, h.genesis, g.blocks,
            if h.preceding.Some? then Some((h.preceding.value.0, h.preceding.value.1)) else None, input, records)
  }

  /**
   An accepted package of at most a thousand blocks always passes: its interval check and
   the builder's order check never fire, and what it publishes is exactly its events.
   */
  lemma AcceptedIsPublishable(h: Header, keccak: Bytes -> Hash32, g: Segment, input: Hash)
    requires Accepted(h, keccak, g) && |g.blocks| <= MAX_BLOCKS
    ensures forall r :: r in Candidates(g) ==> Within(g.blocks, r.block)
    ensures Publishable(ToPackage(h, g, input, SortRecords(Candidates(g))))
    ensures forall r :: r in SortRecords(Candidates(g)) <==> Candidate(g, r)
  {
    hide SortRecords, Candidates, Candidate;
    CandidatesDistinct(keccak, g.blocks, g);
    SortIsSorted(Candidates(g));
    forall r | r in Candidates(g) ensures Within(g.blocks, r.block) { CandidatesWithin(keccak, g.blocks, g, r); }
    forall r ensures r in Candidates(g) <==> Candidate(g, r) { CandidatesAre(g, r); }
  }

  // ---------------------------------------------------------------- lifecycle

  /** `a` is the newest account record of `address` at or before `block`. */
  ghost predicate IsLatest(accounts: seq<AccountEvent>, address: Hash20, block: nat, a: AccountEvent)
  {
    && a in accounts && a.address == address && a.block <= block
    && forall e :: e in accounts && e.address == address && e.block <= block ==> e.block <= a.block
  }

  /** The newest account record of `address` at or before `block`; the later of two in one block. */
  function LatestOf(accounts: seq<AccountEvent>, address: Hash20, block: nat): Option<AccountEvent>
  {
    if accounts == [] then None
    else
      var best, e := LatestOf(accounts[..|accounts| - 1], address, block), accounts[|accounts| - 1];
      if e.address == address && e.block <= block && (best.None? || best.value.block <= e.block) then Some(e) else best
  }

  lemma {:induction false} LatestIsNewest(accounts: seq<AccountEvent>, address: Hash20, block: nat)
    ensures var r := LatestOf(accounts, address, block);
      && (r.Some? ==> IsLatest(accounts, address, block, r.value))
      && (r.None? ==> forall e :: e in accounts && e.address == address ==> e.block > block)
  {
    if accounts != [] {
      LatestIsNewest(accounts[..|accounts| - 1], address, block);
      assert accounts == accounts[..|accounts| - 1] + [accounts[|accounts| - 1]];
    }
  }

  method LatestAccount(accounts: seq<AccountEvent>, address: Hash20, block: nat) returns (r: Option<AccountEvent>)
    ensures r == LatestOf(accounts, address, block)
  {
    r := None;
    for i := 0 to |accounts|
      invariant r == LatestOf(accounts[..i], address, block)
    {
      var e := accounts[i];
      assert accounts[..i + 1][..i] == accounts[..i];
      if e.address == address && e.block <= block && (r.None? || r.value.block <= e.block) {
        r := Some(e);
      }
    }
    assert accounts[..|accounts|] == accounts;
  }

  ghost predicate Matching(a: AccountEvent, e: StorageEvent)
  {
    (a.state.live && a.state.incarnation == e.incarnation) || (!a.state.live && e.value == ZERO32)
  }

  /** The storage record belongs to the lifetime visible at its block, as far as the package tells. */
  ghost predicate Established(mode: Mode, g: Segment, e: StorageEvent)
  {
    match LatestOf(g.accounts, e.address, e.block)
    case Some(a) => Matching(a, e)
    case None => mode == Delta
  }

  ghost predicate CodePresent(keccak: Bytes -> Hash32, g: Segment, a: AccountEvent)
  {
    a.state.live && a.state.codeHash != keccak([]) ==> exists b :: b in g.code && b.hash == a.state.codeHash
  }

  ghost predicate Lifecycle(mode: Mode, g: Segment, keccak: Bytes -> Hash32)
  {
    && (forall e :: e in g.storage ==> Established(mode, g, e))
    && (mode == Anchor ==> forall a :: a in g.accounts ==> CodePresent(keccak, g, a))
  }

  method ValidateLifecycle(mode: Mode, g: Segment, keccak: Bytes -> Hash32) returns (ok: bool)
    ensures ok <==> Lifecycle(mode, g, keccak)
  {
    hide LatestOf;
    for i := 0 to |g.storage|
      invariant forall k :: 0 <= k < i ==> Established(mode, g, g.storage[k])
    {
      var e := g.storage[i];
      var account := LatestAccount(g.accounts, e.address, e.block);
      if account.Some? && account.value.state.live && account.value.state.incarnation == e.incarnation {
      } else if account.Some? && !account.value.state.live && e.value == ZERO32 {
      } else if account.None? && mode != Anchor {
      } else {
        assert e in g.storage && !Established(mode, g, e);
        return false;
      }
    }
    if mode == Anchor {
      var codes := set b | b in g.code :: b.hash;
      for i := 0 to |g.accounts|
        invariant forall k :: 0 <= k < i ==> CodePresent(keccak, g, g.accounts[k])
      {
        var a := g.accounts[i];
        if a.state.live && a.state.codeHash != keccak([]) && a.state.codeHash !in codes {
          assert a in g.accounts && !CodePresent(keccak, g, a);
          return false;
        }
      }
    }
    return true;
  }

  lemma OneLatest(bs: seq<Block>, accounts: seq<AccountEvent>, address: Hash20, block: nat, a: AccountEvent,
                  b: AccountEvent)
    requires AccountsOk(bs, accounts) && IsLatest(accounts, address, block, a) && IsLatest(accounts, address, block, b)
    ensures a == b
  {
    var i :| 0 <= i < |accounts| && accounts[i] == a;
    var j :| 0 <= j < |accounts| && accounts[j] == b;
  }

  /**
   What the check asks of a package with one account record per address and block: storage
   under the newest account record at or before its block has that record's incarnation
   while the account lives and is zero once it does not; storage without such a record is
   left to earlier packages, so an anchor may not have any; and the accounts of an anchor
   bring their code.
   */
  lemma LifecycleIff(mode: Mode, bs: seq<Block>, g: Segment, keccak: Bytes -> Hash32)
    requires AccountsOk(bs, g.accounts)
    ensures Lifecycle(mode, g, keccak) <==>
            && (forall e, a :: e in g.storage && IsLatest(g.accounts, e.address, e.block, a) ==>
                  if a.state.live then a.state.incarnation == e.incarnation else e.value == ZERO32)
            && (mode == Anchor ==> forall e :: e in g.storage ==>
                  exists a :: a in g.accounts && a.address == e.address && a.block <= e.block)
            && (mode == Anchor ==> forall a :: a in g.accounts && a.state.live && a.state.codeHash != keccak([]) ==>
                  exists b :: b in g.code && b.hash == a.state.codeHash)
  {
    hide LatestOf;
    forall e | e in g.storage
      ensures Established(mode, g, e) <==>
              && (forall a :: IsLatest(g.accounts, e.address, e.block, a) ==>
                    if a.state.live then a.state.incarnation == e.incarnation else e.value == ZERO32)
              && (mode == Anchor ==> exists a :: a in g.accounts && a.address == e.address && a.block <= e.block)
    {
      EstablishedIff(mode, bs, g, e);
    }
  }

  lemma EstablishedIff(mode: Mode, bs: seq<Block>, g: Segment, e: StorageEvent)
    requires AccountsOk(bs, g.accounts)
    ensures Established(mode, g, e) <==>
            && (forall a :: IsLatest(g.accounts, e.address, e.block, a) ==>
                  if a.state.live then a.state.incarnation == e.incarnation else e.value == ZERO32)
            && (mode == Anchor ==> exists a :: a in g.accounts && a.address == e.address && a.block <= e.block)
  {
    hide LatestOf;
    LatestIsNewest(g.accounts, e.address, e.block);
    match LatestOf(g.accounts, e.address, e.block)
    case Some(x) =>
      forall a | IsLatest(g.accounts, e.address, e.block, a) ensures a == x {
        OneLatest(bs, g.accounts, e.address, e.block, a, x);
      }
    case None =>
  }

  // ---------------------------------------------------------------- reading back

  /** Of all records `all`, those inside the package's interval are its own. */
  ghost predicate Owns(all: set<Record>, g: Segment)
  {
    && (forall r :: Candidate(g, r) ==> r in all)
    && (forall r :: r in all && Within(g.blocks, r.block) ==> Candidate(g, r))
  }

  lemma OwnAccount(all: set<Record>, h: Header, keccak: Bytes -> Hash32, g: Segment, address: Hash20, block: nat,
                   a: AccountEvent)
    requires Accepted(h, keccak, g) && Owns(all, g) && Within(g.blocks, block)
    requires IsLatest(g.accounts, address, block, a)
    ensures IsAnswer(all, AccountKey(address), block, Some(EncodeState(a.state)))
  {
    hide StorageKey, CodeKey, Owns;
    var r := AccountRecord(a);
    OwnsAt(all, g, r);
    forall q | q in all && Visible(q, AccountKey(address), block) ensures q.block <= r.block {
      if q.block > r.block {
        OwnsBack(all, g, q);
        var e := AccountOrigin(g, address, q);
      }
    }
    assert Newest(all, AccountKey(address), block, r);
  }

  lemma OwnsAt(all: set<Record>, g: Segment, r: Record)
    requires Owns(all, g)
    ensures Candidate(g, r) ==> r in all
  {
  }

  lemma OwnsBack(all: set<Record>, g: Segment, r: Record)
    requires Owns(all, g) && r in all && Within(g.blocks, r.block)
    ensures Candidate(g, r)
  {
  }

  lemma AccountOrigin(g: Segment, address: Hash20, r: Record) returns (e: AccountEvent)
    requires Candidate(g, r) && r.key == AccountKey(address)
    ensures e in g.accounts && r == AccountRecord(e) && e.address == address
  {
    if s :| s in g.storage && r == StorageRecord(s) { KindsApart(address, s.address, s.incarnation, s.slot, ZERO32); }
    if b :| b in g.code && r == CodeRecord(b) { KindsApart(address, address, 0, ZERO32, b.hash); }
    e :| e in g.accounts && r == AccountRecord(e);
    KeysInjective(Account(e.address), Account(address));
  }

  lemma OwnSlot(all: set<Record>, g: Segment, e: StorageEvent)
    requires Owns(all, g) && e in g.storage
    ensures IsAnswer(all, StorageKey(e.address, e.incarnation, e.slot), e.block, Some(e.value))
  {
    hide StorageKey;
    var r := StorageRecord(e);
    assert Candidate(g, r);
    assert Newest(all, r.key, e.block, r);
  }

  /**
   A storage record with an account record at or before its block in its own package
   reads back its value at its block, from any set of records in which the package owns
   its interval: the committing head's and every later one's.
   */
  lemma StorageReadsBack(all: set<Record>, h: Header, keccak: Bytes -> Hash32, g: Segment, e: StorageEvent,
                         read: Lookups)
    requires Accepted(h, keccak, g) && Owns(all, g) && e in g.storage && Established(h.mode, g, e)
    requires h.mode == Anchor || exists a :: a in g.accounts && a.address == e.address && a.block <= e.block
    requires ReadsAs(all, e.block, read)
    ensures StorageOf(read, e.address, e.slot) == Ok(e.value)
  {
    hide StorageKey, AccountKey, Owns, EncodeState, DecodeState, IsAnswer, UniqueVersions;
    LatestIsNewest(g.accounts, e.address, e.block);
    var a := LatestOf(g.accounts, e.address, e.block).value;
    hide LatestOf;
    assert Within(g.blocks, e.block) && StateOk(a.state);
    OwnAccount(all, h, keccak, g, e.address, e.block, a);
    SameAnswer(all, e.block, read, AccountKey(e.address), Some(EncodeState(a.state)));
    StateExact(EncodeState(a.state), a.state);
    if a.state.live {
      OwnSlot(all, g, e);
      SameAnswer(all, e.block, read, StorageKey(e.address, e.incarnation, e.slot), Some(e.value));
    }
  }
}
