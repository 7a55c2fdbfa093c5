/**
 Normalized packages: the record state machine that accepts a header, blocks with their
 events and a trailer. What it accepts is one chain of blocks whose events sit inside it,
 each key at most once per block.
 */
module Normalized {
  import opened Bytes
  import opened Keys
  import opened Head
  import opened Ledger
  import opened History

  /** One parsed line; quantities are already numbers, byte strings already bytes. */
  datatype Line =
    | HeaderLine
    | BlockLine(number: U64, hash: Hash, parentHash: Hash, stateRoot: Hash)
    | AccountLine(block: U64, address: Hash20, live: bool, incarnation: U64, nonce: Option<U64>,
                  balance: Option<Hash32>, codeHash: Option<Hash32>)
    | StorageLine(block: U64, address: Hash20, incarnation: U64, slot: Hash32, value: Hash32)
    | CodeLine(digest: Hash32, bytes: Bytes)
    | BlockEndLine(number: U64, eventCount: U64)
    | TrailerLine(endNumber: U64, endHash: Hash, blockCount: U64)

  datatype Header = Header(genesis: Hash, mode: Mode, anchor: Option<(U64, Hash)>, preceding: Option<(U64, Hash)>)

  datatype AccountEvent = AccountEvent(block: U64, address: Hash20, state: AccountState)
  datatype StorageEvent = StorageEvent(block: U64, address: Hash20, incarnation: U64, slot: Hash32, value: Hash32)
  datatype CodeBlob = CodeBlob(block: U64, hash: Hash32, bytes: Bytes)

  datatype Segment = Segment(
    blocks: seq<Block>, accounts: seq<AccountEvent>, storage: seq<StorageEvent>, code: seq<CodeBlob>)

  /** The variables of the parsing loop. */
  datatype Loop = Loop(
    segment: Segment, current: Option<Block>, eventCount: nat,
    lastAccount: Option<Hash20>, lastStorage: Option<Bytes>,
    accountKeys: set<Hash20>, storageKeys: set<(Hash20, U64, Hash32)>, codeHashes: set<Hash32>,
    trailer: Option<(U64, Hash, U64)>)

  // ---------------------------------------------------------------- what is kept

  function Opened(s: Loop): seq<Block>
  {
    s.segment.blocks + (if s.current.Some? then [s.current.value] else [])
  }

  ghost predicate Chained(bs: seq<Block>)
  {
    && (forall b :: b in bs ==> b.number < 0x1_0000_0000_0000_0000)
    && forall i, j :: 0 <= i < j < |bs| && j == i + 1 ==>
         bs[i].number + 1 == bs[j].number && bs[i].hash == bs[j].parentHash
  }

  ghost predicate Within(bs: seq<Block>, block: nat)
  {
    bs != [] && bs[0].number <= block <= bs[|bs| - 1].number
  }

  ghost predicate AccountsOk(bs: seq<Block>, events: seq<AccountEvent>)
  {
    && (forall e :: e in events ==> Within(bs, e.block) && StateOk(e.state))
    && forall i, j :: 0 <= i < j < |events| ==>
         events[i].block != events[j].block || events[i].address != events[j].address
  }

  function SlotId(e: StorageEvent): (Hash20, U64, Hash32) { (e.address, e.incarnation, e.slot) }

  ghost predicate StorageOk(bs: seq<Block>, events: seq<StorageEvent>)
  {
    && (forall e :: e in events ==> Within(bs, e.block))
    && forall i, j :: 0 <= i < j < |events| ==>
         events[i].block != events[j].block || SlotId(events[i]) != SlotId(events[j])
  }

  ghost predicate CodeOk(keccak: Bytes -> Hash32, bs: seq<Block>, blobs: seq<CodeBlob>)
  {
    && (forall b :: b in blobs ==> Within(bs, b.block) && keccak(b.bytes) == b.hash)
    && forall i, j :: 0 <= i < j < |blobs| ==> blobs[i].hash != blobs[j].hash
  }

  /** The key sets remember what the open block has seen, and all code so far. */
  ghost predicate Remembered(s: Loop)
  {
    && (s.current.Some? ==>
          forall e :: e in s.segment.accounts && e.block == s.current.value.number ==> e.address in s.accountKeys)
    && (s.current.Some? ==>
          forall e :: e in s.segment.storage && e.block == s.current.value.number ==> SlotId(e) in s.storageKeys)
    && (forall b :: b in s.segment.code ==> b.hash in s.codeHashes)
  }

  ghost predicate SegmentOk(keccak: Bytes -> Hash32, bs: seq<Block>, g: Segment)
  {
    Chained(bs) && AccountsOk(bs, g.accounts) && StorageOk(bs, g.storage) && CodeOk(keccak, bs, g.code)
  }

  ghost predicate LoopOk(keccak: Bytes -> Hash32, s: Loop)
  {
    SegmentOk(keccak, Opened(s), s.segment) && Remembered(s)
  }

  // ---------------------------------------------------------------- lines

  /** An event belongs to the open block. */
  predicate InCurrent(s: Loop, block: U64)
  {
    s.current.Some? && s.current.value.number == block
  }

  lemma Rising(bs: seq<Block>, i: nat)
    requires Chained(bs) && i < |bs|
    ensures bs[0].number <= bs[i].number == bs[0].number + i
  {
    Ascending(bs, i);
  }

  /** A block opens only when none is open, as the successor of the one before. */
  function OpenBlock(h: Header, s: Loop, line: Line): Result<Loop>
    requires line.BlockLine?
  {
    var blocks := s.segment.blocks;
    var preceding := if h.preceding.Some? then h.preceding.value.1 else ZERO_HASH;
    if s.current.Some? then Err
    else if blocks != [] && blocks[|blocks| - 1].number + 1 != line.number then Err
    else if blocks != [] && line.parentHash != blocks[|blocks| - 1].hash then Err
    else if blocks == [] && h.mode == Delta && line.parentHash != preceding then Err
    else
      Ok(s.(current := Some(Block(line.number, line.hash, line.parentHash, line.stateRoot)), eventCount := 0,
            lastAccount := None, lastStorage := None, accountKeys := {}, storageKeys := {}))
  }

  lemma OpenKeeps(h: Header, s: Loop, line: Line, keccak: Bytes -> Hash32)
    requires line.BlockLine? && LoopOk(keccak, s) && Started(h, s) && OpenBlock(h, s, line).Ok?
    ensures LoopOk(keccak, OpenBlock(h, s, line).value) && Started(h, OpenBlock(h, s, line).value)
  {
    hide LoopOk;
    BlockOpened(keccak, s, Block(line.number, line.hash, line.parentHash, line.stateRoot));
  }

  lemma BlockOpened(keccak: Bytes -> Hash32, s: Loop, b: Block)
    requires LoopOk(keccak, s) && s.current.None? && b.number < 0x1_0000_0000_0000_0000
    requires s.segment.blocks != [] ==>
               && s.segment.blocks[|s.segment.blocks| - 1].number + 1 == b.number
               && s.segment.blocks[|s.segment.blocks| - 1].hash == b.parentHash
    ensures LoopOk(keccak, s.(current := Some(b), eventCount := 0, lastAccount := None, lastStorage := None,
                              accountKeys := {}, storageKeys := {}))
  {
    var bs := s.segment.blocks;
    var more := bs + [b];
    assert Opened(s) == bs;
    if bs != [] { Rising(bs, |bs| - 1); }
    assert Chained(more);
    forall x: nat | Within(bs, x) ensures Within(more, x) && x < b.number {}
  }

  /** The state of an account line: complete when live, empty as a tombstone. */
  function StateOf(line: Line): Option<AccountState>
    requires line.AccountLine?
  {
    if line.live then
      if line.nonce.None? || line.balance.None? || line.codeHash.None? then None
      else Some(AccountState(true, line.incarnation, line.nonce.value, line.balance.value, line.codeHash.value))
    else if line.nonce.Some? || line.balance.Some? || line.codeHash.Some? then None
    else Some(AccountState(false, line.incarnation, 0, ZERO32, ZERO32))
  }

  function AddAccount(s: Loop, line: Line): Result<Loop>
    requires line.AccountLine?
  {
    if !InCurrent(s, line.block) then Err
    else if s.lastAccount.Some? && !Less(s.lastAccount.value, line.address) then Err
    else if line.address in s.accountKeys || StateOf(line).None? then Err
    else
      var e := AccountEvent(line.block, line.address, StateOf(line).value);
      Ok(s.(segment := s.segment.(accounts := s.segment.accounts + [e]), eventCount := s.eventCount + 1,
            lastAccount := Some(line.address), accountKeys := s.accountKeys + {line.address}))
  }

  lemma AccountAdded(keccak: Bytes -> Hash32, s: Loop, e: AccountEvent)
    requires LoopOk(keccak, s) && InCurrent(s, e.block) && e.address !in s.accountKeys && StateOk(e.state)
    ensures LoopOk(keccak, s.(segment := s.segment.(accounts := s.segment.accounts + [e]),
                              eventCount := s.eventCount + 1, lastAccount := Some(e.address),
                              accountKeys := s.accountKeys + {e.address}))
  {
    var events := s.segment.accounts;
    var bs := Opened(s);
    Rising(bs, |bs| - 1);
    assert Within(bs, e.block);
    forall i | 0 <= i < |events| ensures events[i].block != e.block || events[i].address != e.address {
      assert events[i] in events;
    }
  }

  function AddStorage(s: Loop, line: Line): Result<Loop>
    requires line.StorageLine?
  {
    var e := StorageEvent(line.block, line.address, line.incarnation, line.slot, line.value);
    var key := StorageKey(line.address, line.incarnation, line.slot);
    if !InCurrent(s, line.block) then Err
    else if s.lastStorage.Some? && !Less(s.lastStorage.value, key) then Err
    else if SlotId(e) in s.storageKeys then Err
    else
      Ok(s.(segment := s.segment.(storage := s.segment.storage + [e]), eventCount := s.eventCount + 1,
            lastStorage := Some(key), storageKeys := s.storageKeys + {SlotId(e)}))
  }

  lemma StorageAdded(keccak: Bytes -> Hash32, s: Loop, e: StorageEvent)
    requires LoopOk(keccak, s) && InCurrent(s, e.block) && SlotId(e) !in s.storageKeys
    ensures LoopOk(keccak, s.(segment := s.segment.(storage := s.segment.storage + [e]), eventCount := s.eventCount + 1,
                              lastStorage := Some(StorageKey(e.address, e.incarnation, e.slot)),
                              storageKeys := s.storageKeys + {SlotId(e)}))
  {
    hide StorageKey;
    var events := s.segment.storage;
    var bs := Opened(s);
    Rising(bs, |bs| - 1);
    assert Within(bs, e.block);
    forall i | 0 <= i < |events| ensures events[i].block != e.block || SlotId(events[i]) != SlotId(e) {
      assert events[i] in events;
    }
  }

  /** The bound on the open block's number always holds: it was read from a 64-bit quantity. */
  function AddCode(s: Loop, line: Line, keccak: Bytes -> Hash32): Result<Loop>
    requires line.CodeLine?
  {
    if s.current.None? || s.current.value.number >= 0x1_0000_0000_0000_0000 then Err
    else if keccak(line.bytes) != line.digest || line.digest in s.codeHashes then Err
    else
      var b := CodeBlob(s.current.value.number, line.digest, line.bytes);
      Ok(s.(segment := s.segment.(code := s.segment.code + [b]), eventCount := s.eventCount + 1,
            codeHashes := s.codeHashes + {line.digest}))
  }

  lemma CodeAdded(keccak: Bytes -> Hash32, s: Loop, b: CodeBlob)
    requires LoopOk(keccak, s) && InCurrent(s, b.block) && b.hash !in s.codeHashes && keccak(b.bytes) == b.hash
    ensures LoopOk(keccak, s.(segment := s.segment.(code := s.segment.code + [b]), eventCount := s.eventCount + 1,
                              codeHashes := s.codeHashes + {b.hash}))
  {
    var bs := Opened(s);
    Rising(bs, |bs| - 1);
    assert Within(bs, b.block);
    forall i | 0 <= i < |s.segment.code| ensures s.segment.code[i].hash != b.hash {
      assert s.segment.code[i] in s.segment.code;
    }
  }

  function CloseBlock(s: Loop, line: Line): Result<Loop>
    requires line.BlockEndLine?
  {
    if !InCurrent(s, line.number) || line.eventCount != s.eventCount then Err
    else Ok(s.(segment := s.segment.(blocks := s.segment.blocks + [s.current.value]), current := None))
  }

  /** One line of the package body. */
  function Step(h: Header, keccak: Bytes -> Hash32, s: Loop, line: Line): Result<Loop>
  {
    if s.trailer.Some? then Err
    else
      match line
      case BlockLine(_, _, _, _) => OpenBlock(h, s, line)
      case AccountLine(_, _, _, _, _, _, _) => AddAccount(s, line)
      case StorageLine(_, _, _, _, _) => AddStorage(s, line)
      case CodeLine(_, _) => AddCode(s, line, keccak)
      case BlockEndLine(_, _) => CloseBlock(s, line)
      case TrailerLine(number, hash, count) =>
        if s.current.Some? then Err else Ok(s.(trailer := Some((number, hash, count))))
      case HeaderLine => Err
  }

  /** Every accepted line keeps the chain, the intervals and the uniqueness of events. */
  lemma StepKeeps(h: Header, keccak: Bytes -> Hash32, s: Loop, line: Line)
    requires LoopOk(keccak, s) && Started(h, s) && Step(h, keccak, s, line).Ok?
    ensures LoopOk(keccak, Step(h, keccak, s, line).value) && Started(h, Step(h, keccak, s, line).value)
    ensures Step(h, keccak, s, line).value.trailer.Some? ==>
              Step(h, keccak, s, line).value.current.None? && line.TrailerLine?
  {
    hide LoopOk;
    match line
    case BlockLine(_, _, _, _) => OpenKeeps(h, s, line, keccak);
    case AccountLine(block, address, _, _, _, _, _) =>
      StateIsOk(line);
      AccountAdded(keccak, s, AccountEvent(block, address, StateOf(line).value));
    case StorageLine(block, address, incarnation, slot, value) =>
      StorageAdded(keccak, s, StorageEvent(block, address, incarnation, slot, value));
    case CodeLine(digest, bytes) => CodeAdded(keccak, s, CodeBlob(s.current.value.number, digest, bytes));
    case BlockEndLine(_, _) => BlockClosed(keccak, s);
    case TrailerLine(number, hash, count) => TrailerKept(keccak, s, Some((number, hash, count)));
  }

  lemma StateIsOk(line: Line)
    requires line.AccountLine? && StateOf(line).Some?
    ensures StateOk(StateOf(line).value)
  {
  }

  lemma BlockClosed(keccak: Bytes -> Hash32, s: Loop)
    requires LoopOk(keccak, s) && s.current.Some?
    ensures
      var next := s.(segment := s.segment.(blocks := s.segment.blocks + [s.current.value]), current := None);
      LoopOk(keccak, next) && Opened(next) == Opened(s)
  {
    var next := s.(segment := s.segment.(blocks := s.segment.blocks + [s.current.value]), current := None);
    assert Opened(next) == Opened(s);
  }

  lemma TrailerKept(keccak: Bytes -> Hash32, s: Loop, trailer: Option<(U64, Hash, U64)>)
    requires LoopOk(keccak, s)
    ensures LoopOk(keccak, s.(trailer := trailer))
  {
  }

  /** The first block of a delta continues the block its header names. */
  ghost predicate Started(h: Header, s: Loop)
  {
    h.mode == Delta && h.preceding.Some? && Opened(s) != [] ==> Opened(s)[0].parentHash == h.preceding.value.1
  }

  /** Everything an accepted package promises. */
  ghost predicate Accepted(h: Header, keccak: Bytes -> Hash32, g: Segment)
  {
    && g.blocks != [] && SegmentOk(keccak, g.blocks, g)
    && (h.mode == Anchor ==> h.anchor == Some((g.blocks[0].number, g.blocks[0].hash)))
    && (h.mode == Delta ==> && h.preceding.Some? && h.preceding.value.0 + 1 == g.blocks[0].number
                            && h.preceding.value.1 == g.blocks[0].parentHash)
    && (g.blocks[0].number == 0 ==> g.blocks[0].hash == h.genesis)
  }

  const START := Loop(Segment([], [], [], []), None, 0, None, None, {}, {}, {}, None)

  /** All lines, one after the other, from a state of the loop. */
  function Steps(h: Header, keccak: Bytes -> Hash32, s: Loop, lines: seq<Line>): Result<Loop>
  {
    if lines == [] then Ok(s)
    else
      match Steps(h, keccak, s, lines[..|lines| - 1])
      case Err => Err
      case Ok(before) => Step(h, keccak, before, lines[|lines| - 1])
  }

  /** The checks of a whole package, once its trailer is read. */
  predicate Complete(h: Header, s: Loop)
  {
    && s.trailer.Some? && s.segment.blocks != []
    && var first, last := s.segment.blocks[0], s.segment.blocks[|s.segment.blocks| - 1];
       && s.trailer.value == (last.number, last.hash, |s.segment.blocks|)
       && (h.mode == Anchor ==> h.anchor == Some((first.number, first.hash)))
       && (first.number == 0 ==> first.hash == h.genesis)
       && (h.mode == Delta ==> h.preceding.Some? && h.preceding.value.0 + 1 == first.number)
  }

  /** What a package of a header and these lines is read as. */
  function ParseOf(h: Header, lines: seq<Line>, keccak: Bytes -> Hash32): Result<Segment>
  {
    if |lines| < 2 || (h.mode == Anchor && h.anchor.None?) || (h.mode == Delta && h.preceding.None?) then Err
    else
      match Steps(h, keccak, START, lines)
      case Err => Err
      case Ok(s) => if Complete(h, s) then Ok(s.segment) else Err
  }

  lemma {:induction false} StepsRefused(h: Header, keccak: Bytes -> Hash32, s: Loop, lines: seq<Line>, i: nat)
    requires i <= |lines| && Steps(h, keccak, s, lines[..i]).Err?
    ensures Steps(h, keccak, s, lines).Err?
  {
    hide Step;
    if i < |lines| {
      assert lines[..|lines| - 1][..i] == lines[..i];
      StepsRefused(h, keccak, s, lines[..|lines| - 1], i);
    } else {
      assert lines[..i] == lines;
    }
  }

  /** Parse the body of a package: its lines after the header. */
  method Parse(h: Header, lines: seq<Line>, keccak: Bytes -> Hash32) returns (r: Result<Segment>)
    ensures r == ParseOf(h, lines, keccak)
    ensures r.Ok? ==> Accepted(h, keccak, r.value) && lines[|lines| - 1].TrailerLine?
  {
    hide Step, Accepted;
    if ParseOf(h, lines, keccak).Ok? { ParsedAccepted(h, lines, keccak); }
    if |lines| < 2 || (h.mode == Anchor && h.anchor.None?) || (h.mode == Delta && h.preceding.None?) {
      return Err;
    }
    var s := START;
    for i := 0 to |lines|
      invariant Steps(h, keccak, START, lines[..i]) == Ok(s)
    {
      assert lines[..i + 1][..i] == lines[..i];
      var next := Step(h, keccak, s, lines[i]);
      if next.Err? {
        StepsRefused(h, keccak, START, lines, i + 1);
        return Err;
      }
      s := next.value;
    }
    assert lines[..|lines|] == lines;
    if s.trailer.None? || s.segment.blocks == [] {
      return Err;
    }
    var blocks := s.segment.blocks;
    var first, last := blocks[0], blocks[|blocks| - 1];
    var (endNumber, endHash, blockCount) := s.trailer.value;
    if endNumber != last.number || endHash != last.hash || blockCount != |blocks| {
      return Err;
    }
    if h.mode == Anchor && h.anchor != Some((first.number, first.hash)) {
      return Err;
    }
    if first.number == 0 && first.hash != h.genesis {
      return Err;
    }
    if h.mode == Delta && h.preceding.value.0 + 1 != first.number {
      return Err;
    }
    return Ok(s.segment);
  }

  lemma {:induction false} StepsKeep(h: Header, keccak: Bytes -> Hash32, lines: seq<Line>)
    requires Steps(h, keccak, START, lines).Ok?
    ensures var s := Steps(h, keccak, START, lines).value;
      && LoopOk(keccak, s) && Started(h, s)
      && (s.trailer.Some? ==> s.current.None? && lines != [] && lines[|lines| - 1].TrailerLine?)
  {
    hide Step;
    if lines != [] {
      StepsKeep(h, keccak, lines[..|lines| - 1]);
      StepKeeps(h, keccak, Steps(h, keccak, START, lines[..|lines| - 1]).value, lines[|lines| - 1]);
    }
  }

  /** An accepted package is one chain with its events inside, unique per block, and ends with its trailer. */
  lemma ParsedAccepted(h: Header, lines: seq<Line>, keccak: Bytes -> Hash32)
    requires ParseOf(h, lines, keccak).Ok?
    ensures Accepted(h, keccak, ParseOf(h, lines, keccak).value)
    ensures lines[|lines| - 1].TrailerLine?
  {
    hide Steps, SegmentOk;
    StepsKeep(h, keccak, lines);
    var s := Steps(h, keccak, START, lines).value;
    assert Opened(s) == s.segment.blocks;
  }

  // ---------------------------------------------------------------- writing a package

  /** One block as an exporter writes it: accounts, then storage, then code. */
  datatype Chunk = Chunk(block: Block, accounts: seq<AccountEvent>, storage: seq<StorageEvent>, code: seq<CodeBlob>)

  function AccountText(e: AccountEvent): Line
  {
    if e.state.live
    then AccountLine(e.block, e.address, true, e.state.incarnation, Some(e.state.nonce), Some(e.state.balance),
                     Some(e.state.codeHash))
    else AccountLine(e.block, e.address, false, e.state.incarnation, None, None, None)
  }

  function StorageText(e: StorageEvent): Line { StorageLine(e.block, e.address, e.incarnation, e.slot, e.value) }

  function AccountTexts(es: seq<AccountEvent>): seq<Line>
  {
    if es == [] then [] else AccountTexts(es[..|es| - 1]) + [AccountText(es[|es| - 1])]
  }

  function StorageTexts(es: seq<StorageEvent>): seq<Line>
  {
    if es == [] then [] else StorageTexts(es[..|es| - 1]) + [StorageText(es[|es| - 1])]
  }

  function CodeTexts(bs: seq<CodeBlob>): seq<Line>
  {
    if bs == [] then [] else CodeTexts(bs[..|bs| - 1]) + [CodeLine(bs[|bs| - 1].hash, bs[|bs| - 1].bytes)]
  }

  function KeyOfSlot(e: StorageEvent): Bytes { StorageKey(e.address, e.incarnation, e.slot) }

  function CodeSet(bs: seq<CodeBlob>): set<Hash32> { set b | b in bs :: b.hash }

  /** A block as the exporter promises it: sorted events of its own, no code written before. */
  ghost predicate ChunkOk(keccak: Bytes -> Hash32, c: Chunk, seen: set<Hash32>)
  {
    && c.block.number < 0x1_0000_0000_0000_0000
    && |c.accounts| + |c.storage| + |c.code| < 0x1_0000_0000_0000_0000
    && (forall e :: e in c.accounts ==> e.block == c.block.number && StateOk(e.state))
    && (forall i, j :: 0 <= i < j < |c.accounts| ==> Less(c.accounts[i].address, c.accounts[j].address))
    && (forall e :: e in c.storage ==> e.block == c.block.number)
    && (forall i, j :: 0 <= i < j < |c.storage| ==> Less(KeyOfSlot(c.storage[i]), KeyOfSlot(c.storage[j])))
    && (forall b :: b in c.code ==> b.block == c.block.number && keccak(b.bytes) == b.hash && b.hash !in seen)
    && (forall i, j :: 0 <= i < j < |c.code| ==> c.code[i].hash != c.code[j].hash)
  }

  function ChunkLines(c: Chunk): seq<Line>
    requires c.block.number < 0x1_0000_0000_0000_0000
    requires |c.accounts| + |c.storage| + |c.code| < 0x1_0000_0000_0000_0000
  {
    [BlockLine(c.block.number, c.block.hash, c.block.parentHash, c.block.stateRoot)]
      + AccountTexts(c.accounts) + StorageTexts(c.storage) + CodeTexts(c.code)
      + [BlockEndLine(c.block.number, |c.accounts| + |c.storage| + |c.code|)]
  }

  lemma {:induction false} StepsConcat(h: Header, keccak: Bytes -> Hash32, s: Loop, a: seq<Line>, b: seq<Line>)
    ensures Steps(h, keccak, s, a + b)
            == if Steps(h, keccak, s, a).Ok? then Steps(h, keccak, Steps(h, keccak, s, a).value, b) else Err
  {
    hide Step;
    if b == [] {
      assert a + b == a;
    } else {
      StepsConcat(h, keccak, s, a, b[..|b| - 1]);
      assert (a + b)[..|a + b| - 1] == a + b[..|b| - 1];
    }
  }

  lemma OneStep(h: Header, keccak: Bytes -> Hash32, s: Loop, line: Line)
    ensures Steps(h, keccak, s, [line]) == Step(h, keccak, s, line)
  {
    hide Step;
    assert [line][..0] == [];
  }

  function WithAccounts(s: Loop, es: seq<AccountEvent>): Loop
  {
    s.(segment := s.segment.(accounts := s.segment.accounts + es), eventCount := s.eventCount + |es|,
       lastAccount := if es == [] then s.lastAccount else Some(es[|es| - 1].address),
       accountKeys := s.accountKeys + set e | e in es :: e.address)
  }

  lemma OneAccount(h: Header, keccak: Bytes -> Hash32, s: Loop, front: seq<AccountEvent>, e: AccountEvent)
    requires s.trailer.None? && s.current.Some? && s.lastAccount.None? && s.accountKeys == {}
    requires e.block == s.current.value.number && StateOk(e.state)
    requires forall i :: 0 <= i < |front| ==> Less(front[i].address, e.address)
    ensures Step(h, keccak, WithAccounts(s, front), AccountText(e)) == Ok(WithAccounts(s, front + [e]))
  {
    hide Less;
    LessIrreflexive(e.address);
    var before, after := WithAccounts(s, front), WithAccounts(s, front + [e]);
    assert StateOf(AccountText(e)) == Some(e.state);
    assert e.address !in before.accountKeys;
    assert before.segment.accounts + [e] == after.segment.accounts;
    assert before.accountKeys + {e.address} == after.accountKeys;
  }

  lemma {:induction false} AccountsAccepted(h: Header, keccak: Bytes -> Hash32, s: Loop, es: seq<AccountEvent>)
    requires s.trailer.None? && s.current.Some? && s.lastAccount.None? && s.accountKeys == {}
    requires forall e :: e in es ==> e.block == s.current.value.number && StateOk(e.state)
    requires forall i, j :: 0 <= i < j < |es| ==> Less(es[i].address, es[j].address)
    ensures Steps(h, keccak, s, AccountTexts(es)) == Ok(WithAccounts(s, es))
  {
    hide Less, Step, StateOk;
    if es == [] {
      assert s.segment.accounts + es == s.segment.accounts;
      assert WithAccounts(s, es).accountKeys == s.accountKeys;
    } else {
      hide WithAccounts;
      var front, e := es[..|es| - 1], es[|es| - 1];
      assert es == front + [e] && e in es;
      AccountsAccepted(h, keccak, s, front);
      StepsConcat(h, keccak, s, AccountTexts(front), [AccountText(e)]);
      OneStep(h, keccak, WithAccounts(s, front), AccountText(e));
      OneAccount(h, keccak, s, front, e);
    }
  }

  function WithStorage(s: Loop, es: seq<StorageEvent>): Loop
  {
    s.(segment := s.segment.(storage := s.segment.storage + es), eventCount := s.eventCount + |es|,
       lastStorage := if es == [] then s.lastStorage else Some(KeyOfSlot(es[|es| - 1])),
       storageKeys := s.storageKeys + set e | e in es :: SlotId(e))
  }

  lemma OneSlot(h: Header, keccak: Bytes -> Hash32, s: Loop, front: seq<StorageEvent>, e: StorageEvent)
    requires s.trailer.None? && s.current.Some? && s.lastStorage.None? && s.storageKeys == {}
    requires e.block == s.current.value.number
    requires forall i :: 0 <= i < |front| ==> Less(KeyOfSlot(front[i]), KeyOfSlot(e))
    ensures Step(h, keccak, WithStorage(s, front), StorageText(e)) == Ok(WithStorage(s, front + [e]))
  {
    hide Less, StorageKey;
    LessIrreflexive(KeyOfSlot(e));
    var before, after := WithStorage(s, front), WithStorage(s, front + [e]);
    assert SlotId(e) !in before.storageKeys;
    assert before.segment.storage + [e] == after.segment.storage;
    assert before.storageKeys + {SlotId(e)} == after.storageKeys;
  }

  lemma {:induction false} StorageAccepted(h: Header, keccak: Bytes -> Hash32, s: Loop, es: seq<StorageEvent>)
    requires s.trailer.None? && s.current.Some? && s.lastStorage.None? && s.storageKeys == {}
    requires forall e :: e in es ==> e.block == s.current.value.number
    requires forall i, j :: 0 <= i < j < |es| ==> Less(KeyOfSlot(es[i]), KeyOfSlot(es[j]))
    ensures Steps(h, keccak, s, StorageTexts(es)) == Ok(WithStorage(s, es))
  {
    hide Less, Step, KeyOfSlot;
    if es == [] {
      assert s.segment.storage + es == s.segment.storage;
      assert WithStorage(s, es).storageKeys == s.storageKeys;
    } else {
      hide WithStorage;
      var front, e := es[..|es| - 1], es[|es| - 1];
      assert es == front + [e] && e in es;
      StorageAccepted(h, keccak, s, front);
      StepsConcat(h, keccak, s, StorageTexts(front), [StorageText(e)]);
      OneStep(h, keccak, WithStorage(s, front), StorageText(e));
      OneSlot(h, keccak, s, front, e);
    }
  }

  function WithCode(s: Loop, bs: seq<CodeBlob>): Loop
  {
    s.(segment := s.segment.(code := s.segment.code + bs), eventCount := s.eventCount + |bs|,
       codeHashes := s.codeHashes + CodeSet(bs))
  }

  lemma OneCode(h: Header, keccak: Bytes -> Hash32, s: Loop, front: seq<CodeBlob>, b: CodeBlob)
    requires s.trailer.None? && s.current.Some? && b.block == s.current.value.number
    requires keccak(b.bytes) == b.hash && b.hash !in s.codeHashes && b.hash !in CodeSet(front)
    ensures Step(h, keccak, WithCode(s, front), CodeLine(b.hash, b.bytes)) == Ok(WithCode(s, front + [b]))
  {
    var before, after := WithCode(s, front), WithCode(s, front + [b]);
    assert before.segment.code + [b] == after.segment.code;
    assert before.codeHashes + {b.hash} == after.codeHashes;
  }

  lemma {:induction false} CodeAccepted(h: Header, keccak: Bytes -> Hash32, s: Loop, bs: seq<CodeBlob>)
    requires s.trailer.None? && s.current.Some?
    requires forall b :: b in bs ==>
               b.block == s.current.value.number && keccak(b.bytes) == b.hash && b.hash !in s.codeHashes
    requires forall i, j :: 0 <= i < j < |bs| ==> bs[i].hash != bs[j].hash
    ensures Steps(h, keccak, s, CodeTexts(bs)) == Ok(WithCode(s, bs))
  {
    hide Step;
    if bs == [] {
      assert s.segment.code + bs == s.segment.code && s.codeHashes + CodeSet(bs) == s.codeHashes;
    } else {
      hide WithCode;
      var front, b := bs[..|bs| - 1], bs[|bs| - 1];
      assert bs == front + [b] && b in bs;
      assert b.hash !in CodeSet(front);
      CodeAccepted(h, keccak, s, front);
      StepsConcat(h, keccak, s, CodeTexts(front), [CodeLine(b.hash, b.bytes)]);
      OneStep(h, keccak, WithCode(s, front), CodeLine(b.hash, b.bytes));
      OneCode(h, keccak, s, front, b);
    }
  }

  function Joined(g: Segment, c: Chunk): Segment
  {
    Segment(g.blocks + [c.block], g.accounts + c.accounts, g.storage + c.storage, g.code + c.code)
  }

  /** A promised block is accepted line by line and joins the package. */
  lemma ChunkAccepted(h: Header, keccak: Bytes -> Hash32, s: Loop, c: Chunk)
    requires ChunkOk(keccak, c, s.codeHashes) && s.trailer.None? && s.current.None?
    requires OpenBlock(h, s, BlockLine(c.block.number, c.block.hash, c.block.parentHash, c.block.stateRoot)).Ok?
    ensures Steps(h, keccak, s, ChunkLines(c)).Ok?
    ensures var next := Steps(h, keccak, s, ChunkLines(c)).value;
      && next.segment == Joined(s.segment, c) && next.current.None? && next.trailer.None?
      && next.codeHashes == s.codeHashes + CodeSet(c.code)
  {
    hide Steps, AccountTexts, StorageTexts, CodeTexts, Less, CodeSet, Step, WithAccounts, WithStorage, WithCode;
    var open := BlockLine(c.block.number, c.block.hash, c.block.parentHash, c.block.stateRoot);
    var end := BlockEndLine(c.block.number, |c.accounts| + |c.storage| + |c.code|);
    var s0 := OpenBlock(h, s, open).value;
    var s1 := WithAccounts(s0, c.accounts);
    var s2 := WithStorage(s1, c.storage);
    var s3 := WithCode(s2, c.code);
    ChunkState(h, keccak, s, s0, c);
    OneStep(h, keccak, s, open);
    AccountsAccepted(h, keccak, s0, c.accounts);
    StorageAccepted(h, keccak, s1, c.storage);
    CodeAccepted(h, keccak, s2, c.code);
    OneStep(h, keccak, s3, end);
    var a, t, d := AccountTexts(c.accounts), StorageTexts(c.storage), CodeTexts(c.code);
    StepsConcat(h, keccak, s, [open], a);
    StepsConcat(h, keccak, s, [open] + a, t);
    StepsConcat(h, keccak, s, [open] + a + t, d);
    StepsConcat(h, keccak, s, [open] + a + t + d, [end]);
  }

  lemma ChunkState(h: Header, keccak: Bytes -> Hash32, s: Loop, s0: Loop, c: Chunk)
    requires s.trailer.None? && s.current.None? && c.block.number < 0x1_0000_0000_0000_0000
    requires |c.accounts| + |c.storage| + |c.code| < 0x1_0000_0000_0000_0000
    requires OpenBlock(h, s, BlockLine(c.block.number, c.block.hash, c.block.parentHash, c.block.stateRoot)) == Ok(s0)
    ensures Step(h, keccak, s, BlockLine(c.block.number, c.block.hash, c.block.parentHash, c.block.stateRoot)) == Ok(s0)
    ensures
      var s1 := WithAccounts(s0, c.accounts);
      var s2 := WithStorage(s1, c.storage);
      var s3 := WithCode(s2, c.code);
      && s0.current == Some(c.block) && s0.trailer.None? && s0.lastAccount.None? && s0.accountKeys == {}
      && s1.current == Some(c.block) && s1.trailer.None? && s1.lastStorage.None? && s1.storageKeys == {}
      && s2.current == Some(c.block) && s2.trailer.None? && s2.codeHashes == s.codeHashes
      && Step(h, keccak, s3, BlockEndLine(c.block.number, |c.accounts| + |c.storage| + |c.code|))
         == Ok(s3.(segment := Joined(s.segment, c), current := None))
      && s3.trailer.None? && s3.codeHashes == s.codeHashes + CodeSet(c.code)
  {
    hide CodeSet;
  }

  function Body(chunks: seq<Chunk>): Segment
  {
    if chunks == [] then Segment([], [], [], []) else Joined(Body(chunks[..|chunks| - 1]), chunks[|chunks| - 1])
  }

  ghost predicate ChunksOk(h: Header, keccak: Bytes -> Hash32, chunks: seq<Chunk>)
  {
    chunks != [] ==>
      var front, c := chunks[..|chunks| - 1], chunks[|chunks| - 1];
      && ChunksOk(h, keccak, front) && ChunkOk(keccak, c, CodeSet(Body(front).code))
      && (front != [] ==>
            && front[|front| - 1].block.number + 1 == c.block.number
            && c.block.parentHash == front[|front| - 1].block.hash)
      && (front == [] && h.mode == Delta ==> h.preceding.Some? && c.block.parentHash == h.preceding.value.1)
  }

  function BodyLines(h: Header, keccak: Bytes -> Hash32, chunks: seq<Chunk>): seq<Line>
    requires forall i :: 0 <= i < |chunks| ==> chunks[i].block.number < 0x1_0000_0000_0000_0000
    requires forall i :: 0 <= i < |chunks| ==>
               |chunks[i].accounts| + |chunks[i].storage| + |chunks[i].code| < 0x1_0000_0000_0000_0000
  {
    if chunks == [] then [] else BodyLines(h, keccak, chunks[..|chunks| - 1]) + ChunkLines(chunks[|chunks| - 1])
  }

  lemma {:induction false} ChunksBounded(h: Header, keccak: Bytes -> Hash32, chunks: seq<Chunk>)
    requires ChunksOk(h, keccak, chunks)
    ensures forall i :: 0 <= i < |chunks| ==>
              && chunks[i].block.number < 0x1_0000_0000_0000_0000
              && |chunks[i].accounts| + |chunks[i].storage| + |chunks[i].code| < 0x1_0000_0000_0000_0000
  {
    hide CodeSet, Less;
    if chunks != [] { ChunksBounded(h, keccak, chunks[..|chunks| - 1]); }
  }

  lemma {:induction false} BodyAccepted(h: Header, keccak: Bytes -> Hash32, chunks: seq<Chunk>)
    requires ChunksOk(h, keccak, chunks)
    requires forall i :: 0 <= i < |chunks| ==> chunks[i].block.number < 0x1_0000_0000_0000_0000
    requires forall i :: 0 <= i < |chunks| ==>
               |chunks[i].accounts| + |chunks[i].storage| + |chunks[i].code| < 0x1_0000_0000_0000_0000
    ensures Steps(h, keccak, START, BodyLines(h, keccak, chunks)).Ok?
    ensures var s := Steps(h, keccak, START, BodyLines(h, keccak, chunks)).value;
      s.segment == Body(chunks) && s.current.None? && s.trailer.None? && s.codeHashes == CodeSet(Body(chunks).code)
    ensures |Body(chunks).blocks| == |chunks| && forall i :: 0 <= i < |chunks| ==>
              Body(chunks).blocks[i] == chunks[i].block
  {
    hide Step, ChunkLines, ChunkOk;
    if chunks != [] {
      var front, c := chunks[..|chunks| - 1], chunks[|chunks| - 1];
      BodyAccepted(h, keccak, front);
      var s := Steps(h, keccak, START, BodyLines(h, keccak, front)).value;
      StepsConcat(h, keccak, START, BodyLines(h, keccak, front), ChunkLines(c));
      ChunkAccepted(h, keccak, s, c);
      CodesJoin(Body(front).code, c.code);
    }
  }

  lemma CodesJoin(a: seq<CodeBlob>, b: seq<CodeBlob>)
    ensures CodeSet(a + b) == CodeSet(a) + CodeSet(b)
  {
  }

  /** The header fits the first block of the package. */
  ghost predicate HeaderFits(h: Header, first: Block)
  {
    && (h.mode == Anchor ==> h.anchor == Some((first.number, first.hash)))
    && (h.mode == Delta ==> h.preceding.Some? && h.preceding.value.0 + 1 == first.number)
    && (first.number == 0 ==> first.hash == h.genesis)
  }

  /** Writing promised blocks with their trailer and parsing them gives them back. */
  lemma WrittenParses(h: Header, keccak: Bytes -> Hash32, chunks: seq<Chunk>)
    requires ChunksOk(h, keccak, chunks) && 0 < |chunks| < 0x1_0000_0000_0000_0000 && HeaderFits(h, chunks[0].block)
    ensures forall i :: 0 <= i < |chunks| ==>
              && chunks[i].block.number < 0x1_0000_0000_0000_0000
              && |chunks[i].accounts| + |chunks[i].storage| + |chunks[i].code| < 0x1_0000_0000_0000_0000
    ensures
      var last := chunks[|chunks| - 1].block;
      var trailer := TrailerLine(last.number, last.hash, |chunks|);
      ParseOf(h, BodyLines(h, keccak, chunks) + [trailer], keccak) == Ok(Body(chunks))
  {
    hide Steps, Body, ChunkLines;
    ChunksBounded(h, keccak, chunks);
    BodyAccepted(h, keccak, chunks);
    var last := chunks[|chunks| - 1].block;
    var lines := BodyLines(h, keccak, chunks);
    var trailer := TrailerLine(last.number, last.hash, |chunks|);
    StepsConcat(h, keccak, START, lines, [trailer]);
    OneStep(h, keccak, Steps(h, keccak, START, lines).value, trailer);
    LinesLong(chunks[|chunks| - 1]);
  }

  lemma LinesLong(c: Chunk)
    requires c.block.number < 0x1_0000_0000_0000_0000
    requires |c.accounts| + |c.storage| + |c.code| < 0x1_0000_0000_0000_0000
    ensures |ChunkLines(c)| >= 2
  {
  }
}
