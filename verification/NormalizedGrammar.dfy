/**
 The normalized package as a grammar of its lines, without a parser's state: when a line may
 stand behind the lines before it, and what a package of such lines says. The parser accepts
 exactly these packages and returns exactly what they say.
 */
module NormalizedGrammar {
  import opened Bytes
  import opened Keys
  import opened Head
  import opened Ledger
  import opened Normalized

  // ---------------------------------------------------------------- what lines say

  /** The blocks opened, in order. */
  function BlocksOf(lines: seq<Line>): seq<Block>
  {
    if lines == [] then []
    else
      BlocksOf(lines[..|lines| - 1]) +
      match lines[|lines| - 1]
      case BlockLine(number, hash, parentHash, stateRoot) => [Block(number, hash, parentHash, stateRoot)]
      case _ => []
  }

  /** The block that is open after these lines. */
  function OpenAfter(lines: seq<Line>): Option<Block>
  {
    if lines == [] then None
    else
      match lines[|lines| - 1]
      case BlockLine(number, hash, parentHash, stateRoot) => Some(Block(number, hash, parentHash, stateRoot))
      case BlockEndLine(_, _) => None
      case _ => OpenAfter(lines[..|lines| - 1])
  }

  /** The lines since the last block was opened. */
  function Since(lines: seq<Line>): seq<Line>
  {
    if lines == [] || lines[|lines| - 1].BlockLine? then []
    else Since(lines[..|lines| - 1]) + [lines[|lines| - 1]]
  }

  /** A live account has all its fields, a tombstone none. */
  predicate Whole(live: bool, nonce: Option<U64>, balance: Option<Hash32>, codeHash: Option<Hash32>)
  {
    if live then nonce.Some? && balance.Some? && codeHash.Some?
    else nonce.None? && balance.None? && codeHash.None?
  }

  function AccountsOf(lines: seq<Line>): seq<AccountEvent>
  {
    if lines == [] then []
    else
      AccountsOf(lines[..|lines| - 1]) +
      match lines[|lines| - 1]
      case AccountLine(block, address, _, incarnation, Some(nonce), Some(balance), Some(codeHash)) =>
        [AccountEvent(block, address, AccountState(true, incarnation, nonce, balance, codeHash))]
      case AccountLine(block, address, _, incarnation, _, _, _) =>
        [AccountEvent(block, address, AccountState(false, incarnation, 0, ZERO32, ZERO32))]
      case _ => []
  }

  function StorageOf(lines: seq<Line>): seq<StorageEvent>
  {
    if lines == [] then []
    else
      StorageOf(lines[..|lines| - 1]) +
      match lines[|lines| - 1]
      case StorageLine(block, address, incarnation, slot, value) =>
        [StorageEvent(block, address, incarnation, slot, value)]
      case _ => []
  }

  /** Code belongs to the block that is open when its line is read. */
  function CodeOf(lines: seq<Line>): seq<CodeBlob>
  {
    if lines == [] then []
    else
      var before := lines[..|lines| - 1];
      CodeOf(before) +
      match lines[|lines| - 1]
      case CodeLine(digest, bytes) =>
        if OpenAfter(before).Some? && OpenAfter(before).value.number < 0x1_0000_0000_0000_0000
        then [CodeBlob(OpenAfter(before).value.number, digest, bytes)] else []
      case _ => []
  }

  // ---------------------------------------------------------------- where a line may stand

  ghost predicate InBlock(before: seq<Line>, number: nat)
  {
    OpenAfter(before).Some? && OpenAfter(before).value.number == number
  }

  /** The block continues the one before it, or is the one the header of a delta announces. */
  ghost predicate Succeeds(h: Header, blocks: seq<Block>, number: nat, parentHash: Hash)
  {
    if blocks != [] then
      number == blocks[|blocks| - 1].number + 1 && parentHash == blocks[|blocks| - 1].hash
    else
      h.mode == Delta ==> h.preceding.Some? && parentHash == h.preceding.value.1
  }

  /** The line may follow `before`. */
  ghost predicate MayFollow(h: Header, keccak: Bytes -> Hash32, before: seq<Line>, line: Line)
  {
    && (forall x :: x in before ==> !x.TrailerLine?)
    && match line
       case BlockLine(number, _, parentHash, _) =>
         OpenAfter(before).None? && Succeeds(h, BlocksOf(before), number, parentHash)
       case AccountLine(block, address, live, _, nonce, balance, codeHash) =>
         && InBlock(before, block) && Whole(live, nonce, balance, codeHash)
         && forall x :: x in Since(before) && x.AccountLine? ==> Less(x.address, address)
       case StorageLine(block, address, incarnation, slot, _) =>
         && InBlock(before, block)
         && forall x :: x in Since(before) && x.StorageLine? ==>
              Less(StorageKey(x.address, x.incarnation, x.slot), StorageKey(address, incarnation, slot))
       case CodeLine(digest, bytes) =>
         && OpenAfter(before).Some? && keccak(bytes) == digest
         && forall x :: x in before && x.CodeLine? ==> x.digest != digest
       case BlockEndLine(number, eventCount) => InBlock(before, number) && eventCount == |Since(before)|
       case TrailerLine(_, _, _) => OpenAfter(before).None?
       case HeaderLine => false
  }

  ghost predicate WellSpelled(h: Header, keccak: Bytes -> Hash32, lines: seq<Line>)
  {
    forall i :: 0 <= i < |lines| ==> MayFollow(h, keccak, lines[..i], lines[i])
  }

  /** A whole package: it may be read line by line, and header and trailer name its ends and its size. */
  ghost predicate IsPackage(h: Header, keccak: Bytes -> Hash32, lines: seq<Line>)
  {
    var blocks := BlocksOf(lines);
    && WellSpelled(h, keccak, lines) && blocks != []
    && lines[|lines| - 1].TrailerLine?
    && lines[|lines| - 1].endNumber == blocks[|blocks| - 1].number
    && lines[|lines| - 1].endHash == blocks[|blocks| - 1].hash
    && lines[|lines| - 1].blockCount == |blocks|
    && (h.mode == Anchor ==> h.anchor.Some? && h.anchor.value == (blocks[0].number, blocks[0].hash))
    && (h.mode == Delta ==> h.preceding.Some? && h.preceding.value.0 + 1 == blocks[0].number)
    && (blocks[0].number == 0 ==> blocks[0].hash == h.genesis)
  }

  // ---------------------------------------------------------------- the parser keeps track

  /** `last` is the greatest of `keys`. */
  ghost predicate Greatest(last: Option<Bytes>, keys: set<Bytes>)
  {
    if last.None? then keys == {}
    else last.value in keys && forall k :: k in keys ==> k == last.value || Less(k, last.value)
  }

  lemma GreatestBelow(last: Option<Bytes>, keys: set<Bytes>, key: Bytes)
    requires Greatest(last, keys)
    ensures (last.Some? ==> Less(last.value, key)) <==> (forall k :: k in keys ==> Less(k, key))
    ensures (forall k :: k in keys ==> Less(k, key)) ==> key !in keys && Greatest(Some(key), keys + {key})
  {
    hide Less;
    LessIrreflexive(key);
    if last.Some? && Less(last.value, key) {
      forall k | k in keys ensures Less(k, key) {
        if k != last.value { LessTransitive(k, last.value, key); }
      }
    }
  }

  ghost function Addresses(lines: seq<Line>): set<Hash20> { set x | x in lines && x.AccountLine? :: x.address }

  ghost function SlotIds(lines: seq<Line>): set<(Hash20, U64, Hash32)>
  {
    set x | x in lines && x.StorageLine? :: (x.address, x.incarnation, x.slot)
  }

  ghost function SlotKeys(lines: seq<Line>): set<Bytes>
  {
    set x | x in lines && x.StorageLine? :: StorageKey(x.address, x.incarnation, x.slot)
  }

  ghost function Digests(lines: seq<Line>): set<Hash32> { set x | x in lines && x.CodeLine? :: x.digest }

  function AsBytes(a: Option<Hash20>): Option<Bytes> { if a.Some? then Some(a.value) else None }

  /** What is remembered of the open block. */
  ghost predicate Noted(s: Loop, since: seq<Line>)
  {
    && s.eventCount == |since|
    && s.accountKeys == Addresses(since) && Greatest(AsBytes(s.lastAccount), Addresses(since))
    && s.storageKeys == SlotIds(since) && Greatest(s.lastStorage, SlotKeys(since))
  }

  ghost predicate Said(s: Loop, lines: seq<Line>)
  {
    && s.segment.accounts == AccountsOf(lines) && s.segment.storage == StorageOf(lines)
    && s.segment.code == CodeOf(lines)
  }

  /** The loop's variables after some accepted lines. */
  ghost predicate Tracks(s: Loop, lines: seq<Line>)
  {
    && Opened(s) == BlocksOf(lines) && s.current == OpenAfter(lines) && Said(s, lines)
    && s.codeHashes == Digests(lines)
    && (s.current.Some? ==> s.current.value.number < 0x1_0000_0000_0000_0000 && Noted(s, Since(lines)))
    && (s.trailer.None? <==> forall x :: x in lines ==> !x.TrailerLine?)
  }

  /** The step agrees with the grammar, and the loop goes on keeping track. */
  ghost predicate Agrees(h: Header, keccak: Bytes -> Hash32, s: Loop, lines: seq<Line>, line: Line)
  {
    var next := Step(h, keccak, s, line);
    && (next.Ok? <==> MayFollow(h, keccak, lines, line))
    && (next.Ok? ==> Tracks(next.value, lines + [line]))
  }

  lemma Appended(lines: seq<Line>, line: Line)
    ensures (lines + [line])[..|lines|] == lines && (lines + [line])[|lines|] == line
  {
  }

  lemma DigestsMore(lines: seq<Line>, line: Line)
    ensures Digests(lines + [line]) == if line.CodeLine? then Digests(lines) + {line.digest} else Digests(lines)
  {
    var more := lines + [line];
    assert line in more;
    assert forall x :: x in more <==> x in lines || x == line;
  }

  lemma NotedMore(lines: seq<Line>, line: Line)
    ensures Addresses(lines + [line])
            == if line.AccountLine? then Addresses(lines) + {line.address} else Addresses(lines)
    ensures SlotIds(lines + [line])
            == if line.StorageLine? then SlotIds(lines) + {(line.address, line.incarnation, line.slot)}
               else SlotIds(lines)
    ensures SlotKeys(lines + [line])
            == if line.StorageLine? then SlotKeys(lines) + {StorageKey(line.address, line.incarnation, line.slot)}
               else SlotKeys(lines)
  {
    hide StorageKey;
    var more := lines + [line];
    assert line in more;
    assert forall x :: x in more <==> x in lines || x == line;
  }

  lemma NoTrailerMore(lines: seq<Line>, line: Line)
    ensures (forall x :: x in lines + [line] ==> !x.TrailerLine?)
            <==> !line.TrailerLine? && forall x :: x in lines ==> !x.TrailerLine?
  {
    assert line in lines + [line];
    assert forall x :: x in lines ==> x in lines + [line];
  }

  lemma BlockAgrees(h: Header, keccak: Bytes -> Hash32, s: Loop, lines: seq<Line>, line: Line)
    requires Tracks(s, lines) && s.trailer.None? && line.BlockLine? && (h.mode == Delta ==> h.preceding.Some?)
    ensures Agrees(h, keccak, s, lines, line)
  {
    Appended(lines, line);
    DigestsMore(lines, line);
    NoTrailerMore(lines, line);
  }

  lemma AccountAgrees(h: Header, keccak: Bytes -> Hash32, s: Loop, lines: seq<Line>, line: Line)
    requires Tracks(s, lines) && s.trailer.None? && line.AccountLine?
    ensures Agrees(h, keccak, s, lines, line)
  {
    hide Less, StorageKey, Greatest, BlocksOf;
    Appended(lines, line);
    DigestsMore(lines, line);
    NoTrailerMore(lines, line);
    if s.current.Some? {
      NotedMore(Since(lines), line);
      GreatestBelow(AsBytes(s.lastAccount), Addresses(Since(lines)), line.address);
      AddressesBelow(Since(lines), line.address);
    }
    NoBlock(lines, line);
  }

  lemma NoBlock(lines: seq<Line>, line: Line)
    requires !line.BlockLine?
    ensures BlocksOf(lines + [line]) == BlocksOf(lines)
  {
    Appended(lines, line);
  }

  lemma AddressesBelow(lines: seq<Line>, address: Bytes)
    ensures (forall k :: k in Addresses(lines) ==> Less(k, address))
            <==> forall x :: x in lines && x.AccountLine? ==> Less(x.address, address)
  {
    hide Less;
    if forall k :: k in Addresses(lines) ==> Less(k, address) {
      forall x | x in lines && x.AccountLine? ensures Less(x.address, address) {
        assert x.address in Addresses(lines);
      }
    }
  }

  lemma SlotsBelow(lines: seq<Line>, key: Bytes)
    ensures (forall k :: k in SlotKeys(lines) ==> Less(k, key))
            <==> forall x :: x in lines && x.StorageLine? ==> Less(StorageKey(x.address, x.incarnation, x.slot), key)
  {
    hide Less, StorageKey;
    if forall k :: k in SlotKeys(lines) ==> Less(k, key) {
      forall x | x in lines && x.StorageLine? ensures Less(StorageKey(x.address, x.incarnation, x.slot), key) {
        assert StorageKey(x.address, x.incarnation, x.slot) in SlotKeys(lines);
      }
    }
  }

  /** A slot whose key is greater than all seen was not seen. */
  lemma SlotNew(lines: seq<Line>, address: Hash20, incarnation: U64, slot: Hash32)
    requires StorageKey(address, incarnation, slot) !in SlotKeys(lines)
    ensures (address, incarnation, slot) !in SlotIds(lines)
  {
    hide StorageKey;
  }

  lemma StorageAgrees(h: Header, keccak: Bytes -> Hash32, s: Loop, lines: seq<Line>, line: Line)
    requires Tracks(s, lines) && s.trailer.None? && line.StorageLine?
    ensures Agrees(h, keccak, s, lines, line)
  {
    hide Less, StorageKey, Greatest, BlocksOf, SlotKeys, SlotIds, Addresses;
    Appended(lines, line);
    DigestsMore(lines, line);
    NoTrailerMore(lines, line);
    var key := StorageKey(line.address, line.incarnation, line.slot);
    if s.current.Some? {
      NotedMore(Since(lines), line);
      GreatestBelow(s.lastStorage, SlotKeys(Since(lines)), key);
      SlotsBelow(Since(lines), key);
      if key !in SlotKeys(Since(lines)) { SlotNew(Since(lines), line.address, line.incarnation, line.slot); }
    }
    NoBlock(lines, line);
  }

  lemma CodeAgrees(h: Header, keccak: Bytes -> Hash32, s: Loop, lines: seq<Line>, line: Line)
    requires Tracks(s, lines) && s.trailer.None? && line.CodeLine?
    ensures Agrees(h, keccak, s, lines, line)
  {
    hide Less, StorageKey, Greatest, BlocksOf;
    Appended(lines, line);
    DigestsMore(lines, line);
    NoTrailerMore(lines, line);
    NotedMore(Since(lines), line);
    NoBlock(lines, line);
    assert (line.digest in Digests(lines)) <==> exists x :: x in lines && x.CodeLine? && x.digest == line.digest;
  }

  lemma EndAgrees(h: Header, keccak: Bytes -> Hash32, s: Loop, lines: seq<Line>, line: Line)
    requires Tracks(s, lines) && s.trailer.None? && (line.BlockEndLine? || line.TrailerLine? || line.HeaderLine?)
    ensures Agrees(h, keccak, s, lines, line)
  {
    hide Less, StorageKey, Greatest, BlocksOf;
    Appended(lines, line);
    DigestsMore(lines, line);
    NoTrailerMore(lines, line);
    NoBlock(lines, line);
  }

  lemma StepAgrees(h: Header, keccak: Bytes -> Hash32, s: Loop, lines: seq<Line>, line: Line)
    requires Tracks(s, lines) && (h.mode == Delta ==> h.preceding.Some?)
    ensures Agrees(h, keccak, s, lines, line)
  {
    if s.trailer.Some? {
      assert !MayFollow(h, keccak, lines, line);
    } else {
      hide Agrees, Tracks;
      match line
      case BlockLine(_, _, _, _) => BlockAgrees(h, keccak, s, lines, line);
      case AccountLine(_, _, _, _, _, _, _) => AccountAgrees(h, keccak, s, lines, line);
      case StorageLine(_, _, _, _, _) => StorageAgrees(h, keccak, s, lines, line);
      case CodeLine(_, _) => CodeAgrees(h, keccak, s, lines, line);
      case _ => EndAgrees(h, keccak, s, lines, line);
    }
  }

  lemma SpelledMore(h: Header, keccak: Bytes -> Hash32, lines: seq<Line>)
    requires lines != []
    ensures WellSpelled(h, keccak, lines) <==>
            && WellSpelled(h, keccak, lines[..|lines| - 1])
            && MayFollow(h, keccak, lines[..|lines| - 1], lines[|lines| - 1])
  {
    hide MayFollow;
    var init := lines[..|lines| - 1];
    assert forall i :: 0 <= i < |init| ==> init[..i] == lines[..i];
    if WellSpelled(h, keccak, lines) {
      forall i | 0 <= i < |init| ensures MayFollow(h, keccak, init[..i], init[i]) {
        assert MayFollow(h, keccak, lines[..i], lines[i]);
      }
    }
  }

  lemma StartTracks()
    ensures Tracks(START, [])
  {
  }

  lemma {:induction false} StepsAgree(h: Header, keccak: Bytes -> Hash32, lines: seq<Line>)
    requires h.mode == Delta ==> h.preceding.Some?
    ensures Steps(h, keccak, START, lines).Ok? <==> WellSpelled(h, keccak, lines)
    ensures Steps(h, keccak, START, lines).Ok? ==> Tracks(Steps(h, keccak, START, lines).value, lines)
  {
    hide Step, Tracks, WellSpelled, MayFollow;
    if lines == [] {
      StartTracks();
      NoLines(h, keccak);
    } else {
      var init, line := lines[..|lines| - 1], lines[|lines| - 1];
      assert lines == init + [line];
      StepsAgree(h, keccak, init);
      SpelledMore(h, keccak, lines);
      if Steps(h, keccak, START, init).Ok? { StepAgrees(h, keccak, Steps(h, keccak, START, init).value, init, line); }
    }
  }

  lemma NoLines(h: Header, keccak: Bytes -> Hash32)
    ensures WellSpelled(h, keccak, [])
  {
  }

  /** After well-spelled lines the trailer read is the last line's, and no block is open. */
  lemma Trailed(h: Header, keccak: Bytes -> Hash32, lines: seq<Line>)
    requires Steps(h, keccak, START, lines).Ok? && lines != []
    ensures var s := Steps(h, keccak, START, lines).value;
      && (s.trailer.Some? <==> lines[|lines| - 1].TrailerLine?)
      && (s.trailer.Some? ==>
            && s.current.None?
            && var last := lines[|lines| - 1];
               s.trailer.value == (last.endNumber, last.endHash, last.blockCount))
  {
    hide Steps;
    LastStep(h, keccak, lines);
  }

  lemma LastStep(h: Header, keccak: Bytes -> Hash32, lines: seq<Line>)
    requires Steps(h, keccak, START, lines).Ok? && lines != []
    ensures Steps(h, keccak, START, lines[..|lines| - 1]).Ok?
    ensures Steps(h, keccak, START, lines)
            == Step(h, keccak, Steps(h, keccak, START, lines[..|lines| - 1]).value, lines[|lines| - 1])
  {
    hide Step;
  }

  /**
   The parser accepts exactly the packages of the grammar, and returns their blocks and
   their account, storage and code events, each in the order of its lines.
   */
  lemma ParsedIff(h: Header, lines: seq<Line>, keccak: Bytes -> Hash32)
    ensures ParseOf(h, lines, keccak).Ok? <==> IsPackage(h, keccak, lines)
    ensures ParseOf(h, lines, keccak).Ok? ==>
              ParseOf(h, lines, keccak).value
              == Segment(BlocksOf(lines), AccountsOf(lines), StorageOf(lines), CodeOf(lines))
  {
    hide Steps, WellSpelled, AccountsOf, StorageOf, CodeOf;
    if |lines| == 1 { assert lines[..0] == []; }
    if (h.mode == Delta ==> h.preceding.Some?) && lines != [] {
      StepsAgree(h, keccak, lines);
      if Steps(h, keccak, START, lines).Ok? { Trailed(h, keccak, lines); }
    }
  }
}
