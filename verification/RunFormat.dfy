/**
 The byte format of a run: data pages, fence indexes and the run root. Encoding is a
 function; every decoder is proved to be its exact inverse, so a byte string has at most
 one meaning and a decoder accepts precisely the strings an encoder could have written.
 */
module RunFormat {
  import opened Bytes
  import opened Versions

  const PARTITIONS := 16
  const MAX_PAGE := 1024 * 1024
  const MAX_INDEX := 512 * 1024
  const REF_BYTES := 36
  const ROOT_BYTES := 581

  const VERSION: Byte := 1
  const ROOT_MAGIC: Bytes := [70, 84, 82, 84]
  const INDEX_MAGIC: Bytes := [70, 84, 73, 88]
  const DATA_MAGIC: Bytes := [70, 84, 68, 80]
  const INTERNAL_MAGIC: Bytes := [70, 84, 73, 82]
  const COMPRESSED_MAGIC: Bytes := [70, 84, 82, 90]

  const ZERO: Bytes :=
    [0, 0, 0, 0, 0, 0, 0, 0, 0, 0, 0, 0, 0, 0, 0, 0, 0, 0, 0, 0, 0, 0, 0, 0, 0, 0, 0, 0, 0, 0, 0, 0]

  type Digest = d: Bytes | |d| == 32 witness ZERO

  /** SHA-256 and zstd, of which only the laws named below are used. */
  datatype Codec = Codec(sha: Bytes -> Digest, compress: Bytes -> Bytes, decompress: Bytes -> Option<Bytes>)

  /** Decompressing what was compressed gives it back, up to the bound where the decoder truncates. */
  ghost predicate Lossless(c: Codec)
  {
    forall x :: |x| <= MAX_PAGE ==> c.decompress(c.compress(x)) == Some(x)
  }

  /** A reference to an immutable object: digest and length of its exact bytes. */
  datatype Ref = Ref(digest: Digest, length: U32)

  const DEFAULT_REF := Ref(ZERO, 0)

  datatype Fence = Fence(key: Bytes, block: U64, data: Ref)

  function Partition(c: Codec, key: Bytes): (p: nat)
    ensures p < PARTITIONS
  {
    c.sha(key)[0] / 16
  }

  // ---------------------------------------------------------------- fields

  /** `len` bytes at `cursor`, if they are there. */
  function Take(bytes: Bytes, cursor: nat, len: nat): Option<Bytes>
  {
    if cursor + len <= |bytes| then Some(bytes[cursor..cursor + len]) else None
  }

  /** `part` sits in `bytes` at `cursor`. */
  predicate Holds(bytes: Bytes, cursor: nat, part: Bytes)
  {
    cursor + |part| <= |bytes| && bytes[cursor..cursor + |part|] == part
  }

  lemma TakeHolds(bytes: Bytes, cursor: nat, len: nat, part: Bytes)
    ensures Take(bytes, cursor, len) == Some(part) <==> Holds(bytes, cursor, part) && |part| == len
  {
  }

  lemma HoldsConcat(bytes: Bytes, cursor: nat, a: Bytes, b: Bytes)
    ensures Holds(bytes, cursor, a + b) <==> Holds(bytes, cursor, a) && Holds(bytes, cursor + |a|, b)
  {
    if cursor + |a| + |b| <= |bytes| {
      var whole := bytes[cursor..cursor + |a + b|];
      assert whole == bytes[cursor..cursor + |a|] + bytes[cursor + |a|..cursor + |a| + |b|];
      if whole == a + b {
        assert whole[..|a|] == a && whole[|a|..] == b;
      }
    }
  }

  /** A big-endian length or block of `width` bytes at `cursor`. */
  function ReadUint(bytes: Bytes, cursor: nat, width: nat): Option<nat>
  {
    match Take(bytes, cursor, width)
    case None => None
    case Some(raw) => Some(FromBigEndian(raw))
  }

  lemma ReadUintHolds(bytes: Bytes, cursor: nat, width: nat, x: nat)
    requires x < Pow256(width)
    ensures ReadUint(bytes, cursor, width) == Some(x) <==> Holds(bytes, cursor, BigEndian(x, width))
  {
    hide BigEndian, FromBigEndian, Pow256;
    ReadWritten(x, width);
    if Take(bytes, cursor, width).Some? {
      WriteRead(Take(bytes, cursor, width).value);
    }
  }

  // ---------------------------------------------------------------- one record

  function EncodeStamp(key: Bytes, block: U64): Bytes
  {
    BigEndian(|key|, 4) + key + BigEndian(block, 8)
  }

  function EncodeRecord(r: Record): (s: Bytes)
    ensures |s| == 16 + |r.key| + |r.value|
  {
    EncodeStamp(r.key, r.block) + (BigEndian(|r.value|, 4) + r.value)
  }

  predicate RecordFits(r: Record)
  {
    |r.key| < 0x1_0000_0000 && |r.value| < 0x1_0000_0000
  }

  /** A length-prefixed byte string and the cursor behind it. */
  function ReadBytes(bytes: Bytes, cursor: nat): Option<(Bytes, nat)>
  {
    match ReadUint(bytes, cursor, 4)
    case None => None
    case Some(len) =>
      match Take(bytes, cursor + 4, len)
      case None => None
      case Some(raw) => Some((raw, cursor + 4 + len))
  }

  lemma ReadBytesHolds(bytes: Bytes, cursor: nat, raw: Bytes, next: nat)
    ensures ReadBytes(bytes, cursor) == Some((raw, next)) <==>
            && |raw| < 0x1_0000_0000 && next == cursor + 4 + |raw|
            && Holds(bytes, cursor, BigEndian(|raw|, 4) + raw)
  {
    Widths();
    HoldsConcat(bytes, cursor, BigEndian(|raw|, 4), raw);
    if |raw| < 0x1_0000_0000 { ReadUintHolds(bytes, cursor, 4, |raw|); }
    if ReadUint(bytes, cursor, 4).Some? {
      TakeHolds(bytes, cursor + 4, ReadUint(bytes, cursor, 4).value, raw);
    }
  }

  function ReadStamp(bytes: Bytes, cursor: nat): Option<(Bytes, U64, nat)>
  {
    match ReadBytes(bytes, cursor)
    case None => None
    case Some((key, next)) =>
      match ReadUint(bytes, next, 8)
      case None => None
      case Some(block) => Widths(); Some((key, block, next + 8))
  }

  lemma ReadStampHolds(bytes: Bytes, cursor: nat, key: Bytes, block: U64, next: nat)
    ensures ReadStamp(bytes, cursor) == Some((key, block, next)) <==>
            && |key| < 0x1_0000_0000 && next == cursor + 12 + |key|
            && Holds(bytes, cursor, EncodeStamp(key, block))
  {
    Widths();
    HoldsConcat(bytes, cursor, BigEndian(|key|, 4) + key, BigEndian(block, 8));
    ReadBytesHolds(bytes, cursor, key, cursor + 4 + |key|);
    if ReadBytes(bytes, cursor).Some? {
      var (k, n) := ReadBytes(bytes, cursor).value;
      ReadBytesHolds(bytes, cursor, k, n);
      ReadUintHolds(bytes, n, 8, block);
    }
  }

  function ReadRecord(bytes: Bytes, cursor: nat): Option<(Record, nat)>
  {
    match ReadStamp(bytes, cursor)
    case None => None
    case Some((key, block, next)) =>
      match ReadBytes(bytes, next)
      case None => None
      case Some((value, end)) => Some((Record(key, block, value), end))
  }

  /** Reading a record at a cursor succeeds exactly where its encoding stands. */
  lemma ReadRecordHolds(bytes: Bytes, cursor: nat, r: Record, next: nat)
    ensures ReadRecord(bytes, cursor) == Some((r, next)) <==>
            && RecordFits(r) && next == cursor + |EncodeRecord(r)|
            && Holds(bytes, cursor, EncodeRecord(r))
  {
    HoldsConcat(bytes, cursor, EncodeStamp(r.key, r.block), BigEndian(|r.value|, 4) + r.value);
    ReadStampHolds(bytes, cursor, r.key, r.block, cursor + 12 + |r.key|);
    if ReadStamp(bytes, cursor).Some? {
      var (key, block, n) := ReadStamp(bytes, cursor).value;
      ReadStampHolds(bytes, cursor, key, block, n);
      ReadBytesHolds(bytes, n, r.value, next);
    }
  }

  // ---------------------------------------------------------------- data pages

  function EncodeRecords(rs: seq<Record>): (s: Bytes)
  {
    if rs == [] then [] else EncodeRecords(rs[..|rs| - 1]) + EncodeRecord(rs[|rs| - 1])
  }

  function PageHeader(count: nat): (s: Bytes)
    ensures |s| == 9
  {
    DATA_MAGIC + [VERSION] + BigEndian(count, 4)
  }

  /** A decoded data page: header, record count, records. */
  function EncodePage(rs: seq<Record>): Bytes
  {
    PageHeader(|rs|) + EncodeRecords(rs)
  }

  predicate RecordOk(c: Codec, r: Record, shard: Option<nat>)
  {
    RecordFits(r) && r.key != [] && (shard.Some? ==> Partition(c, r.key) == shard.value)
  }

  ghost predicate PageOk(c: Codec, rs: seq<Record>, shard: Option<nat>)
  {
    && rs != [] && Sorted(rs) && |rs| < 0x1_0000_0000
    && forall r :: r in rs ==> RecordOk(c, r, shard)
  }

  /** `bytes` is the data page of exactly the records `rs`. */
  ghost predicate IsPage(c: Codec, bytes: Bytes, shard: Option<nat>, rs: seq<Record>)
  {
    PageOk(c, rs, shard) && bytes == EncodePage(rs)
  }

  lemma {:induction false} RecordsPrefix(rs: seq<Record>, i: nat)
    requires i <= |rs|
    ensures |EncodeRecords(rs[..i])| <= |EncodeRecords(rs)|
    ensures EncodeRecords(rs)[..|EncodeRecords(rs[..i])|] == EncodeRecords(rs[..i])
  {
    if i < |rs| {
      var front := rs[..|rs| - 1];
      assert front[..i] == rs[..i];
      RecordsPrefix(front, i);
    } else {
      assert rs[..i] == rs;
    }
  }

  lemma {:induction false} RecordsSize(c: Codec, rs: seq<Record>, shard: Option<nat>)
    requires forall r :: r in rs ==> RecordOk(c, r, shard)
    ensures |EncodeRecords(rs)| >= 17 * |rs|
  {
    if rs != [] {
      assert rs[|rs| - 1] in rs;
      RecordsSize(c, rs[..|rs| - 1], shard);
    }
  }

  lemma EncodeMore(rs: seq<Record>, r: Record)
    ensures EncodeRecords(rs + [r]) == EncodeRecords(rs) + EncodeRecord(r)
  {
    assert (rs + [r])[..|rs|] == rs;
  }

  lemma RecordsAt(rs: seq<Record>, i: nat)
    requires i < |rs|
    ensures Holds(EncodeRecords(rs), |EncodeRecords(rs[..i])|, EncodeRecord(rs[i]))
    ensures |EncodeRecords(rs[..i + 1])| == |EncodeRecords(rs[..i])| + |EncodeRecord(rs[i])|
  {
    hide EncodeRecord;
    RecordsPrefix(rs, i + 1);
    assert rs[..i + 1] == rs[..i] + [rs[i]];
    EncodeMore(rs[..i], rs[i]);
    HoldsPrefix(EncodeRecords(rs), EncodeRecords(rs[..i]), EncodeRecord(rs[i]));
  }

  lemma HoldsPrefix(bytes: Bytes, a: Bytes, b: Bytes)
    requires |a + b| <= |bytes| && bytes[..|a + b|] == a + b
    ensures Holds(bytes, |a|, b)
  {
    assert bytes[|a|..|a| + |b|] == bytes[..|a + b|][|a|..];
  }

  lemma HoldsShift(header: Bytes, bytes: Bytes, cursor: nat, part: Bytes)
    requires Holds(bytes, cursor, part)
    ensures Holds(header + bytes, |header| + cursor, part)
  {
    assert (header + bytes)[|header| + cursor..|header| + cursor + |part|] == bytes[cursor..cursor + |part|];
  }

  /** Where record `i` of a page stands. */
  lemma PageAt(c: Codec, bytes: Bytes, shard: Option<nat>, rs: seq<Record>, i: nat)
    requires IsPage(c, bytes, shard, rs) && i < |rs|
    ensures ReadRecord(bytes, 9 + |EncodeRecords(rs[..i])|)
            == Some((rs[i], 9 + |EncodeRecords(rs[..i + 1])|))
  {
    hide EncodeRecords, EncodeRecord, PageHeader, Holds, Sorted, ReadRecord;
    RecordsAt(rs, i);
    HoldsShift(PageHeader(|rs|), EncodeRecords(rs), |EncodeRecords(rs[..i])|, EncodeRecord(rs[i]));
    assert rs[i] in rs && RecordOk(c, rs[i], shard);
    ReadRecordHolds(bytes, 9 + |EncodeRecords(rs[..i])|, rs[i], 9 + |EncodeRecords(rs[..i + 1])|);
  }

  lemma PageCount(c: Codec, bytes: Bytes, shard: Option<nat>, rs: seq<Record>)
    requires IsPage(c, bytes, shard, rs)
    ensures rs != [] && |bytes| == 9 + |EncodeRecords(rs)| && bytes[..4] == DATA_MAGIC && bytes[4] == VERSION
    ensures FromBigEndian(bytes[5..9]) == |rs| <= (|bytes| - 9) / 17
  {
    Widths();
    ReadWritten(|rs|, 4);
    assert bytes[..4] == DATA_MAGIC;
    assert bytes[5..9] == BigEndian(|rs|, 4);
    RecordsSize(c, rs, shard);
  }

  /** `rs` is the start of `qs`. */
  ghost predicate Starts(rs: seq<Record>, qs: seq<Record>)
  {
    |rs| <= |qs| && qs[..|rs|] == rs
  }

  /** Every reading of `bytes` as a page has `count` records and starts with `rs`. */
  ghost predicate Forced(c: Codec, bytes: Bytes, shard: Option<nat>, count: nat, rs: seq<Record>)
  {
    forall qs :: IsPage(c, bytes, shard, qs) ==> |qs| == count && Starts(rs, qs)
  }

  /** What the loop has established after the records `rs`, ending at `cursor`. */
  ghost predicate Parsed(c: Codec, bytes: Bytes, shard: Option<nat>, cursor: nat, rs: seq<Record>)
  {
    && cursor == 9 + |EncodeRecords(rs)| && Holds(bytes, 9, EncodeRecords(rs))
    && Sorted(rs) && forall r :: r in rs ==> RecordOk(c, r, shard)
  }

  lemma ForcedAt(c: Codec, bytes: Bytes, shard: Option<nat>, cursor: nat, rs: seq<Record>, qs: seq<Record>)
    requires IsPage(c, bytes, shard, qs) && Starts(rs, qs) && |rs| < |qs| && cursor == 9 + |EncodeRecords(rs)|
    ensures ReadRecord(bytes, cursor).Some? && Starts(rs + [ReadRecord(bytes, cursor).value.0], qs)
  {
    hide IsPage, ReadRecord, EncodeRecords;
    PageAt(c, bytes, shard, qs, |rs|);
    assert qs[..|rs| + 1] == qs[..|rs|] + [qs[|rs|]];
  }

  /** The next record is forced as well; without one there is no reading at all. */
  lemma ForcedNext(c: Codec, bytes: Bytes, shard: Option<nat>, count: nat, cursor: nat, rs: seq<Record>)
    requires Forced(c, bytes, shard, count, rs) && |rs| < count && cursor == 9 + |EncodeRecords(rs)|
    ensures ReadRecord(bytes, cursor).None? ==> forall qs :: !IsPage(c, bytes, shard, qs)
    ensures ReadRecord(bytes, cursor).Some? ==>
              Forced(c, bytes, shard, count, rs + [ReadRecord(bytes, cursor).value.0])
  {
    hide IsPage, ReadRecord, EncodeRecords, Starts;
    forall qs | IsPage(c, bytes, shard, qs)
      ensures ReadRecord(bytes, cursor).Some? && Starts(rs + [ReadRecord(bytes, cursor).value.0], qs)
    {
      ForcedAt(c, bytes, shard, cursor, rs, qs);
    }
  }

  lemma ParsedGrows(c: Codec, bytes: Bytes, shard: Option<nat>, cursor: nat, rs: seq<Record>, r: Record, next: nat)
    requires Parsed(c, bytes, shard, cursor, rs)
    requires ReadRecord(bytes, cursor) == Some((r, next))
    requires r.key != [] && (shard.Some? ==> Partition(c, r.key) == shard.value)
    requires rs != [] ==> Before(At(rs[|rs| - 1]), At(r))
    ensures Parsed(c, bytes, shard, next, rs + [r])
  {
    hide Before, ReadRecord, EncodeRecords, EncodeRecord, Holds;
    ReadRecordHolds(bytes, cursor, r, next);
    EncodeMore(rs, r);
    HoldsConcat(bytes, 9, EncodeRecords(rs), EncodeRecord(r));
    SortedAppend(rs, r);
  }

  /** Parse one decoded data page; exact: it succeeds on the encodings of ordered records only. */
  method ParsePage(c: Codec, bytes: Bytes, shard: Option<nat>) returns (r: Result<seq<Record>>)
    ensures r.Ok? ==> IsPage(c, bytes, shard, r.value)
    ensures forall rs :: IsPage(c, bytes, shard, rs) ==> r == Ok(rs)
  {
    hide IsPage, ReadRecord, Before, EncodePage, Sorted, BigEndian, FromBigEndian, Starts, Forced, Holds, RecordOk;
    forall rs | IsPage(c, bytes, shard, rs)
      ensures |bytes| >= 9 && bytes[..4] == DATA_MAGIC && bytes[4] == VERSION
      ensures FromBigEndian(bytes[5..9]) == |rs| <= (|bytes| - 9) / 17
    {
      PageCount(c, bytes, shard, rs);
    }
    if |bytes| < 9 || bytes[..4] != DATA_MAGIC || bytes[4] != VERSION {
      return Err;
    }
    var count := FromBigEndian(bytes[5..9]);
    if count > (|bytes| - 9) / 17 {
      return Err;
    }
    var cursor := 9;
    var records: seq<Record> := [];
    ParseStart(c, bytes, shard, count);
    for i := 0 to count
      invariant |records| == i && Parsed(c, bytes, shard, cursor, records)
      invariant Forced(c, bytes, shard, count, records)
    {
      ForcedNext(c, bytes, shard, count, cursor, records);
      var item := ReadRecord(bytes, cursor);
      if item.None? {
        return Err;
      }
      var (record, next) := item.value;
      if record.key == [] || (shard.Some? && Partition(c, record.key) != shard.value) {
        Misfit(c, bytes, shard, count, records, record);
        return Err;
      }
      if records != [] && !Before(At(records[|records| - 1]), At(record)) {
        Disorder(c, bytes, shard, count, records, record);
        return Err;
      }
      ParsedGrows(c, bytes, shard, cursor, records, record, next);
      records, cursor := records + [record], next;
    }
    ParseEnd(c, bytes, shard, count, cursor, records);
    if cursor != |bytes| || records == [] {
      return Err;
    }
    return Ok(records);
  }

  lemma ParseStart(c: Codec, bytes: Bytes, shard: Option<nat>, count: nat)
    requires |bytes| >= 9 && FromBigEndian(bytes[5..9]) == count
    ensures Parsed(c, bytes, shard, 9, []) && Forced(c, bytes, shard, count, [])
  {
    assert EncodeRecords([]) == [];
    assert Holds(bytes, 9, []);
    hide IsPage;
    forall qs | IsPage(c, bytes, shard, qs) ensures |qs| == count && Starts([], qs) {
      PageCount(c, bytes, shard, qs);
    }
  }

  lemma ParseEnd(c: Codec, bytes: Bytes, shard: Option<nat>, count: nat, cursor: nat, rs: seq<Record>)
    requires Parsed(c, bytes, shard, cursor, rs) && Forced(c, bytes, shard, count, rs) && |rs| == count
    requires |bytes| >= 9 && bytes[..4] == DATA_MAGIC && bytes[4] == VERSION && FromBigEndian(bytes[5..9]) == count
    ensures if cursor == |bytes| && rs != [] then IsPage(c, bytes, shard, rs)
            else forall qs :: !IsPage(c, bytes, shard, qs)
    ensures forall qs :: IsPage(c, bytes, shard, qs) ==> qs == rs
  {
    forall qs | IsPage(c, bytes, shard, qs) ensures qs == rs && cursor == |bytes| && rs != [] {
      assert qs[..count] == qs;
      PageCount(c, bytes, shard, qs);
    }
    if cursor == |bytes| && rs != [] { PageWhole(c, bytes, shard, cursor, rs); }
  }

  lemma Misfit(c: Codec, bytes: Bytes, shard: Option<nat>, count: nat, rs: seq<Record>, r: Record)
    requires r.key == [] || (shard.Some? && Partition(c, r.key) != shard.value)
    requires Forced(c, bytes, shard, count, rs + [r])
    ensures forall qs :: !IsPage(c, bytes, shard, qs)
  {
    hide EncodePage, Sorted;
    forall qs | Starts(rs + [r], qs) ensures r in qs {
      assert qs[|rs|] == qs[..|rs| + 1][|rs|];
    }
    hide Starts;
  }

  lemma Disorder(c: Codec, bytes: Bytes, shard: Option<nat>, count: nat, rs: seq<Record>, r: Record)
    requires rs != [] && !Before(At(rs[|rs| - 1]), At(r))
    requires Forced(c, bytes, shard, count, rs + [r])
    ensures forall qs :: !IsPage(c, bytes, shard, qs)
  {
    forall qs | Starts(rs + [r], qs) ensures !Sorted(qs) {
      assert qs[..|rs| + 1][|rs| - 1] == qs[|rs| - 1] && qs[..|rs| + 1][|rs|] == qs[|rs|];
    }
  }

  lemma PageWhole(c: Codec, bytes: Bytes, shard: Option<nat>, cursor: nat, rs: seq<Record>)
    requires rs != [] && Parsed(c, bytes, shard, cursor, rs) && cursor == |bytes|
    requires |bytes| >= 9 && bytes[..4] == DATA_MAGIC && bytes[4] == VERSION
    requires FromBigEndian(bytes[5..9]) == |rs|
    ensures IsPage(c, bytes, shard, rs)
  {
    Widths();
    WriteRead(bytes[5..9]);
    assert bytes[..9] == bytes[..4] + [bytes[4]] + bytes[5..9];
    assert bytes == bytes[..9] + bytes[9..];
  }

  /** A byte string is the page of at most one list of records. */
  lemma PageUnique(c: Codec, bytes: Bytes, shard: Option<nat>, rs: seq<Record>, qs: seq<Record>)
    requires IsPage(c, bytes, shard, rs) && IsPage(c, bytes, shard, qs)
    ensures rs == qs
  {
    PageCount(c, bytes, shard, rs);
    PageCount(c, bytes, shard, qs);
    PagePrefix(c, bytes, shard, rs, qs, |rs|);
    assert rs[..|rs|] == rs && qs[..|rs|] == qs;
  }

  lemma {:induction false} PagePrefix(c: Codec, bytes: Bytes, shard: Option<nat>, rs: seq<Record>, qs: seq<Record>,
                                      i: nat)
    requires IsPage(c, bytes, shard, rs) && IsPage(c, bytes, shard, qs) && i <= |rs| == |qs|
    ensures rs[..i] == qs[..i]
  {
    hide IsPage, ReadRecord, EncodeRecords;
    if i > 0 {
      PagePrefix(c, bytes, shard, rs, qs, i - 1);
      PageAt(c, bytes, shard, rs, i - 1);
      PageAt(c, bytes, shard, qs, i - 1);
      assert rs[..i] == rs[..i - 1] + [rs[i - 1]] && qs[..i] == qs[..i - 1] + [qs[i - 1]];
    }
  }
}
