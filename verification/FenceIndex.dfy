/**
 Fence leaves and internal roots: sorted lists of first versions with references.
 The decoder is the exact inverse of the encoder, as for data pages.
 */
module FenceIndex {
  import opened Bytes
  import opened Versions
  import opened RunFormat

  function Mark(f: Fence): Version { Version(f.key, f.block) }

  function Marks(fs: seq<Fence>): (vs: seq<Version>)
    ensures |vs| == |fs| && forall i :: 0 <= i < |fs| ==> vs[i] == Mark(fs[i])
  {
    seq(|fs|, i requires 0 <= i < |fs| => Mark(fs[i]))
  }

  ghost predicate FencesSorted(fs: seq<Fence>)
  {
    forall i, j :: 0 <= i < j < |fs| ==> Before(Mark(fs[i]), Mark(fs[j]))
  }

  lemma FencesAppend(fs: seq<Fence>, f: Fence)
    requires FencesSorted(fs)
    requires fs != [] ==> Before(Mark(fs[|fs| - 1]), Mark(f))
    ensures FencesSorted(fs + [f])
  {
    forall i | 0 <= i < |fs| ensures Before(Mark(fs[i]), Mark(f)) {
      if i < |fs| - 1 { BeforeTransitive(Mark(fs[i]), Mark(fs[|fs| - 1]), Mark(f)); }
    }
  }

  // ---------------------------------------------------------------- one fence

  function EncodeRef(ref: Ref): (s: Bytes)
    ensures |s| == REF_BYTES
  {
    ref.digest + BigEndian(ref.length, 4)
  }

  function ReadRef(bytes: Bytes, cursor: nat): Option<Ref>
  {
    match Take(bytes, cursor, REF_BYTES)
    case None => None
    case Some(raw) => Widths(); Some(Ref(raw[..32], FromBigEndian(raw[32..36])))
  }

  lemma ReadRefHolds(bytes: Bytes, cursor: nat, ref: Ref)
    ensures ReadRef(bytes, cursor) == Some(ref) <==> Holds(bytes, cursor, EncodeRef(ref))
  {
    Widths();
    ReadWritten(ref.length, 4);
    if Take(bytes, cursor, REF_BYTES).Some? {
      var raw := Take(bytes, cursor, REF_BYTES).value;
      WriteRead(raw[32..36]);
      assert raw == raw[..32] + raw[32..36];
      var enc := EncodeRef(ref);
      assert enc[..32] == ref.digest && enc[32..36] == BigEndian(ref.length, 4);
    }
  }

  function EncodeFence(f: Fence): (s: Bytes)
    ensures |s| == 48 + |f.key|
  {
    EncodeStamp(f.key, f.block) + EncodeRef(f.data)
  }

  function ReadFence(bytes: Bytes, cursor: nat): Option<(Fence, nat)>
  {
    match ReadStamp(bytes, cursor)
    case None => None
    case Some((key, block, next)) =>
      match ReadRef(bytes, next)
      case None => None
      case Some(ref) => Some((Fence(key, block, ref), next + REF_BYTES))
  }

  lemma ReadFenceHolds(bytes: Bytes, cursor: nat, f: Fence, next: nat)
    ensures ReadFence(bytes, cursor) == Some((f, next)) <==>
            && |f.key| < 0x1_0000_0000 && next == cursor + |EncodeFence(f)|
            && Holds(bytes, cursor, EncodeFence(f))
  {
    HoldsConcat(bytes, cursor, EncodeStamp(f.key, f.block), EncodeRef(f.data));
    ReadStampHolds(bytes, cursor, f.key, f.block, cursor + 12 + |f.key|);
    if ReadStamp(bytes, cursor).Some? {
      var (key, block, n) := ReadStamp(bytes, cursor).value;
      ReadStampHolds(bytes, cursor, key, block, n);
      ReadRefHolds(bytes, n, f.data);
    }
  }

  // ---------------------------------------------------------------- indexes

  function EncodeFences(fs: seq<Fence>): (s: Bytes)
  {
    if fs == [] then [] else EncodeFences(fs[..|fs| - 1]) + EncodeFence(fs[|fs| - 1])
  }

  function IndexHeader(magic: Bytes, count: nat): (s: Bytes)
    ensures |s| == |magic| + 5
  {
    magic + [VERSION] + BigEndian(count, 4)
  }

  function EncodeIndex(magic: Bytes, fs: seq<Fence>): Bytes
  {
    IndexHeader(magic, |fs|) + EncodeFences(fs)
  }

  /** The running size the builder compares with the index bound. */
  function IndexSize(fs: seq<Fence>): (n: nat)
    ensures n == 9 + |EncodeFences(fs)|
  {
    if fs == [] then 9 else IndexSize(fs[..|fs| - 1]) + 4 + |fs[|fs| - 1].key| + 8 + REF_BYTES
  }

  /** The largest object an entry of this kind of index may reference. */
  function Bound(magic: Bytes): nat
  {
    if magic == INTERNAL_MAGIC then MAX_INDEX else MAX_PAGE
  }

  predicate RefOk(ref: Ref, bound: nat)
  {
    0 < ref.length <= bound && ref.digest != ZERO
  }

  predicate FenceOk(c: Codec, magic: Bytes, shard: nat, f: Fence)
  {
    && |f.key| < 0x1_0000_0000 && f.key != [] && Partition(c, f.key) == shard
    && RefOk(f.data, Bound(magic))
  }

  ghost predicate IndexOk(c: Codec, magic: Bytes, shard: nat, fs: seq<Fence>)
  {
    && fs != [] && FencesSorted(fs) && |EncodeIndex(magic, fs)| <= MAX_INDEX
    && forall f :: f in fs ==> FenceOk(c, magic, shard, f)
  }

  /** `bytes` is the index of exactly the fences `fs`. */
  ghost predicate IsIndex(c: Codec, magic: Bytes, bytes: Bytes, shard: nat, fs: seq<Fence>)
  {
    |magic| == 4 && IndexOk(c, magic, shard, fs) && bytes == EncodeIndex(magic, fs)
  }

  lemma EncodeMoreFences(fs: seq<Fence>, f: Fence)
    ensures EncodeFences(fs + [f]) == EncodeFences(fs) + EncodeFence(f)
  {
    assert (fs + [f])[..|fs|] == fs;
  }

  lemma {:induction false} FencesPrefix(fs: seq<Fence>, i: nat)
    requires i <= |fs|
    ensures |EncodeFences(fs[..i])| <= |EncodeFences(fs)|
    ensures EncodeFences(fs)[..|EncodeFences(fs[..i])|] == EncodeFences(fs[..i])
  {
    if i < |fs| {
      var front := fs[..|fs| - 1];
      assert front[..i] == fs[..i];
      FencesPrefix(front, i);
    } else {
      assert fs[..i] == fs;
    }
  }

  lemma {:induction false} FencesSize(fs: seq<Fence>)
    requires forall f :: f in fs ==> f.key != []
    ensures |EncodeFences(fs)| >= 49 * |fs|
  {
    if fs != [] {
      assert fs[|fs| - 1] in fs;
      FencesSize(fs[..|fs| - 1]);
    }
  }

  lemma FencesAt(fs: seq<Fence>, i: nat)
    requires i < |fs|
    ensures Holds(EncodeFences(fs), |EncodeFences(fs[..i])|, EncodeFence(fs[i]))
    ensures |EncodeFences(fs[..i + 1])| == |EncodeFences(fs[..i])| + |EncodeFence(fs[i])|
  {
    hide EncodeFence;
    FencesPrefix(fs, i + 1);
    assert fs[..i + 1] == fs[..i] + [fs[i]];
    EncodeMoreFences(fs[..i], fs[i]);
    HoldsPrefix(EncodeFences(fs), EncodeFences(fs[..i]), EncodeFence(fs[i]));
  }

  /** Where fence `i` of an index stands. */
  lemma IndexAt(c: Codec, magic: Bytes, bytes: Bytes, shard: nat, fs: seq<Fence>, i: nat)
    requires IsIndex(c, magic, bytes, shard, fs) && i < |fs|
    ensures ReadFence(bytes, 9 + |EncodeFences(fs[..i])|) == Some((fs[i], 9 + |EncodeFences(fs[..i + 1])|))
  {
    hide EncodeFences, EncodeFence, IndexHeader, Holds, FencesSorted, ReadFence;
    FencesAt(fs, i);
    HoldsShift(IndexHeader(magic, |fs|), EncodeFences(fs), |EncodeFences(fs[..i])|, EncodeFence(fs[i]));
    assert fs[i] in fs && FenceOk(c, magic, shard, fs[i]);
    ReadFenceHolds(bytes, 9 + |EncodeFences(fs[..i])|, fs[i], 9 + |EncodeFences(fs[..i + 1])|);
  }

  lemma IndexCount(c: Codec, magic: Bytes, bytes: Bytes, shard: nat, fs: seq<Fence>)
    requires IsIndex(c, magic, bytes, shard, fs)
    ensures fs != [] && MAX_INDEX >= |bytes| == 9 + |EncodeFences(fs)| && bytes[..4] == magic && bytes[4] == VERSION
    ensures FromBigEndian(bytes[5..9]) == |fs| <= (|bytes| - 9) / 49
  {
    hide EncodeFences, FencesSorted, BigEndian, FromBigEndian;
    Widths();
    FencesSize(fs);
    ReadWritten(|fs|, 4);
    assert bytes[..4] == magic;
    assert bytes[5..9] == BigEndian(|fs|, 4);
  }

  ghost predicate Starts(fs: seq<Fence>, gs: seq<Fence>)
  {
    |fs| <= |gs| && gs[..|fs|] == fs
  }

  /** Every reading of `bytes` as an index has `count` fences and starts with `fs`. */
  ghost predicate Forced(c: Codec, magic: Bytes, bytes: Bytes, shard: nat, count: nat, fs: seq<Fence>)
  {
    forall gs :: IsIndex(c, magic, bytes, shard, gs) ==> |gs| == count && Starts(fs, gs)
  }

  /** What the loop has established after the fences `fs`, ending at `cursor`. */
  ghost predicate Parsed(c: Codec, magic: Bytes, bytes: Bytes, shard: nat, cursor: nat, fs: seq<Fence>)
  {
    && cursor == 9 + |EncodeFences(fs)| && Holds(bytes, 9, EncodeFences(fs))
    && FencesSorted(fs) && forall f :: f in fs ==> FenceOk(c, magic, shard, f)
  }

  lemma ForcedAt(c: Codec, magic: Bytes, bytes: Bytes, shard: nat, cursor: nat, fs: seq<Fence>, gs: seq<Fence>)
    requires IsIndex(c, magic, bytes, shard, gs) && Starts(fs, gs) && |fs| < |gs|
    requires cursor == 9 + |EncodeFences(fs)|
    ensures ReadFence(bytes, cursor).Some? && Starts(fs + [ReadFence(bytes, cursor).value.0], gs)
  {
    hide IsIndex, ReadFence, EncodeFences;
    IndexAt(c, magic, bytes, shard, gs, |fs|);
    assert gs[..|fs| + 1] == gs[..|fs|] + [gs[|fs|]];
  }

  lemma ForcedNext(c: Codec, magic: Bytes, bytes: Bytes, shard: nat, count: nat, cursor: nat, fs: seq<Fence>)
    requires Forced(c, magic, bytes, shard, count, fs) && |fs| < count && cursor == 9 + |EncodeFences(fs)|
    ensures ReadFence(bytes, cursor).None? ==> forall gs :: !IsIndex(c, magic, bytes, shard, gs)
    ensures ReadFence(bytes, cursor).Some? ==>
              Forced(c, magic, bytes, shard, count, fs + [ReadFence(bytes, cursor).value.0])
  {
    hide IsIndex, ReadFence, EncodeFences, Starts;
    forall gs | IsIndex(c, magic, bytes, shard, gs)
      ensures ReadFence(bytes, cursor).Some? && Starts(fs + [ReadFence(bytes, cursor).value.0], gs)
    {
      ForcedAt(c, magic, bytes, shard, cursor, fs, gs);
    }
  }

  lemma ParsedGrows(c: Codec, magic: Bytes, bytes: Bytes, shard: nat, cursor: nat, fs: seq<Fence>, f: Fence, next: nat)
    requires Parsed(c, magic, bytes, shard, cursor, fs)
    requires ReadFence(bytes, cursor) == Some((f, next))
    requires f.key != [] && Partition(c, f.key) == shard && RefOk(f.data, Bound(magic))
    requires fs != [] ==> Before(Mark(fs[|fs| - 1]), Mark(f))
    ensures Parsed(c, magic, bytes, shard, next, fs + [f])
  {
    hide Before, ReadFence, EncodeFences, EncodeFence, Holds;
    ReadFenceHolds(bytes, cursor, f, next);
    EncodeMoreFences(fs, f);
    HoldsConcat(bytes, 9, EncodeFences(fs), EncodeFence(f));
    FencesAppend(fs, f);
  }

  /** `bytes` are the exact bytes `ref` names. */
  predicate Matches(c: Codec, ref: Ref, bytes: Bytes)
  {
    ref.length == |bytes| && ref.digest == c.sha(bytes)
  }

  /** Verify and parse an index; exact: it succeeds on the encodings of ordered fences only. */
  method DecodeIndex(c: Codec, ref: Ref, bytes: Bytes, shard: nat, magic: Bytes) returns (r: Result<seq<Fence>>)
    requires |magic| == 4
    ensures r.Ok? ==> Matches(c, ref, bytes) && IsIndex(c, magic, bytes, shard, r.value)
    ensures forall fs :: Matches(c, ref, bytes) && IsIndex(c, magic, bytes, shard, fs) ==> r == Ok(fs)
  {
    hide IsIndex, ReadFence, Before, EncodeIndex, FencesSorted, BigEndian, FromBigEndian, Starts, Forced, Holds;
    hide FenceOk;
    forall fs | IsIndex(c, magic, bytes, shard, fs)
      ensures MAX_INDEX >= |bytes| >= 9 && bytes[..4] == magic && bytes[4] == VERSION
      ensures FromBigEndian(bytes[5..9]) == |fs| <= (|bytes| - 9) / 49
    {
      IndexCount(c, magic, bytes, shard, fs);
    }
    if |bytes| > MAX_INDEX || !Matches(c, ref, bytes) {
      return Err;
    }
    if |bytes| < 9 || bytes[..4] != magic || bytes[4] != VERSION {
      return Err;
    }
    var count := FromBigEndian(bytes[5..9]);
    if count > (|bytes| - 9) / 49 {
      return Err;
    }
    var cursor := 9;
    var fences: seq<Fence> := [];
    ParseStart(c, magic, bytes, shard, count);
    for i := 0 to count
      invariant |fences| == i && Parsed(c, magic, bytes, shard, cursor, fences)
      invariant Forced(c, magic, bytes, shard, count, fences)
    {
      ForcedNext(c, magic, bytes, shard, count, cursor, fences);
      var item := ReadFence(bytes, cursor);
      if item.None? {
        return Err;
      }
      var (fence, next) := item.value;
      if fence.key == [] || Partition(c, fence.key) != shard || !RefOk(fence.data, Bound(magic)) {
        Misfit(c, magic, bytes, shard, count, fences, fence);
        return Err;
      }
      if fences != [] && !Before(Mark(fences[|fences| - 1]), Mark(fence)) {
        Disorder(c, magic, bytes, shard, count, fences, fence);
        return Err;
      }
      ParsedGrows(c, magic, bytes, shard, cursor, fences, fence, next);
      fences, cursor := fences + [fence], next;
    }
    ParseEnd(c, magic, bytes, shard, count, cursor, fences);
    if cursor != |bytes| || fences == [] {
      return Err;
    }
    return Ok(fences);
  }

  lemma ParseStart(c: Codec, magic: Bytes, bytes: Bytes, shard: nat, count: nat)
    requires |bytes| >= 9 && FromBigEndian(bytes[5..9]) == count
    ensures Parsed(c, magic, bytes, shard, 9, []) && Forced(c, magic, bytes, shard, count, [])
  {
    assert EncodeFences([]) == [];
    assert Holds(bytes, 9, []);
    hide IsIndex;
    forall gs | IsIndex(c, magic, bytes, shard, gs) ensures |gs| == count && Starts([], gs) {
      IndexCount(c, magic, bytes, shard, gs);
    }
  }

  lemma ParseEnd(c: Codec, magic: Bytes, bytes: Bytes, shard: nat, count: nat, cursor: nat, fs: seq<Fence>)
    requires Parsed(c, magic, bytes, shard, cursor, fs) && Forced(c, magic, bytes, shard, count, fs)
    requires |fs| == count && |magic| == 4
    requires MAX_INDEX >= |bytes| >= 9 && bytes[..4] == magic && bytes[4] == VERSION
    requires FromBigEndian(bytes[5..9]) == count
    ensures if cursor == |bytes| && fs != [] then IsIndex(c, magic, bytes, shard, fs)
            else forall gs :: !IsIndex(c, magic, bytes, shard, gs)
    ensures forall gs :: IsIndex(c, magic, bytes, shard, gs) ==> gs == fs
  {
    forall gs | IsIndex(c, magic, bytes, shard, gs) ensures gs == fs && cursor == |bytes| && fs != [] {
      assert gs[..count] == gs;
      IndexCount(c, magic, bytes, shard, gs);
    }
    if cursor == |bytes| && fs != [] { IndexWhole(c, magic, bytes, shard, cursor, fs); }
  }

  lemma Misfit(c: Codec, magic: Bytes, bytes: Bytes, shard: nat, count: nat, fs: seq<Fence>, f: Fence)
    requires f.key == [] || Partition(c, f.key) != shard || !RefOk(f.data, Bound(magic))
    requires Forced(c, magic, bytes, shard, count, fs + [f])
    ensures forall gs :: !IsIndex(c, magic, bytes, shard, gs)
  {
    hide EncodeIndex, FencesSorted;
    forall gs | Starts(fs + [f], gs) ensures f in gs {
      assert gs[|fs|] == gs[..|fs| + 1][|fs|];
    }
    hide Starts;
  }

  lemma Disorder(c: Codec, magic: Bytes, bytes: Bytes, shard: nat, count: nat, fs: seq<Fence>, f: Fence)
    requires fs != [] && !Before(Mark(fs[|fs| - 1]), Mark(f))
    requires Forced(c, magic, bytes, shard, count, fs + [f])
    ensures forall gs :: !IsIndex(c, magic, bytes, shard, gs)
  {
    forall gs | Starts(fs + [f], gs) ensures !FencesSorted(gs) {
      assert gs[..|fs| + 1][|fs| - 1] == gs[|fs| - 1] && gs[..|fs| + 1][|fs|] == gs[|fs|];
    }
  }

  lemma IndexWhole(c: Codec, magic: Bytes, bytes: Bytes, shard: nat, cursor: nat, fs: seq<Fence>)
    requires fs != [] && |magic| == 4 && Parsed(c, magic, bytes, shard, cursor, fs) && cursor == |bytes| <= MAX_INDEX
    requires |bytes| >= 9 && bytes[..4] == magic && bytes[4] == VERSION && FromBigEndian(bytes[5..9]) == |fs|
    ensures IsIndex(c, magic, bytes, shard, fs)
  {
    hide EncodeFences, FencesSorted, FromBigEndian;
    WriteRead(bytes[5..9]);
    assert bytes[..9] == bytes[..4] + [bytes[4]] + bytes[5..9];
    assert bytes == bytes[..9] + bytes[9..];
  }

  // ---------------------------------------------------------------- run roots

  function EncodeRefs(refs: seq<Ref>): (s: Bytes)
    ensures |s| == REF_BYTES * |refs|
  {
    if refs == [] then [] else EncodeRefs(refs[..|refs| - 1]) + EncodeRef(refs[|refs| - 1])
  }

  function EncodeRoot(refs: seq<Ref>): Bytes
  {
    ROOT_MAGIC + [VERSION] + EncodeRefs(refs)
  }

  predicate RootRefOk(ref: Ref)
  {
    ref == DEFAULT_REF || RefOk(ref, MAX_INDEX)
  }

  /** `bytes` is the root of a run with exactly these partition references. */
  ghost predicate IsRoot(bytes: Bytes, refs: seq<Ref>)
  {
    && |refs| == PARTITIONS && (forall p :: 0 <= p < PARTITIONS ==> RootRefOk(refs[p]))
    && bytes == EncodeRoot(refs)
  }

  lemma {:induction false} RefsAt(bytes: Bytes, cursor: nat, refs: seq<Ref>)
    ensures Holds(bytes, cursor, EncodeRefs(refs)) <==>
            && cursor + REF_BYTES * |refs| <= |bytes|
            && forall p :: 0 <= p < |refs| ==> Holds(bytes, cursor + REF_BYTES * p, EncodeRef(refs[p]))
  {
    hide EncodeRef;
    if refs != [] {
      var last := |refs| - 1;
      RefsAt(bytes, cursor, refs[..last]);
      HoldsConcat(bytes, cursor, EncodeRefs(refs[..last]), EncodeRef(refs[last]));
      assert forall p :: 0 <= p < last ==> refs[..last][p] == refs[p];
    }
  }

  lemma RootAt(bytes: Bytes, refs: seq<Ref>, p: nat)
    requires IsRoot(bytes, refs) && p < PARTITIONS
    ensures |bytes| == ROOT_BYTES && bytes[..4] == ROOT_MAGIC && bytes[4] == VERSION
    ensures |refs| == PARTITIONS && ReadRef(bytes, 5 + p * REF_BYTES) == Some(refs[p]) && RootRefOk(refs[p])
  {
    hide EncodeRefs, EncodeRef, ReadRef;
    assert bytes[..4] == ROOT_MAGIC;
    assert bytes[5..] == EncodeRefs(refs);
    assert Holds(bytes, 5, EncodeRefs(refs));
    RefsAt(bytes, 5, refs);
    ReadRefHolds(bytes, 5 + p * REF_BYTES, refs[p]);
  }

  lemma RootWhole(bytes: Bytes, refs: seq<Ref>)
    requires |bytes| == ROOT_BYTES && bytes[..4] == ROOT_MAGIC && bytes[4] == VERSION && |refs| == PARTITIONS
    requires forall p :: 0 <= p < PARTITIONS ==> RootRefOk(refs[p])
    requires forall p :: 0 <= p < PARTITIONS ==> Holds(bytes, 5 + REF_BYTES * p, EncodeRef(refs[p]))
    ensures IsRoot(bytes, refs)
  {
    hide EncodeRefs, EncodeRef;
    RefsAt(bytes, 5, refs);
    assert bytes == bytes[..4] + [bytes[4]] + bytes[5..];
  }

  /** Decode a run root; exact, like the other decoders. */
  method DecodeRoot(c: Codec, ref: Ref, bytes: Bytes) returns (r: Result<seq<Ref>>)
    ensures r.Ok? ==> Matches(c, ref, bytes) && IsRoot(bytes, r.value) && |r.value| == PARTITIONS
    ensures forall refs :: Matches(c, ref, bytes) && IsRoot(bytes, refs) ==> r == Ok(refs)
  {
    hide ReadRef, EncodeRef, IsRoot, Holds, RootRefOk, Matches;
    forall refs | IsRoot(bytes, refs)
      ensures |refs| == PARTITIONS && |bytes| == ROOT_BYTES && bytes[..4] == ROOT_MAGIC && bytes[4] == VERSION
    {
      RootAt(bytes, refs, 0);
    }
    if |bytes| != ROOT_BYTES || !Matches(c, ref, bytes) {
      return Err;
    }
    if bytes[..4] != ROOT_MAGIC || bytes[4] != VERSION {
      return Err;
    }
    var indexes: seq<Ref> := [];
    for p := 0 to PARTITIONS
      invariant |indexes| == p
      invariant forall q :: 0 <= q < p ==> RootRefOk(indexes[q])
      invariant forall q :: 0 <= q < p ==> Holds(bytes, 5 + REF_BYTES * q, EncodeRef(indexes[q]))
      invariant forall refs :: IsRoot(bytes, refs) ==> |refs| == PARTITIONS && indexes == refs[..p]
    {
      var slot := ReadRef(bytes, 5 + p * REF_BYTES);
      forall refs | IsRoot(bytes, refs) ensures slot == Some(refs[p]) && RootRefOk(refs[p]) {
        RootAt(bytes, refs, p);
      }
      if slot.None? || !RootRefOk(slot.value) {
        return Err;
      }
      ReadRefHolds(bytes, 5 + p * REF_BYTES, slot.value);
      indexes := indexes + [slot.value];
    }
    RootWhole(bytes, indexes);
    forall refs | IsRoot(bytes, refs) ensures refs == indexes {
      assert refs[..PARTITIONS] == refs;
    }
    return Ok(indexes);
  }
}
