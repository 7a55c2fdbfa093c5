/**
 Run membership summaries: address-routed Bloom shards, and key-routed spill shards for
 addresses with many keys. A summary never denies a key that was added.
 */
module Summary {
  import opened Bytes
  import opened RunFormat
  import opened Bloom

  const SHARD_KEYS := 32 * 1024
  const BITS_PER_KEY := 16
  const HEAVY_GROUP := 4096
  const HEADER_BYTES := 46
  const MAX_SHARD := 1024 * 1024
  const SUMMARY_MAGIC: Bytes := [70, 84, 83, 77]

  datatype Kind = Address | Spill

  /** Tag byte and address, or the whole of a short key. */
  function Group(key: Bytes): Bytes { if |key| < 21 then key else key[..21] }

  function Route(group: Bytes): Bytes { if group == [] then [] else group[1..] }

  function Marker(group: Bytes): Bytes { [255] + group }

  function AddressIndex(c: Codec, group: Bytes, shards: nat): (i: nat)
    requires shards > 0
    ensures i < shards
  {
    FromBigEndian(c.sha(Route(group))[..4]) % shards
  }

  function SpillIndex(d: Digest, shards: nat): (i: nat)
    requires shards > 0
    ensures i < shards
  {
    FromBigEndian(d[16..20]) % shards
  }

  // ---------------------------------------------------------------- sizing

  function DivCeil(a: nat, b: nat): nat
    requires b > 0
  {
    (a + b - 1) / b
  }

  function NextPowerOfTwo(n: nat): (p: nat)
    ensures p > 0 && p >= n
  {
    if n <= 1 then 1 else 2 * NextPowerOfTwo((n + 1) / 2)
  }

  /** Shard count of a run with `keys` distinct keys, truncated to 32 bits as in the code. */
  function ShardCount(keys: U64): nat
  {
    var wanted := DivCeil(keys, SHARD_KEYS);
    NextPowerOfTwo(if wanted < 1 then 1 else wanted) % 0x1_0000_0000
  }

  function BytesPerShard(keys: U64, shards: nat): nat
    requires shards > 0
  {
    var perShard := DivCeil(keys, shards);
    DivCeil((if perShard < 64 then 64 else perShard) * BITS_PER_KEY, 8)
  }

  lemma {:induction false} PowerIsExp(n: nat) returns (k: nat)
    ensures NextPowerOfTwo(n) == Exp2(k)
  {
    if n <= 1 {
      k := 0;
    } else {
      k := PowerIsExp((n + 1) / 2);
      k := k + 1;
    }
  }

  lemma {:induction false} PowerBelow(n: nat, k: nat)
    requires n <= Exp2(k)
    ensures NextPowerOfTwo(n) <= Exp2(k)
  {
    if n > 1 { PowerBelow((n + 1) / 2, k - 1); }
  }

  lemma {:induction false} ExpMonotone(a: nat, b: nat)
    requires a <= b
    ensures Exp2(a) <= Exp2(b)
  {
    if a < b { ExpMonotone(a, b - 1); }
  }

  lemma {:induction false} ExpMultiple(k: nat)
    requires k >= 32
    ensures Exp2(k) % 0x1_0000_0000 == 0
  {
    hide Exp2;
    Exps();
    if k > 32 {
      ExpMultiple(k - 1);
      ExpStep(k);
      Doubled(Exp2(k - 1));
    }
  }

  lemma Doubled(x: nat)
    requires x % 0x1_0000_0000 == 0
    ensures (2 * x) % 0x1_0000_0000 == 0
  {
    var q := x / 0x1_0000_0000;
    assert 2 * x == 0x1_0000_0000 * (2 * q);
  }

  lemma ExpStep(k: nat)
    requires k > 0
    ensures Exp2(k) == 2 * Exp2(k - 1)
  {
  }

  lemma Exps()
    ensures Exp2(31) == 0x8000_0000 && Exp2(32) == 0x1_0000_0000
  {
    assert Exp2(8) == 0x100;
    assert Exp2(16) == 0x1_0000;
    assert Exp2(24) == 0x100_0000;
    assert Exp2(31) == 0x8000_0000;
  }

  ghost predicate PowerOfTwo(n: nat) { exists k: nat :: n == Exp2(k) }

  /** The count survives the 32-bit cast exactly up to 2^46 keys; beyond, it becomes zero. */
  lemma ShardCountIff(keys: U64)
    ensures ShardCount(keys) > 0 <==> keys <= 0x4000_0000_0000
    ensures keys <= 0x4000_0000_0000 ==> 1 <= ShardCount(keys) <= 0x8000_0000 && keys <= ShardCount(keys) * SHARD_KEYS
  {
    hide Exp2, NextPowerOfTwo;
    Exps();
    var wanted := DivCeil(keys, SHARD_KEYS);
    var n := if wanted < 1 then 1 else wanted;
    var k := PowerIsExp(n);
    if keys <= 0x4000_0000_0000 {
      PowerBelow(n, 31);
    } else {
      assert n > Exp2(31);
      if k <= 31 { ExpMonotone(k, 31); }
      ExpMultiple(k);
    }
  }

  lemma ShardCountPower(keys: U64)
    requires keys <= 0x4000_0000_0000
    ensures PowerOfTwo(ShardCount(keys))
  {
    hide Exp2, NextPowerOfTwo;
    Exps();
    var wanted := DivCeil(keys, SHARD_KEYS);
    var n := if wanted < 1 then 1 else wanted;
    var k := PowerIsExp(n);
    PowerBelow(n, 31);
    assert ShardCount(keys) == Exp2(k);
  }

  /** Up to 2^46 expected keys a new builder always fits its size bound. */
  lemma NewFits(keys: U64)
    requires keys <= 0x4000_0000_0000
    ensures ShardCount(keys) > 0
    ensures 128 <= BytesPerShard(keys, ShardCount(keys)) <= 0x1_0000
    ensures HEADER_BYTES + BytesPerShard(keys, ShardCount(keys)) + 32 <= MAX_SHARD
  {
    ShardCountIff(keys);
    hide ShardCount;
    PerShard(keys, ShardCount(keys));
  }

  lemma PerShard(keys: nat, shards: nat)
    requires shards > 0 && keys <= shards * SHARD_KEYS
    ensures DivCeil(keys, shards) <= SHARD_KEYS
  {
    var q := (keys + shards - 1) / shards;
    assert q * shards <= keys + shards - 1;
    assert q > SHARD_KEYS ==> q * shards >= (SHARD_KEYS + 1) * shards;
  }

  // ---------------------------------------------------------------- membership

  /** The bitsets of all shards. */
  datatype Filter = Filter(address: seq<Bytes>, spill: seq<Bytes>)

  ghost predicate ListOk(list: seq<Bytes>, shards: nat, size: nat)
  {
    |list| == shards && forall i :: 0 <= i < shards ==> |list[i]| == size
  }

  ghost predicate FilterOk(f: Filter, shards: nat, size: nat)
  {
    shards > 0 && size > 0 && ListOk(f.address, shards, size) && ListOk(f.spill, shards, size)
  }

  /** The reader's probe: the key in its address shard, or the marker there and the key in its spill shard. */
  ghost predicate MayContain(c: Codec, f: Filter, shards: nat, size: nat, key: Bytes)
    requires FilterOk(f, shards, size)
  {
    var address := f.address[AddressIndex(c, Group(key), shards)];
    || Contains(address, c.sha(key))
    || (Contains(address, c.sha(Marker(Group(key)))) && Contains(f.spill[SpillIndex(c.sha(key), shards)], c.sha(key)))
  }

  ghost predicate ListGrown(before: seq<Bytes>, after: seq<Bytes>)
  {
    |before| == |after| && forall i :: 0 <= i < |before| ==> Grown(before[i], after[i])
  }

  /** Setting more bits denies nothing that was granted. */
  lemma GrownMay(c: Codec, f: Filter, g: Filter, shards: nat, size: nat, key: Bytes)
    requires FilterOk(f, shards, size) && FilterOk(g, shards, size)
    requires ListGrown(f.address, g.address) && ListGrown(f.spill, g.spill)
    requires MayContain(c, f, shards, size, key)
    ensures MayContain(c, g, shards, size, key)
  {
    hide Contains, Grown;
    var i := AddressIndex(c, Group(key), shards);
    var j := SpillIndex(c.sha(key), shards);
    if Contains(f.address[i], c.sha(key)) { GrownContains(f.address[i], g.address[i], c.sha(key)); }
    if Contains(f.address[i], c.sha(Marker(Group(key)))) {
      GrownContains(f.address[i], g.address[i], c.sha(Marker(Group(key))));
    }
    if Contains(f.spill[j], c.sha(key)) { GrownContains(f.spill[j], g.spill[j], c.sha(key)); }
  }

  /** Shard `i` holds exactly the bits of the digests `items[i]`. */
  ghost predicate Filled(list: seq<Bytes>, items: seq<set<Digest>>)
  {
    |list| == |items| && forall i :: 0 <= i < |list| ==> Exactly(list[i], items[i])
  }

  method InsertAt(list: seq<Bytes>, i: nat, d: Digest, ghost size: nat, ghost items: seq<set<Digest>>)
    returns (out: seq<Bytes>)
    requires i < |list| && size > 0 && ListOk(list, |list|, size) && Filled(list, items)
    ensures ListOk(out, |list|, size) && ListGrown(list, out) && Contains(out[i], d)
    ensures Filled(out, items[i := items[i] + {d}])
  {
    hide Contains, Grown, Exactly;
    var bits := Insert(list[i], d);
    GrownFacts(list[i], bits);
    ExactlyMore(list[i], bits, items[i], d);
    forall j | 0 <= j < |list| ensures Grown(list[j], list[j]) { GrownSelf(list[j]); }
    out := list[i := bits];
  }

  lemma GrownFacts(a: Bytes, b: Bytes)
    requires Grown(a, b)
    ensures |a| == |b|
  {
  }

  lemma GrownSelf(a: Bytes)
    ensures Grown(a, a)
  {
  }

  lemma GrownTrans(a: seq<Bytes>, b: seq<Bytes>, d: seq<Bytes>)
    requires ListGrown(a, b) && ListGrown(b, d)
    ensures ListGrown(a, d)
  {
    forall i | 0 <= i < |a| ensures Grown(a[i], d[i]) {
      assert Grown(a[i], b[i]) && Grown(b[i], d[i]);
    }
  }

  lemma ListGrownSelf(a: seq<Bytes>)
    ensures ListGrown(a, a)
  {
  }

  /** What the spill shards hold once these digests join them. */
  ghost function Spilled(items: seq<set<Digest>>, digests: seq<Digest>): (out: seq<set<Digest>>)
    requires |items| > 0
    ensures |out| == |items|
  {
    if digests == [] then items
    else
      var before, d := Spilled(items, digests[..|digests| - 1]), digests[|digests| - 1];
      before[SpillIndex(d, |items|) := before[SpillIndex(d, |items|)] + {d}]
  }

  /** Insert digests into the spill shards their own bytes choose. */
  method SpillAll(list: seq<Bytes>, digests: seq<Digest>, ghost size: nat, ghost items: seq<set<Digest>>)
    returns (out: seq<Bytes>)
    requires |list| > 0 && size > 0 && ListOk(list, |list|, size) && Filled(list, items)
    ensures ListOk(out, |list|, size) && ListGrown(list, out) && Filled(out, Spilled(items, digests))
    ensures forall k :: 0 <= k < |digests| ==> Contains(out[SpillIndex(digests[k], |list|)], digests[k])
  {
    hide Contains, Grown, ListGrown, SpillIndex, Filled;
    FilledLength(list, items);
    out := list;
    ListGrownSelf(list);
    for i := 0 to |digests|
      invariant ListOk(out, |list|, size) && ListGrown(list, out) && Filled(out, Spilled(items, digests[..i]))
      invariant forall k :: 0 <= k < i ==> Contains(out[SpillIndex(digests[k], |list|)], digests[k])
    {
      assert digests[..i + 1][..i] == digests[..i];
      var next := InsertAt(out, SpillIndex(digests[i], |list|), digests[i], size, Spilled(items, digests[..i]));
      forall k | 0 <= k < i ensures Contains(next[SpillIndex(digests[k], |list|)], digests[k]) {
        Kept(out, next, SpillIndex(digests[k], |list|), digests[k], size);
      }
      GrownTrans(list, out, next);
      out := next;
    }
    assert digests[..|digests|] == digests;
  }

  lemma FilledLength(list: seq<Bytes>, items: seq<set<Digest>>)
    requires Filled(list, items)
    ensures |list| == |items|
  {
  }

  /** What the address shards hold once these digests join shard `index`. */
  ghost function Addressed(items: seq<set<Digest>>, index: nat, digests: seq<Digest>): (out: seq<set<Digest>>)
    requires index < |items|
    ensures |out| == |items|
  {
    if digests == [] then items
    else
      var before := Addressed(items, index, digests[..|digests| - 1]);
      before[index := before[index] + {digests[|digests| - 1]}]
  }

  /** Insert digests into one address shard. */
  method AddressAll(list: seq<Bytes>, index: nat, digests: seq<Digest>, ghost size: nat, ghost items: seq<set<Digest>>)
    returns (out: seq<Bytes>)
    requires index < |list| && size > 0 && ListOk(list, |list|, size) && Filled(list, items)
    ensures ListOk(out, |list|, size) && ListGrown(list, out)
    ensures index < |items| && Filled(out, Addressed(items, index, digests))
    ensures forall k :: 0 <= k < |digests| ==> Contains(out[index], digests[k])
  {
    hide Contains, Grown, ListGrown, Filled;
    FilledLength(list, items);
    out := list;
    ListGrownSelf(list);
    for i := 0 to |digests|
      invariant ListOk(out, |list|, size) && ListGrown(list, out) && Filled(out, Addressed(items, index, digests[..i]))
      invariant forall k :: 0 <= k < i ==> Contains(out[index], digests[k])
    {
      assert digests[..i + 1][..i] == digests[..i];
      var next := InsertAt(out, index, digests[i], size, Addressed(items, index, digests[..i]));
      forall k | 0 <= k < i ensures Contains(next[index], digests[k]) {
        Kept(out, next, index, digests[k], size);
      }
      GrownTrans(list, out, next);
      out := next;
    }
    assert digests[..|digests|] == digests;
  }

  lemma Kept(before: seq<Bytes>, after: seq<Bytes>, i: nat, d: Digest, size: nat)
    requires i < |before| && size > 0 && ListOk(before, |before|, size) && ListOk(after, |before|, size)
    requires ListGrown(before, after) && Contains(before[i], d)
    ensures Contains(after[i], d)
  {
    GrownContains(before[i], after[i], d);
  }

  // ---------------------------------------------------------------- the builder

  function Digests(c: Codec, keys: seq<Bytes>): (ds: seq<Digest>)
    ensures |ds| == |keys| && forall k :: 0 <= k < |keys| ==> ds[k] == c.sha(keys[k])
  {
    seq(|keys|, k requires 0 <= k < |keys| => c.sha(keys[k]))
  }

  ghost predicate AllMay(c: Codec, f: Filter, shards: nat, size: nat, keys: seq<Bytes>)
    requires FilterOk(f, shards, size)
  {
    forall k :: k in keys ==> MayContain(c, f, shards, size, k)
  }

  /** Every added key is granted or still waits. */
  ghost predicate Covered(c: Codec, f: Filter, shards: nat, size: nat, added: seq<Bytes>, waiting: seq<Bytes>)
    requires FilterOk(f, shards, size)
  {
    forall k :: k in added ==> k in waiting || MayContain(c, f, shards, size, k)
  }

  lemma CoveredGrown(c: Codec, f: Filter, g: Filter, shards: nat, size: nat, added: seq<Bytes>, waiting: seq<Bytes>,
                     next: seq<Bytes>)
    requires FilterOk(f, shards, size) && FilterOk(g, shards, size)
    requires ListGrown(f.address, g.address) && ListGrown(f.spill, g.spill)
    requires Covered(c, f, shards, size, added, waiting)
    requires forall k :: k in waiting ==> k in next || MayContain(c, g, shards, size, k)
    ensures Covered(c, g, shards, size, added, next)
  {
    hide MayContain, ListGrown;
    forall k | k in added ensures k in next || MayContain(c, g, shards, size, k) {
      if k !in waiting { GrownMay(c, f, g, shards, size, k); }
    }
  }

  /** The digest is of the key or of its group's marker, and the group is routed to shard `i`. */
  predicate Routes(c: Codec, key: Bytes, shards: nat, i: nat, d: Digest)
    requires shards > 0
  {
    AddressIndex(c, Group(key), shards) == i && (d == c.sha(key) || d == c.sha(Marker(Group(key))))
  }

  /** The digest is of an added key, or of the marker of an added key's group, routed to shard `i`. */
  ghost predicate AddressItem(c: Codec, added: seq<Bytes>, shards: nat, i: nat, d: Digest)
    requires shards > 0
  {
    exists key :: key in added && Routes(c, key, shards, i, d)
  }

  ghost predicate SpillItem(c: Codec, added: seq<Bytes>, shards: nat, i: nat, d: Digest)
    requires shards > 0
  {
    exists key :: key in added && d == c.sha(key) && SpillIndex(d, shards) == i
  }

  /** Every bit of every shard comes from an added key. */
  ghost predicate Sourced(c: Codec, added: seq<Bytes>, shards: nat, inAddress: seq<set<Digest>>,
                          inSpill: seq<set<Digest>>)
  {
    && shards > 0 && |inAddress| == |inSpill| == shards
    && (forall i, d :: 0 <= i < shards && d in inAddress[i] ==> AddressItem(c, added, shards, i, d))
    && (forall i, d :: 0 <= i < shards && d in inSpill[i] ==> SpillItem(c, added, shards, i, d))
  }

  lemma SourcedMore(c: Codec, added: seq<Bytes>, more: seq<Bytes>, shards: nat, inAddress: seq<set<Digest>>,
                    inSpill: seq<set<Digest>>)
    requires Sourced(c, added, shards, inAddress, inSpill)
    ensures Sourced(c, added + more, shards, inAddress, inSpill)
  {
    hide AddressIndex, SpillIndex, Group, Marker;
    forall i, d | 0 <= i < shards && d in inAddress[i] ensures AddressItem(c, added + more, shards, i, d) {
      assert AddressItem(c, added, shards, i, d);
      var key :| key in added && Routes(c, key, shards, i, d);
      assert key in added + more;
    }
    forall i, d | 0 <= i < shards && d in inSpill[i] ensures SpillItem(c, added + more, shards, i, d) {
      assert SpillItem(c, added, shards, i, d);
      var key :| key in added && d == c.sha(key) && SpillIndex(d, shards) == i;
      assert key in added + more;
    }
  }

  lemma {:induction false} SourcedAddressed(c: Codec, added: seq<Bytes>, shards: nat, inAddress: seq<set<Digest>>,
                                            inSpill: seq<set<Digest>>, index: nat, digests: seq<Digest>)
    requires Sourced(c, added, shards, inAddress, inSpill) && index < shards
    requires forall d :: d in digests ==> AddressItem(c, added, shards, index, d)
    ensures Sourced(c, added, shards, Addressed(inAddress, index, digests), inSpill)
  {
    hide AddressItem, SpillItem;
    if digests != [] {
      assert digests[|digests| - 1] in digests;
      SourcedAddressed(c, added, shards, inAddress, inSpill, index, digests[..|digests| - 1]);
    }
  }

  lemma {:induction false} SourcedSpilled(c: Codec, added: seq<Bytes>, shards: nat, inAddress: seq<set<Digest>>,
                                          inSpill: seq<set<Digest>>, digests: seq<Digest>)
    requires Sourced(c, added, shards, inAddress, inSpill)
    requires forall d :: d in digests ==> SpillItem(c, added, shards, SpillIndex(d, shards), d)
    ensures Sourced(c, added, shards, inAddress, Spilled(inSpill, digests))
  {
    hide AddressItem, SpillItem, SpillIndex;
    if digests != [] {
      assert digests[|digests| - 1] in digests;
      SourcedSpilled(c, added, shards, inAddress, inSpill, digests[..|digests| - 1]);
    }
  }

  // ---------------------------------------------------------------- what the shards hold

  /** The open group, its waiting keys, and the digests put into each shard. */
  datatype Book = Book(group: Bytes, waiting: seq<Bytes>, heavy: bool, inAddress: seq<set<Digest>>,
                       inSpill: seq<set<Digest>>)

  ghost predicate BookOk(k: Book, shards: nat) { |k.inAddress| == |k.inSpill| == shards > 0 }

  /** The group is closed: its waiting keys go to its address shard. */
  ghost function Shelved(c: Codec, k: Book, shards: nat): (next: Book)
    requires BookOk(k, shards)
    ensures BookOk(next, shards)
  {
    var closed := k.(waiting := [], heavy := false);
    if k.heavy || k.waiting == [] then closed
    else closed.(inAddress := Addressed(k.inAddress, AddressIndex(c, k.group, shards), Digests(c, k.waiting)))
  }

  /** The open group has too many keys: its marker goes to its address shard and its keys to the spill shards. */
  ghost function Overflowed(c: Codec, k: Book, shards: nat): (next: Book)
    requires BookOk(k, shards)
    ensures BookOk(next, shards)
  {
    var i := AddressIndex(c, k.group, shards);
    k.(waiting := [], heavy := true, inAddress := k.inAddress[i := k.inAddress[i] + {c.sha(Marker(k.group))}],
       inSpill := Spilled(k.inSpill, Digests(c, k.waiting)))
  }

  ghost function Entered(c: Codec, k: Book, shards: nat, key: Bytes): (next: Book)
    requires BookOk(k, shards)
    ensures BookOk(next, shards)
  {
    var open := if Group(key) == k.group then k else Shelved(c, k, shards).(group := Group(key));
    var d := c.sha(key);
    if open.heavy then
      open.(inSpill := open.inSpill[SpillIndex(d, shards) := open.inSpill[SpillIndex(d, shards)] + {d}])
    else
      var held := open.(waiting := open.waiting + [key]);
      if |held.waiting| > HEAVY_GROUP then Overflowed(c, held, shards) else held
  }

  ghost function Blank(shards: nat): (k: Book)
    requires shards > 0
    ensures BookOk(k, shards)
  {
    Book([], [], false, seq(shards, _ => {}), seq(shards, _ => {}))
  }

  /** The book after adding the keys one by one. */
  ghost function Booked(c: Codec, keys: seq<Bytes>, shards: nat): (k: Book)
    requires shards > 0
    ensures BookOk(k, shards)
  {
    if keys == [] then Blank(shards) else Entered(c, Booked(c, keys[..|keys| - 1], shards), shards, keys[|keys| - 1])
  }

  /** The shards hold exactly what adding these keys puts there. */
  ghost predicate Sums(c: Codec, keys: seq<Bytes>, shards: nat, f: Filter)
  {
    && shards > 0
    && var k := Shelved(c, Booked(c, keys, shards), shards);
       Filled(f.address, k.inAddress) && Filled(f.spill, k.inSpill)
  }

  lemma FilledOne(a: seq<Bytes>, b: seq<Bytes>, items: seq<set<Digest>>, size: nat)
    requires Filled(a, items) && Filled(b, items) && ListOk(a, |items|, size) && ListOk(b, |items|, size)
    ensures a == b
  {
    hide Exactly;
    forall i | 0 <= i < |items| ensures a[i] == b[i] { ExactlyOne(a[i], b[i], items[i]); }
  }

  /** The keys, the shard count and the shard size determine the summary. */
  lemma SumsOne(c: Codec, keys: seq<Bytes>, shards: nat, size: nat, f: Filter, g: Filter)
    requires Sums(c, keys, shards, f) && Sums(c, keys, shards, g)
    requires FilterOk(f, shards, size) && FilterOk(g, shards, size)
    ensures f == g
  {
    hide Filled, Booked, Shelved;
    var k := Shelved(c, Booked(c, keys, shards), shards);
    FilledOne(f.address, g.address, k.inAddress, size);
    FilledOne(f.spill, g.spill, k.inSpill, size);
  }

  class Builder {
    const c: Codec
    const shards: nat
    ghost const size: nat
    var address: seq<Bytes>
    var spill: seq<Bytes>
    var group: Bytes
    var pending: seq<Digest>
    var heavy: bool
    var keys: nat
    /** The keys added so far, and those of the open group that are in no shard yet. */
    ghost var added: seq<Bytes>
    ghost var waiting: seq<Bytes>
    /** What was inserted into each shard. */
    ghost var inAddress: seq<set<Digest>>
    ghost var inSpill: seq<set<Digest>>

    ghost predicate Valid()
      reads this
    {
      && FilterOk(Filter(address, spill), shards, size)
      && Filled(address, inAddress) && Filled(spill, inSpill) && Sourced(c, added, shards, inAddress, inSpill)
      && (forall k :: k in waiting ==> k in added)
      && pending == Digests(c, waiting) && (forall k :: k in waiting ==> Group(k) == group)
      && (heavy ==> pending == [] && Contains(address[AddressIndex(c, group, shards)], c.sha(Marker(group))))
      && Covered(c, Filter(address, spill), shards, size, added, waiting)
    }

    ghost function Books(): Book
      reads this
    {
      Book(group, waiting, heavy, inAddress, inSpill)
    }

    constructor (c: Codec, shards: nat, size: nat)
      requires shards > 0 && size > 0
      ensures Valid() && added == [] && keys == 0 && this.c == c && this.shards == shards && this.size == size
      ensures Books() == Blank(shards)
    {
      this.c, this.shards, this.size := c, shards, size;
      address := seq(shards, _ => seq(size, _ => 0));
      spill := seq(shards, _ => seq(size, _ => 0));
      group, pending, heavy, keys := [], [], false, 0;
      added, waiting := [], [];
      inAddress, inSpill := seq(shards, _ => {}), seq(shards, _ => {});
      new;
      forall i | 0 <= i < shards ensures Exactly(address[i], {}) && Exactly(spill[i], {}) {
        ExactlyNone(address[i]);
        ExactlyNone(spill[i]);
      }
    }

    /** Put the keys of the open group into its address shard, unless it is heavy. */
    method Flush()
      requires Valid()
      modifies this`address, this`pending, this`heavy, this`waiting, this`inAddress
      ensures Valid() && waiting == [] && pending == [] && !heavy
      ensures AllMay(c, Filter(address, spill), shards, size, added)
      ensures BookOk(old(Books()), shards) && Books() == Shelved(c, old(Books()), shards)
    {
      hide Contains, Grown, ListGrown, AddressIndex, MayContain, Filled, Sourced, Marker, Group;
      SourcedLengths(c, added, shards, inAddress, inSpill);
      if !heavy && pending != [] {
        var index := AddressIndex(c, group, shards);
        var next := AddressAll(address, index, pending, size, inAddress);
        forall d | d in pending ensures AddressItem(c, added, shards, index, d) {
          var k :| 0 <= k < |pending| && pending[k] == d;
          assert waiting[k] in waiting;
        }
        SourcedAddressed(c, added, shards, inAddress, inSpill, index, pending);
        inAddress := Addressed(inAddress, index, pending);
        ListGrownSelf(spill);
        forall k | k in waiting ensures MayContain(c, Filter(next, spill), shards, size, k) {
          var i :| 0 <= i < |waiting| && waiting[i] == k;
          assert pending[i] == c.sha(k);
          MayByAddress(c, Filter(next, spill), shards, size, k);
        }
        CoveredGrown(c, Filter(address, spill), Filter(next, spill), shards, size, added, waiting, []);
        address := next;
      } else {
        assert |waiting| == |pending|;
      }
      pending, heavy, waiting := [], false, [];
    }

    /** Add one key. Keys may come in any order and any number. */
    method Add(key: Bytes)
      requires Valid()
      modifies this
      ensures Valid() && added == old(added) + [key] && keys == old(keys) + 1 && group == Group(key)
      ensures heavy <==> group == old(group) && (old(heavy) || |old(pending)| >= HEAVY_GROUP)
      ensures BookOk(old(Books()), shards) && Books() == Entered(c, old(Books()), shards, key)
    {
      hide Contains, Grown, ListGrown, AddressIndex, MayContain, Group, Marker, Filled, Sourced, Covered, AllMay;
      hide Shelved, Overflowed, Digests, FilterOk, SpillIndex;
      SourcedLengths(c, added, shards, inAddress, inSpill);
      keys := keys + 1;
      if Group(key) != group {
        Flush();
        group := Group(key);
      }
      if heavy {
        SpillKey(key);
        return;
      }
      HoldKey(key);
      if |pending| > HEAVY_GROUP {
        TurnHeavy();
      }
    }

    /** A key of a heavy group goes straight to its spill shard. */
    method SpillKey(key: Bytes)
      requires Valid() && heavy && Group(key) == group
      modifies this`spill, this`added, this`inSpill
      ensures Valid() && added == old(added) + [key] && BookOk(old(Books()), shards)
      ensures
        var d := c.sha(key);
        inSpill == old(inSpill)[SpillIndex(d, shards) := old(inSpill)[SpillIndex(d, shards)] + {d}]
    {
      hide Contains, Grown, ListGrown, AddressIndex, MayContain, SpillIndex, Group, Marker, Filled, Sourced, Digests;
      var digest := c.sha(key);
      SourcedLengths(c, added, shards, inAddress, inSpill);
      var next := InsertAt(spill, SpillIndex(digest, shards), digest, size, inSpill);
      KeyJoins(c, added, key, shards, inAddress, inSpill);
      inSpill := inSpill[SpillIndex(digest, shards) := inSpill[SpillIndex(digest, shards)] + {digest}];
      ListGrownSelf(address);
      MayBySpill(c, Filter(address, next), shards, size, key);
      CoveredGrown(c, Filter(address, spill), Filter(address, next), shards, size, added, waiting, waiting);
      spill, added := next, added + [key];
    }

    /** A key of a light group waits until the group closes or grows heavy. */
    method HoldKey(key: Bytes)
      requires Valid() && !heavy && Group(key) == group
      modifies this`pending, this`added, this`waiting
      ensures Valid() && added == old(added) + [key] && pending == old(pending) + [c.sha(key)]
      ensures waiting == old(waiting) + [key]
    {
      hide Contains, AddressIndex, MayContain, Group, Marker, Filled, Sourced;
      SourcedMore(c, added, [key], shards, inAddress, inSpill);
      pending := pending + [c.sha(key)];
      added, waiting := added + [key], waiting + [key];
    }

    /** The open group has become heavy: mark it and move its keys to the spill shards. */
    method TurnHeavy()
      requires Valid()
      requires pending != []
      modifies this`address, this`spill, this`pending, this`heavy, this`waiting, this`inAddress, this`inSpill
      ensures Valid() && heavy && BookOk(old(Books()), shards) && Books() == Overflowed(c, old(Books()), shards)
    {
      hide Contains, Grown, ListGrown, AddressIndex, MayContain, SpillIndex, Group, Marker, Filled, Sourced, Spilled;
      hide Digests, Covered;
      heavy := true;
      FilledLength(address, inAddress);
      FilledLength(spill, inSpill);
      var index := AddressIndex(c, group, shards);
      var marked := InsertAt(address, index, c.sha(Marker(group)), size, inAddress);
      var spilled := SpillAll(spill, pending, size, inSpill);
      HeavySourced(c, added, waiting, group, shards, inAddress, inSpill);
      HeavyMay(c, Filter(marked, spilled), shards, size, group, waiting);
      CoveredGrown(c, Filter(address, spill), Filter(marked, spilled), shards, size, added, waiting, []);
      inAddress := inAddress[index := inAddress[index] + {c.sha(Marker(group))}];
      inSpill := Spilled(inSpill, pending);
      NoDigests(c);
      address, spill, pending, waiting := marked, spilled, [], [];
    }

    /** Close the last group: from now on every added key is granted. */
    method Finish(run: Digest) returns (out: seq<(Path, Bytes)>)
      requires Valid() && shards < 0x1_0000_0000
      modifies this`address, this`pending, this`heavy, this`waiting, this`inAddress
      ensures Valid() && AllMay(c, Filter(address, spill), shards, size, added)
      ensures BookOk(old(Books()), shards) && Books() == Shelved(c, old(Books()), shards)
      ensures |out| == 2 * shards
      ensures forall i :: 0 <= i < shards ==>
                && out[i] == (Path(run, shards, Address, i), EncodeShard(c, run, Address, i, shards, address[i]))
                && out[shards + i] == (Path(run, shards, Spill, i), EncodeShard(c, run, Spill, i, shards, spill[i]))
    {
      hide EncodeShard, Contains, MayContain, Filled, Sourced;
      Flush();
      out := [];
      for i := 0 to shards
        invariant |out| == i
        invariant forall k :: 0 <= k < i ==>
          out[k] == (Path(run, shards, Address, k), EncodeShard(c, run, Address, k, shards, address[k]))
      {
        out := out + [(Path(run, shards, Address, i), EncodeShard(c, run, Address, i, shards, address[i]))];
      }
      for i := 0 to shards
        invariant |out| == shards + i
        invariant forall k :: 0 <= k < shards ==>
          out[k] == (Path(run, shards, Address, k), EncodeShard(c, run, Address, k, shards, address[k]))
        invariant forall k :: 0 <= k < i ==>
          out[shards + k] == (Path(run, shards, Spill, k), EncodeShard(c, run, Spill, k, shards, spill[k]))
      {
        out := out + [(Path(run, shards, Spill, i), EncodeShard(c, run, Spill, i, shards, spill[i]))];
      }
    }
  }

  lemma KeyJoins(c: Codec, added: seq<Bytes>, key: Bytes, shards: nat, inAddress: seq<set<Digest>>,
                 inSpill: seq<set<Digest>>)
    requires Sourced(c, added, shards, inAddress, inSpill)
    ensures
      var d := c.sha(key);
      var i := SpillIndex(d, shards);
      Sourced(c, added + [key], shards, inAddress, inSpill[i := inSpill[i] + {d}])
  {
    hide AddressItem, SpillIndex;
    SourcedMore(c, added, [key], shards, inAddress, inSpill);
    var d := c.sha(key);
    assert key in added + [key];
    assert SpillItem(c, added + [key], shards, SpillIndex(d, shards), d);
    hide SpillItem;
  }

  lemma MarkerSourced(c: Codec, added: seq<Bytes>, waiting: seq<Bytes>, group: Bytes, shards: nat,
                      inAddress: seq<set<Digest>>, inSpill: seq<set<Digest>>)
    requires Sourced(c, added, shards, inAddress, inSpill) && waiting != []
    requires forall k :: k in waiting ==> k in added && Group(k) == group
    ensures
      var i := AddressIndex(c, group, shards);
      Sourced(c, added, shards, inAddress[i := inAddress[i] + {c.sha(Marker(group))}], inSpill)
  {
    hide SpillItem, AddressIndex, Marker, Group;
    assert waiting[0] in waiting;
    assert AddressItem(c, added, shards, AddressIndex(c, group, shards), c.sha(Marker(group)));
    hide AddressItem;
  }

  lemma HeavySourced(c: Codec, added: seq<Bytes>, waiting: seq<Bytes>, group: Bytes, shards: nat,
                     inAddress: seq<set<Digest>>, inSpill: seq<set<Digest>>)
    requires Sourced(c, added, shards, inAddress, inSpill) && waiting != []
    requires forall k :: k in waiting ==> k in added && Group(k) == group
    ensures
      var i := AddressIndex(c, group, shards);
      Sourced(c, added, shards, inAddress[i := inAddress[i] + {c.sha(Marker(group))}],
              Spilled(inSpill, Digests(c, waiting)))
  {
    hide Sourced, AddressIndex, SpillIndex, Marker, Group, Spilled;
    MarkerSourced(c, added, waiting, group, shards, inAddress, inSpill);
    var i, digests := AddressIndex(c, group, shards), Digests(c, waiting);
    forall d | d in digests ensures SpillItem(c, added, shards, SpillIndex(d, shards), d) {
      var k :| 0 <= k < |digests| && digests[k] == d;
      assert waiting[k] in waiting;
    }
    SourcedLengths(c, added, shards, inAddress, inSpill);
    SourcedSpilled(c, added, shards, inAddress[i := inAddress[i] + {c.sha(Marker(group))}], inSpill, digests);
  }

  lemma SourcedLengths(c: Codec, added: seq<Bytes>, shards: nat, inAddress: seq<set<Digest>>, inSpill: seq<set<Digest>>)
    requires Sourced(c, added, shards, inAddress, inSpill)
    ensures |inAddress| == |inSpill| == shards > 0
  {
  }

  lemma HeavyMay(c: Codec, f: Filter, shards: nat, size: nat, group: Bytes, waiting: seq<Bytes>)
    requires FilterOk(f, shards, size)
    requires forall k :: k in waiting ==> Group(k) == group
    requires Contains(f.address[AddressIndex(c, group, shards)], c.sha(Marker(group)))
    requires
      var ds := Digests(c, waiting);
      forall i :: 0 <= i < |ds| ==> Contains(f.spill[SpillIndex(ds[i], shards)], ds[i])
    ensures forall k :: k in waiting ==> MayContain(c, f, shards, size, k)
  {
    hide Contains, AddressIndex, MayContain, SpillIndex, Group, Marker;
    forall k | k in waiting ensures MayContain(c, f, shards, size, k) {
      var i :| 0 <= i < |waiting| && waiting[i] == k;
      assert Digests(c, waiting)[i] == c.sha(k);
      MayBySpill(c, f, shards, size, k);
    }
  }

  lemma NoDigests(c: Codec)
    ensures Digests(c, []) == []
  {
  }

  /** A key is granted only where some added key shares its address shard: nothing else sets a bit there. */
  lemma GrantNeedsNeighbour(c: Codec, f: Filter, shards: nat, size: nat, added: seq<Bytes>,
                            inAddress: seq<set<Digest>>, inSpill: seq<set<Digest>>, key: Bytes)
    requires FilterOk(f, shards, size) && Filled(f.address, inAddress) && Sourced(c, added, shards, inAddress, inSpill)
    requires MayContain(c, f, shards, size, key)
    ensures exists k :: k in added && AddressIndex(c, Group(k), shards) == AddressIndex(c, Group(key), shards)
  {
    hide AddressIndex, SpillIndex, Group, Marker, Exactly;
    var i := AddressIndex(c, Group(key), shards);
    assert Exactly(f.address[i], inAddress[i]);
    var d := if Contains(f.address[i], c.sha(key)) then c.sha(key) else c.sha(Marker(Group(key)));
    var e := Owner(f.address[i], inAddress[i], d);
    assert AddressItem(c, added, shards, i, e);
  }

  lemma MayByAddress(c: Codec, f: Filter, shards: nat, size: nat, key: Bytes)
    requires FilterOk(f, shards, size) && Contains(f.address[AddressIndex(c, Group(key), shards)], c.sha(key))
    ensures MayContain(c, f, shards, size, key)
  {
  }

  lemma MayBySpill(c: Codec, f: Filter, shards: nat, size: nat, key: Bytes)
    requires FilterOk(f, shards, size)
    requires Contains(f.address[AddressIndex(c, Group(key), shards)], c.sha(Marker(Group(key))))
    requires Contains(f.spill[SpillIndex(c.sha(key), shards)], c.sha(key))
    ensures MayContain(c, f, shards, size, key)
  {
  }

  /** A builder for `expected` keys; none is refused while the shard count is not truncated to zero. */
  method NewBuilder(c: Codec, expected: U64) returns (r: Option<Builder>)
    requires expected <= 0x4000_0000_0000
    ensures r.Some? && fresh(r.value) && r.value.Valid() && r.value.added == [] && r.value.keys == 0
    ensures r.value.c == c && r.value.shards == ShardCount(expected) < 0x1_0000_0000
    ensures r.value.size == BytesPerShard(expected, ShardCount(expected)) && r.value.Books() == Blank(r.value.shards)
    ensures HEADER_BYTES + r.value.size + 32 <= MAX_SHARD
  {
    NewFits(expected);
    hide BytesPerShard;
    var shards := ShardCount(expected);
    var bytes := BytesPerShard(expected, shards);
    if HEADER_BYTES + bytes + 32 > MAX_SHARD {
      return None;
    }
    var builder := new Builder(c, shards, bytes);
    return Some(builder);
  }

  // ---------------------------------------------------------------- shard objects

  /** The deterministic place of a shard. */
  datatype Path = Path(run: Digest, shards: nat, kind: Kind, index: nat)

  function KindByte(kind: Kind): Byte { if kind == Address then 0 else 1 }

  function ShardBody(run: Digest, kind: Kind, index: nat, shards: nat, bits: Bytes): Bytes
  {
    SUMMARY_MAGIC + [VERSION] + run + [KindByte(kind)] + BigEndian(index, 4) + BigEndian(shards, 4) + bits
  }

  function EncodeShard(c: Codec, run: Digest, kind: Kind, index: nat, shards: nat, bits: Bytes): Bytes
  {
    ShardBody(run, kind, index, shards, bits) + c.sha(ShardBody(run, kind, index, shards, bits))
  }

  lemma BodyFields(run: Digest, kind: Kind, index: nat, shards: nat, bits: Bytes)
    ensures
      var body := ShardBody(run, kind, index, shards, bits);
      && |body| == HEADER_BYTES + |bits| && body[..4] == SUMMARY_MAGIC && body[4] == VERSION && body[5..37] == run
      && body[37] == KindByte(kind) && body[38..42] == BigEndian(index, 4) && body[42..46] == BigEndian(shards, 4)
      && body[HEADER_BYTES..] == bits
  {
    hide BigEndian;
  }

  lemma BodyWhole(body: Bytes, run: Digest, kind: Kind, index: nat, shards: nat)
    requires |body| > HEADER_BYTES && body[..4] == SUMMARY_MAGIC && body[4] == VERSION && body[5..37] == run
    requires body[37] == KindByte(kind) && body[38..42] == BigEndian(index, 4) && body[42..46] == BigEndian(shards, 4)
    ensures body == ShardBody(run, kind, index, shards, body[HEADER_BYTES..])
  {
    hide BigEndian;
    assert body == body[..4] + [body[4]] + body[5..37] + [body[37]] + body[38..42] + body[42..46] + body[46..];
  }

  /** Decode and bind a shard; exact: it accepts precisely the encodings for this run, kind and index. */
  method DecodeShard(c: Codec, run: Digest, kind: Kind, index: nat, shards: nat, bytes: Bytes)
    returns (r: Result<Bytes>)
    ensures r.Ok? ==>
              r.value != [] && |bytes| <= MAX_SHARD && bytes == EncodeShard(c, run, kind, index, shards, r.value)
    ensures forall bits ::
              bits != [] && |bytes| <= MAX_SHARD && bytes == EncodeShard(c, run, kind, index, shards, bits) ==>
              r == Ok(bits)
  {
    hide BigEndian, ShardBody;
    forall bits | bits != [] && bytes == EncodeShard(c, run, kind, index, shards, bits)
      ensures |bytes| > HEADER_BYTES + 32 && bytes[..|bytes| - 32] == ShardBody(run, kind, index, shards, bits)
      ensures bytes[|bytes| - 32..] == c.sha(bytes[..|bytes| - 32])
    {
      BodyFields(run, kind, index, shards, bits);
    }
    if |bytes| <= HEADER_BYTES + 32 || |bytes| > MAX_SHARD {
      return Err;
    }
    var body := bytes[..|bytes| - 32];
    var check := bytes[|bytes| - 32..];
    forall bits | bits != [] && body == ShardBody(run, kind, index, shards, bits)
      ensures body[..4] == SUMMARY_MAGIC && body[4] == VERSION && body[5..37] == run && body[37] == KindByte(kind)
      ensures body[38..42] == BigEndian(index, 4) && body[42..46] == BigEndian(shards, 4)
      ensures body[HEADER_BYTES..] == bits
    {
      BodyFields(run, kind, index, shards, bits);
    }
    if c.sha(body) != check || body[..4] != SUMMARY_MAGIC || body[4] != VERSION || body[5..37] != run {
      return Err;
    }
    if body[37] != KindByte(kind) || body[38..42] != BigEndian(index, 4) || body[42..46] != BigEndian(shards, 4) {
      return Err;
    }
    BodyWhole(body, run, kind, index, shards);
    return Ok(body[HEADER_BYTES..]);
  }
}
