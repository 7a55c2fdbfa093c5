/**
 The Worker's request reader: GET and byte counters, a shard map that is never evicted,
 and newest-first lookups. Its answers are those of the records; without false positives
 an account-plus-storage read stays within 1 + 2 * runs + 12 GETs.
 */
module Worker {
  import opened Bytes
  import opened Versions
  import opened RunFormat
  import opened FenceIndex
  import opened RunTree
  import opened RunReader
  import opened RunBuilder
  import opened Bloom
  import opened Summary
  import opened Views
  import opened Keys
  import opened StateReads
  import opened ReadCost

  const MAX_GETS := 192
  const MIB := 1024 * 1024
  const MAX_BYTES := 128 * MIB

  function Total(refs: seq<Ref>): nat
  {
    if refs == [] then 0 else Total(refs[..|refs| - 1]) + refs[|refs| - 1].length
  }

  /** The request is well formed and within the limits, so it is charged and issued. */
  predicate Admitted(gets: nat, fetched: nat, asked: seq<Ref>, ref: Ref)
  {
    && 0 < ref.length <= MIB
    && gets + |asked| + 1 <= MAX_GETS && fetched + Total(asked) + ref.length <= MAX_BYTES
  }

  /** The requests of a lookup that were issued: all but a last one that was refused. */
  function Issued(gets: nat, fetched: nat, asked: seq<Ref>): (sent: seq<Ref>)
    ensures |sent| <= |asked| && forall ref :: ref in sent ==> ref in asked
  {
    if asked == [] || Admitted(gets, fetched, asked[..|asked| - 1], asked[|asked| - 1]) then asked
    else asked[..|asked| - 1]
  }

  /** What the fetch of a lookup answers: `object` behind the counters of the request. */
  function Remote(c: Codec, objects: Objects, gets: nat, fetched: nat, asked: seq<Ref>, ref: Ref): Option<Bytes>
  {
    if !Admitted(gets, fetched, asked, ref) then None
    else
      match objects(gets + |asked|, ref)
      case None => None
      case Some(bytes) => if Matches(c, ref, bytes) then Some(bytes) else None
  }

  /** A lookup that answered had every request issued. */
  lemma AllIssued(c: Codec, objects: Objects, gets: nat, fetched: nat, fetch: Fetch, asked: seq<Ref>)
    requires Answered(fetch, asked)
    requires forall asked, ref :: fetch(asked, ref) == Remote(c, objects, gets, fetched, asked, ref)
    ensures Issued(gets, fetched, asked) == asked
  {
    hide Total;
    if asked != [] { assert Remote(c, objects, gets, fetched, asked[..|asked| - 1], asked[|asked| - 1]).Some?; }
  }

  /** At most `n` more GETs, each charged at most one MiB. */
  ghost predicate Spent(g0: nat, f0: nat, g1: nat, f1: nat, n: nat)
  {
    g0 <= g1 <= g0 + n && f0 <= f1 <= f0 + (g1 - g0) * MIB
  }

  /** Every shard that joined the map was one GET, and `fetches` more were made. */
  ghost predicate Paid(g0: nat, known: set<Path>, g1: nat, shards: set<Path>, fetches: nat)
  {
    g1 == g0 + |shards| - |known| + fetches
  }

  lemma UnionOf(known: set<Path>, a: set<Path>, b: set<Path>)
    ensures known + a + b == known + (a + b)
  {
  }

  lemma PaidTwice(g0: nat, k0: set<Path>, g1: nat, k1: set<Path>, g2: nat, k2: set<Path>, m: nat, n: nat)
    requires Paid(g0, k0, g1, k1, m) && Paid(g1, k1, g2, k2, n)
    ensures Paid(g0, k0, g2, k2, m + n)
  {
  }

  /** The budget leaves room for `n` more GETs. */
  ghost predicate Room(gets: nat, fetched: nat, n: nat)
  {
    gets + n <= MAX_GETS && fetched + n * MIB <= MAX_BYTES
  }

  lemma {:induction false} TotalBound(refs: seq<Ref>)
    requires forall ref :: ref in refs ==> ref.length <= MIB
    ensures Total(refs) <= |refs| * MIB
  {
    if refs != [] {
      assert refs[|refs| - 1] in refs;
      TotalBound(refs[..|refs| - 1]);
    }
  }

  lemma RemoteOne(c: Codec, objects: Objects, gets: nat, fetched: nat, asked: seq<Ref>, o: Bytes)
    requires Room(gets, fetched, 3) && Short(asked) && 0 < |o| <= MAX_PAGE && Matches(c, RefOf(c, o), o)
    requires objects(gets + |asked|, RefOf(c, o)) == Some(o)
    ensures Remote(c, objects, gets, fetched, asked, RefOf(c, o)) == Some(o)
  {
    hide RefOf, Matches, Total;
    RefLength(c, o);
    TotalBound(asked);
  }

  /** With room for three GETs, the fetch of a lookup is honest. */
  lemma RemoteHonest(c: Codec, v: View, b: Backing, objects: Objects, gets: nat, fetched: nat, fetch: Fetch)
    requires TreesBack(c, v, b) && Stored(c, b, objects) && Room(gets, fetched, 3)
    requires forall asked, ref :: fetch(asked, ref) == Remote(c, objects, gets, fetched, asked, ref)
    ensures AllHonest(c, b.trees, fetch)
  {
    hide Routed, Sorted, TreeRecords, TreeObject, RefOf, Clean, TreeOk, Matches, Remote, Room, Short, Lossless;
    forall p | 0 <= p < |b.trees| ensures Honest(c, b.trees[p], fetch) {
      assert Roots(c, p, v.indexes[p], b.trees[p]);
      forall asked, o | Short(asked) && TreeObject(c, b.trees[p], o) ensures fetch(asked, RefOf(c, o)) == Some(o) {
        ObjectFits(c, p, b.trees[p], o);
        RemoteOne(c, objects, gets, fetched, asked, o);
      }
    }
  }

  lemma RefLength(c: Codec, o: Bytes)
    requires |o| <= MAX_PAGE
    ensures RefOf(c, o).length == |o|
  {
  }

  /** Every cached shard is the genuine one. */
  ghost predicate Cached(views: seq<View>, bs: seq<Backing>, shards: map<Path, Bytes>)
  {
    |views| == |bs| && forall j :: 0 <= j < |views| ==> CachedRun(views[j], bs[j], shards)
  }

  ghost predicate CachedRun(v: View, b: Backing, shards: map<Path, Bytes>)
  {
    FilterOk(b.filter, v.shards, b.size) ==>
      forall kind, i :: 0 <= i < v.shards && Path(v.run, v.shards, kind, i) in shards ==>
        shards[Path(v.run, v.shards, kind, i)] == Bits(b, kind, i)
  }

  class Reader {
    const c: Codec
    const objects: Objects
    const summaries: Summaries
    const runs: seq<View>
    ghost const backs: seq<Backing>
    var gets: nat
    var fetched: nat
    var shards: map<Path, Bytes>

    ghost predicate Valid()
      reads this
    {
      Backed(c, runs, backs, summaries) && Cached(runs, backs, shards)
    }

    /** A request that has fetched its head. */
    constructor (c: Codec, objects: Objects, summaries: Summaries, runs: seq<View>, ghost backs: seq<Backing>)
      requires Backed(c, runs, backs, summaries)
      ensures Valid() && gets == 1 && fetched == MIB / 4 && shards == map[]
      ensures this.c == c && this.objects == objects && this.summaries == summaries
      ensures this.runs == runs && this.backs == backs
    {
      this.c, this.objects, this.summaries, this.runs, this.backs := c, objects, summaries, runs, backs;
      gets, fetched, shards := 1, MIB / 4, map[];
    }

    /** Charge one GET before it is issued. */
    method Charge(maximum: nat) returns (ok: bool)
      modifies this`gets, this`fetched
      ensures ok <==> old(gets) + 1 <= MAX_GETS && old(fetched) + maximum <= MAX_BYTES
      ensures ok ==> gets == old(gets) + 1 && fetched == old(fetched) + maximum
      ensures !ok ==> gets == old(gets) && fetched == old(fetched)
    {
      if gets + 1 > MAX_GETS || fetched + maximum > MAX_BYTES {
        return false;
      }
      gets, fetched := gets + 1, fetched + maximum;
      return true;
    }

    /** A summary shard, from the map or the store. */
    method Shard(j: nat, kind: Kind, index: nat) returns (r: Result<Bytes>)
      requires Valid() && j < |runs| && index < runs[j].shards
      modifies this`gets, this`fetched, this`shards
      ensures Valid() && Backs(c, runs[j], backs[j])
      ensures r.Ok? ==> r.value == Bits(backs[j], kind, index)
      ensures r.Ok? ==> shards.Keys == old(shards).Keys + {Path(runs[j].run, runs[j].shards, kind, index)}
      ensures r.Err? ==> shards == old(shards)
      ensures r.Ok? ==> Paid(old(gets), old(shards).Keys, gets, shards.Keys, 0)
      ensures Spent(old(gets), old(fetched), gets, fetched,
                if Path(runs[j].run, runs[j].shards, kind, index) in old(shards) then 0 else 1)
      ensures Summarized(runs[j], summaries) && Room(old(gets), old(fetched), 1) ==> r.Ok?
    {
      hide MayContain, EncodeShard, TreesBack, Contains;
      var v := runs[j];
      var path := Path(v.run, v.shards, kind, index);
      assert Backs(c, v, backs[j]);
      assert CachedRun(v, backs[j], shards);
      if path in shards {
        assert shards.Keys == old(shards).Keys + {path};
        return Ok(shards[path]);
      }
      var ok := Charge(MAX_SHARD);
      if !ok {
        return Err;
      }
      var bytes := summaries(gets, path);
      if bytes.None? {
        return Err;
      }
      ghost var bits := Bits(backs[j], kind, index);
      ShardSize(c, v, backs[j], kind, index);
      assert Genuine(c, v, backs[j], summaries);
      assert bytes.value == EncodeShard(c, v.run, kind, index, v.shards, bits);
      r := DecodeShard(c, v.run, kind, index, v.shards, bytes.value);
      if r.Err? {
        return;
      }
      CacheMore(c, runs, backs, summaries, shards, j, kind, index);
      shards := shards[path := r.value];
    }

    /** Whether a run may hold a key: never no for a key it holds. */
    method MayHold(j: nat, key: Bytes) returns (r: Result<bool>)
      requires Valid() && j < |runs|
      modifies this`gets, this`fetched, this`shards
      ensures Valid() && Backs(c, runs[j], backs[j]) && old(shards).Keys <= shards.Keys
      ensures r.Ok? ==> r.value == MayContain(c, backs[j].filter, runs[j].shards, backs[j].size, key)
      ensures r.Ok? ==> shards.Keys == old(shards).Keys + VisitShards(c, runs[j], backs[j], key)
      ensures r.Ok? ==> Paid(old(gets), old(shards).Keys, gets, shards.Keys, 0)
      ensures Spent(old(gets), old(fetched), gets, fetched,
                (if AddressPath(c, runs[j], key) in old(shards) then 0 else 1)
                + (if Marked(c, runs[j], backs[j], key) then 1 else 0))
      ensures Summarized(runs[j], summaries) && Room(old(gets), old(fetched), 2) ==> r.Ok?
    {
      hide Contains, Backs, Backed, Cached, AddressIndex, SpillIndex, Summarized, MayContain, Marked, VisitShards;
      hide Group, Marker, Paid, Spent, Room, FilterOk, EncodeShard;
      var v := runs[j];
      BackedAt(c, runs, backs, summaries, j);
      BackedShards(c, v, backs[j]);
      ProbeCases(c, v, backs[j], key);
      ghost var g0, f0, k0 := gets, fetched, shards.Keys;
      RoomTwice(g0, f0);
      var address := Shard(j, Address, AddressIndex(c, Group(key), v.shards));
      ghost var g1, f1, k1 := gets, fetched, shards.Keys;
      ghost var cold := if AddressPath(c, v, key) in k0 then 0 else 1;
      SpentAtMost(g0, f0, g1, f1, cold, cold + if Marked(c, v, backs[j], key) then 1 else 0);
      if address.Err? {
        return Err;
      }
      if Contains(address.value, c.sha(key)) {
        return Ok(true);
      }
      if !Contains(address.value, c.sha(Marker(Group(key)))) {
        return Ok(false);
      }
      var spill := Shard(j, Spill, SpillIndex(c.sha(key), v.shards));
      SpentMore(g0, f0, g1, f1, gets, fetched, cold, if SpillPath(c, v, key) in k1 then 0 else 1);
      if spill.Err? {
        return Err;
      }
      PaidTwice(g0, k0, g1, k1, gets, shards.Keys, 0, 0);
      UnionOf(k0, {AddressPath(c, v, key)}, {SpillPath(c, v, key)});
      return Ok(Contains(spill.value, c.sha(key)));
    }

    /** Search one run exactly. */
    method SearchRun(j: nat, key: Bytes, block: U64) returns (r: Result<Option<Bytes>>)
      requires Valid() && j < |runs|
      modifies this`gets, this`fetched
      ensures Valid() && j < |backs|
      ensures r.Ok? ==> IsAnswer(Contents(backs[j].records), key, block, r.value)
      ensures Spent(old(gets), old(fetched), gets, fetched, 3)
      ensures r.Ok? ==>
                |backs[j].trees| == PARTITIONS
                && gets == old(gets) + SearchGets(backs[j].trees[Partition(c, key)], key, Clamp(runs[j], block))
      ensures Stored(c, backs[j], objects) && Room(old(gets), old(fetched), 3) ==> r.Ok?
    {
      hide Backed, Cached, Represents, AllHonest, Search, IsAnswer, TreeRecords, Routed, Stored, FilterBacks, Remote;
      hide Partition;
      BackedAt(c, runs, backs, summaries, j);
      var v := runs[j];
      var g, f := gets, fetched;
      var fetch: Fetch := (asked: seq<Ref>, ref: Ref) => Remote(c, objects, g, f, asked, ref);
      if Stored(c, backs[j], objects) && Room(g, f, 3) {
        RemoteHonest(c, v, backs[j], objects, g, f, fetch);
      }
      RunAnswer(c, v, backs[j], key, block);
      BackedTrees(c, v, backs[j]);
      var asked;
      r, asked := RunReader.Lookup(c, v.indexes, key, if block < v.end then block else v.end, fetch, backs[j].trees);
      if r.Ok? { AllIssued(c, objects, g, f, fetch, asked); }
      var sent := Issued(g, f, asked);
      TotalBound(sent);
      gets, fetched := gets + |sent|, fetched + Total(sent);
    }

    /** Probe a started run. */
    method Probe(j: nat, key: Bytes, block: U64, ghost warm: nat, ghost light: bool) returns (r: Result<bool>)
      requires Valid() && j < |runs| && runs[j].start <= block
      requires WarmFrom(c, runs, backs, shards, key, block, j + 1) && WarmFrom(c, runs, backs, shards, key, block, warm)
      requires light ==> AllLight(backs, key)
      modifies this`gets, this`fetched, this`shards
      ensures Valid() && j < |backs| && Backs(c, runs[j], backs[j])
      ensures r.Ok? ==> r.value == MayContain(c, backs[j].filter, runs[j].shards, backs[j].size, key)
      ensures r.Ok? ==>
                WarmFrom(c, runs, backs, shards, key, block, j) && WarmFrom(c, runs, backs, shards, key, block, warm)
      ensures r.Ok? ==> shards.Keys == old(shards).Keys + VisitShards(c, runs[j], backs[j], key)
      ensures r.Ok? ==> Paid(old(gets), old(shards).Keys, gets, shards.Keys, 0)
      ensures Spent(old(gets), old(fetched), gets, fetched, 2)
      ensures AllExact(c, runs, backs, key) ==> Spent(old(gets), old(fetched), gets, fetched, Step(warm, j, light))
      ensures Room(old(gets), old(fetched), 5) ==> Room(gets, fetched, 3)
      ensures Summarized(runs[j], summaries) && Room(old(gets), old(fetched), 5) ==> r.Ok?
    {
      hide Backed, Cached, Summarized, MayContain, Heavy, Marked, WarmFrom, Backs, FilterOk;
      hide AllExact, Paid, VisitShards, AllLight, Spent, Room, AddressPath;
      BackedAt(c, runs, backs, summaries, j);
      BackedShards(c, runs[j], backs[j]);
      ghost var known, g0, f0 := shards, gets, fetched;
      RoomShrinks(g0, f0, 5, 2);
      r := MayHold(j, key);
      MarkedIsHeavy(c, runs, backs, key, j);
      LightAt(backs, key, light, j);
      WarmHit(c, runs, backs, known, key, block, warm, j);
      VisitSpent(g0, f0, gets, fetched, AddressPath(c, runs[j], key) in known, Marked(c, runs[j], backs[j], key),
                 warm, j, light, AllExact(c, runs, backs, key));
      if r.Ok? {
        ProbedShard(c, runs[j], backs[j], key);
        WarmStep(c, runs, backs, known, shards, key, block, j, warm);
      }
    }

    /** Probe one run and search it if it may hold the key. */
    method Visit(j: nat, key: Bytes, block: U64, ghost warm: nat, ghost light: bool)
      returns (r: Result<Option<Bytes>>, ghost searched: bool)
      requires Valid() && j < |runs|
      requires WarmFrom(c, runs, backs, shards, key, block, j + 1) && WarmFrom(c, runs, backs, shards, key, block, warm)
      requires light ==> AllLight(backs, key)
      modifies this`gets, this`fetched, this`shards
      ensures Valid() && j < |backs| && Ready(runs, backs)
      ensures r.Ok? ==> IsAnswer(Contents(backs[j].records), key, block, r.value)
      ensures r.Ok? ==>
                WarmFrom(c, runs, backs, shards, key, block, j) && WarmFrom(c, runs, backs, shards, key, block, warm)
      ensures r.Ok? ==> Visited(c, runs[j], backs[j], key, block, old(gets), old(shards).Keys, gets, shards.Keys)
      ensures Spent(old(gets), old(fetched), gets, fetched, 5)
      ensures r == Ok(None) && searched && AllExact(c, runs, backs, key) ==>
                runs[j].end > block && Below(runs, j, block)
      ensures AllExact(c, runs, backs, key) ==>
                Spent(old(gets), old(fetched), gets, fetched, Step(warm, j, light) + if searched then 3 else 0)
      ensures AllServed(c, runs, backs, objects, summaries) && Room(old(gets), old(fetched), 5) ==> r.Ok?
    {
      hide Backed, Cached, IsAnswer, Stored, Summarized, MayContain, WarmFrom, Backs, FilterOk, VisitGets, Partition;
      hide AllServed, AllExact, Paid, Ready, VisitShards, SearchGets, AllLight, Spent, Room, Below, Invisible;
      hide Visited, Step;
      searched := false;
      BackedReady(c, runs, backs, summaries);
      ghost var g0, f0, k0 := gets, fetched, shards.Keys;
      BackedAt(c, runs, backs, summaries, j);
      BackedShards(c, runs[j], backs[j]);
      BackedTrees(c, runs[j], backs[j]);
      ServedAt(c, runs, backs, objects, summaries, j);
      if runs[j].start > block {
        NotStarted(c, runs[j], backs[j], key, block);
        WarmSkip(c, runs, backs, shards, key, block, j);
        SeenNothing(backs[j], key, block);
        SpentNone(g0, f0, 5);
        SpentNone(g0, f0, Step(warm, j, light));
        VisitSkipped(c, runs[j], backs[j], key, block, g0, k0);
        return Ok(None), searched;
      }
      var may := Probe(j, key, block, warm, light);
      SpentAtMost(g0, f0, gets, fetched, 2, 5);
      if may.Err? {
        return Err, searched;
      }
      if !may.value {
        Denied(c, runs[j], backs[j], key, block);
        SeenNothing(backs[j], key, block);
        VisitDone(c, runs[j], backs[j], key, block, g0, k0, gets, gets, shards.Keys);
        return Ok(None), searched;
      }
      searched := true;
      ghost var g1, f1, k1 := gets, fetched, shards.Keys;
      r := SearchRun(j, key, block);
      SearchSpent(g0, f0, g1, f1, gets, fetched, Step(warm, j, light), AllExact(c, runs, backs, key));
      if r.Ok? {
        VisitDone(c, runs[j], backs[j], key, block, g0, k0, g1, gets, k1);
      }
      if r == Ok(None) && AllExact(c, runs, backs, key) {
        NothingSeen(backs[j], key, block);
        GrantedMiss(c, runs, backs, summaries, j, key, block);
      }
    }

    /**
     Look a key up, newest run first. An answer is the answer over all records. From run
     `stop` on the address shards are in the map afterwards; if those from `warm` on were
     before, and the key's group is `light` in every run, the GETs obey the budget.
     */
    method Lookup(key: Bytes, block: U64, ghost warm: nat, ghost light: bool)
      returns (r: Result<Option<Bytes>>, ghost stop: nat)
      requires Valid() && warm <= |runs| && WarmFrom(c, runs, backs, shards, key, block, warm)
      requires light ==> AllLight(backs, key)
      modifies this`gets, this`fetched, this`shards
      ensures Valid() && stop <= |runs|
      ensures r.Ok? ==> IsAnswer(AllRecords(backs), key, block, r.value)
      ensures r.Ok? ==> WarmFrom(c, runs, backs, shards, key, block, stop)
      ensures AllExact(c, runs, backs, key) ==>
                Spent(old(gets), old(fetched), gets, fetched, Probes(warm, stop, |runs|, light) + 6)
      ensures (AllExact(c, runs, backs, key) && AllServed(c, runs, backs, objects, summaries)
               && Room(old(gets), old(fetched), 2 * |runs| + 6)) ==> r.Ok?
      ensures r.Ok? ==> stop == Stop(backs, key, block)
      ensures r.Ok? ==> LookedUp(c, runs, backs, key, block, old(gets), old(shards).Keys, gets, shards.Keys)
      ensures Spent(old(gets), old(fetched), gets, fetched, 5 * |runs|)
      ensures AllServed(c, runs, backs, objects, summaries) && Room(old(gets), old(fetched), 5 * |runs|) ==> r.Ok?
    {
      hide Backed, Cached, IsAnswer, WarmFrom, AllExact, AllServed, AllRecords, Spent, Room, Probes, Step, Below;
      hide Invisible;
      hide Ready, Lowest, Visited, Tally, LookedUp;
      var j := |runs|;
      stop := j;
      BackedReady(c, runs, backs, summaries);
      ghost var g0, f0, k0 := gets, fetched, shards.Keys;
      NothingPaid(c, runs, backs, key, block, g0, f0, k0);
      ghost var misses := 0;
      WarmNone(c, runs, backs, shards, key, block);
      BackedLength(c, runs, backs, summaries);
      SpentNone(gets, fetched, Probes(warm, j, |runs|, light));
      while j > 0
        invariant Valid() && 0 <= j <= |runs| && stop == j
        invariant WarmFrom(c, runs, backs, shards, key, block, j) && WarmFrom(c, runs, backs, shards, key, block, warm)
        invariant forall k :: j <= k < |backs| ==> Invisible(backs[k], key, block)
        invariant AllExact(c, runs, backs, key) ==> misses <= 1 && (misses == 1 ==> Below(runs, j, block))
        invariant AllExact(c, runs, backs, key) ==>
          Spent(old(gets), old(fetched), gets, fetched, Probes(warm, j, |runs|, light) + 3 * misses)
        invariant Tally(c, runs, backs, key, block, j, g0, f0, k0, gets, fetched, shards.Keys)
      {
        j, stop := j - 1, j - 1;
        ghost var g, f, k := gets, fetched, shards.Keys;
        TallyRoom(c, runs, backs, key, block, j + 1, g0, f0, k0, g, f, k);
        if AllExact(c, runs, backs, key) && Room(old(gets), old(fetched), 2 * |runs| + 6) {
          RoomLeft(old(gets), old(fetched), g, f, warm, j, |runs|, light, misses);
        }
        var found, searched := Visit(j, key, block, warm, light);
        if found.Ok? {
          TallyStep(c, runs, backs, key, block, j, g0, f0, k0, g, f, k, gets, fetched, shards.Keys);
        }
        TallySpent(c, runs, backs, key, block, j + 1, g0, f0, k0, g, f, k, gets, fetched);
        if AllExact(c, runs, backs, key) {
          SpentStep(old(gets), old(fetched), g, f, gets, fetched, warm, j, |runs|, light, misses, searched);
        }
        if found.Err? {
          return Err, stop;
        }
        if found.value.Some? {
          FoundAnswer(c, runs, backs, summaries, j, key, block, found.value.value);
          Seen(backs[j], key, block, found.value.value);
          StopIs(backs, key, block, j + 1, |backs|);
          TallyDone(c, runs, backs, key, block, g0, f0, k0, gets, fetched, shards.Keys);
          return found, stop;
        }
        NothingSeen(backs[j], key, block);
        if AllExact(c, runs, backs, key) {
          OneMiss(runs, j, block, misses, searched);
        }
        if searched { misses := misses + 1; }
      }
      NothingAnswer(backs, key, block);
      StopIs(backs, key, block, 0, |backs|);
      TallyDone(c, runs, backs, key, block, g0, f0, k0, gets, fetched, shards.Keys);
      if AllExact(c, runs, backs, key) {
        SpentAtMost(old(gets), old(fetched), gets, fetched, Probes(warm, 0, |runs|, light) + 3 * misses,
                    Probes(warm, 0, |runs|, light) + 6);
      }
      return Ok(None), 0;
    }

    /** The live account at a block. */
    method AccountAt(address: Hash20, block: U64, ghost read: Lookups)
      returns (r: Result<Option<AccountState>>, ghost stop: nat)
      requires Valid() && AllShaped(backs)
      modifies this`gets, this`fetched, this`shards
      ensures Valid() && stop <= |runs|
      ensures ReadsAs(AllRecords(backs), block, read) && r.Ok? ==> r == LiveAccountOf(read, address)
      ensures r.Ok? ==> WarmFrom(c, runs, backs, shards, AccountKey(address), block, stop)
      ensures AllExact(c, runs, backs, AccountKey(address)) ==>
                Spent(old(gets), old(fetched), gets, fetched, |runs| - stop + 6)
      ensures (ReadsAs(AllRecords(backs), block, read) && AllExact(c, runs, backs, AccountKey(address))
               && AllServed(c, runs, backs, objects, summaries) && Room(old(gets), old(fetched), 2 * |runs| + 6)
               && LiveAccountOf(read, address).Ok?) ==> r.Ok?
      ensures r.Ok? ==>
                LookedUp(c, runs, backs, AccountKey(address), block, old(gets), old(shards).Keys, gets, shards.Keys)
      ensures Spent(old(gets), old(fetched), gets, fetched, 5 * |runs|)
      ensures (ReadsAs(AllRecords(backs), block, read) && AllServed(c, runs, backs, objects, summaries)
               && Room(old(gets), old(fetched), 5 * |runs|) && LiveAccountOf(read, address).Ok?) ==> r.Ok?
    {
      hide Backed, Cached, IsAnswer, WarmFrom, AllExact, AllServed, AllRecords, Room, AllShaped, Spent, ReadsAs;
      hide LookedUp, Stop;
      AllAccountsLight(backs, address);
      WarmNone(c, runs, backs, shards, AccountKey(address), block);
      var found, s := Lookup(AccountKey(address), block, |runs|, true);
      stop := s;
      if found.Err? {
        return Err, stop;
      }
      if ReadsAs(AllRecords(backs), block, read) {
        SameAnswer(AllRecords(backs), block, read, AccountKey(address), found.value);
      }
      if found.value.None? {
        return Ok(None), stop;
      }
      var state := DecodeState(found.value.value);
      if state.Err? {
        return Err, stop;
      }
      return Ok(if state.value.live then Some(state.value) else None), stop;
    }

    /**
     One storage slot at a block. Without false positives about its two keys a cold read
     takes at most 1 + 2 * runs + 12 GETs, and for any valid head it never trips a budget.
     */
    method StorageAt(address: Hash20, slot: Hash32, block: U64, ghost read: Lookups) returns (r: Result<Hash32>)
      requires Valid() && AllShaped(backs)
      modifies this`gets, this`fetched, this`shards
      ensures Valid()
      ensures ReadsAs(AllRecords(backs), block, read) && r.Ok? ==> r == StorageOf(read, address, slot)
      ensures ReadsAs(AllRecords(backs), block, read) && NoChance(c, runs, backs, read, address, slot) ==>
                Spent(old(gets), old(fetched), gets, fetched, 2 * |runs| + 12)
      ensures (ReadsAs(AllRecords(backs), block, read) && NoChance(c, runs, backs, read, address, slot)
               && AllServed(c, runs, backs, objects, summaries) && Room(old(gets), old(fetched), 3 * |runs| + 12)
               && StorageOf(read, address, slot).Ok?) ==> r.Ok?
      ensures Ready(runs, backs) && Spent(old(gets), old(fetched), gets, fetched, 10 * |runs|)
      ensures ReadsAs(AllRecords(backs), block, read) && r.Ok? ==>
                gets == old(gets) + ReadGets(c, runs, backs, AccountKey(address), StorageKeyOf(read, address, slot),
                                             block, old(shards).Keys)
      ensures (ReadsAs(AllRecords(backs), block, read) && AllServed(c, runs, backs, objects, summaries)
               && Room(old(gets), old(fetched), 10 * |runs|) && StorageOf(read, address, slot).Ok?) ==> r.Ok?
    {
      hide Backed, Cached, IsAnswer, WarmFrom, AllExact, AllServed, AllRecords, AllShaped, ReadsAs;
      hide Spent, Room, Probes, LiveAccountOf, StorageKey, Ready, LookedUp, Stop, ReadGets;
      BackedReady(c, runs, backs, summaries);
      ghost var k0 := shards.Keys;
      RoomShrinks(gets, fetched, 10 * |runs|, 5 * |runs|);
      RoomShrinks(gets, fetched, 3 * |runs| + 12, 2 * |runs| + 6);
      ghost var g0, f0 := gets, fetched;
      var account, stop := AccountAt(address, block, read);
      AccountBudget(g0, f0, gets, fetched, |runs|, stop);
      SpentAtMost(g0, f0, gets, fetched, 5 * |runs|, 10 * |runs|);
      if account.Err? {
        return Err;
      }
      OneKey(c, runs, backs, AccountKey(address), block, g0, k0, gets, shards.Keys);
      if account.value.None? {
        return Ok(ZERO32);
      }
      var key := StorageKey(address, account.value.value.incarnation, slot);
      WarmShared(c, runs, backs, shards, address, account.value.value.incarnation, slot, block, stop);
      ghost var g1, f1, k1 := gets, fetched, shards.Keys;
      RoomAfter(g0, f0, g1, f1, |runs|, stop);
      RoomHalf(g0, f0, g1, f1, |runs|);
      var found, low := Lookup(key, block, stop, false);
      StorageBudget(g0, f0, g1, f1, gets, fetched, |runs|, stop, low);
      SpentHalves(g0, f0, g1, f1, gets, fetched, |runs|);
      if found.Err? {
        return Err;
      }
      TwoKeys(c, runs, backs, AccountKey(address), key, block, g0, k0, g1, k1, gets, shards.Keys);
      if ReadsAs(AllRecords(backs), block, read) {
        SameAnswer(AllRecords(backs), block, read, key, found.value);
      }
      if found.value.None? {
        return Ok(ZERO32);
      }
      if |found.value.value| != 32 {
        return Err;
      }
      return Ok(found.value.value);
    }

    /** The code of an account at a block. */
    method CodeAt(address: Hash20, block: U64, keccak: Bytes -> Hash32, ghost read: Lookups) returns (r: Result<Bytes>)
      requires Valid() && AllShaped(backs)
      modifies this`gets, this`fetched, this`shards
      ensures Valid()
      ensures ReadsAs(AllRecords(backs), block, read) && r.Ok? ==> r == CodeOf(read, keccak, MIB, address)
      ensures ReadsAs(AllRecords(backs), block, read) && r.Ok? ==> CodeMeans(read, keccak, address, r.value)
      ensures (ReadsAs(AllRecords(backs), block, read) && NoCodeChance(c, runs, backs, read, address)
               && AllServed(c, runs, backs, objects, summaries) && Room(old(gets), old(fetched), 3 * |runs| + 12)
               && CodeThere(read, keccak, MIB, address)) ==> r.Ok?
      ensures Ready(runs, backs)
      ensures ReadsAs(AllRecords(backs), block, read) && r.Ok? ==>
                gets == old(gets) + ReadGets(c, runs, backs, AccountKey(address), CodeKeyOf(read, keccak, address),
                                             block, old(shards).Keys)
    {
      hide Backed, Cached, IsAnswer, WarmFrom, AllExact, AllServed, AllRecords, AllShaped, ReadsAs, Spent, Room;
      hide LiveAccountOf;
      hide Ready, LookedUp, Stop, ReadGets, CodeKey, Probes, CodeThere, CodeMeans;
      CodeOfIff(read, keccak, MIB, address);
      BackedReady(c, runs, backs, summaries);
      ghost var k0 := shards.Keys;
      RoomShrinks(gets, fetched, 3 * |runs| + 12, 2 * |runs| + 6);
      ghost var g0, f0 := gets, fetched;
      var account, stop := AccountAt(address, block, read);
      RoomAfter(g0, f0, gets, fetched, |runs|, stop);
      if account.Err? {
        return Err;
      }
      OneKey(c, runs, backs, AccountKey(address), block, g0, k0, gets, shards.Keys);
      if account.value.None? {
        return Ok([]);
      }
      var hash := account.value.value.codeHash;
      if hash == keccak([]) {
        return Ok([]);
      }
      WarmNone(c, runs, backs, shards, CodeKey(hash), block);
      ghost var g1, k1 := gets, shards.Keys;
      var found, low := Lookup(CodeKey(hash), block, |runs|, false);
      if found.Err? {
        return Err;
      }
      TwoKeys(c, runs, backs, AccountKey(address), CodeKey(hash), block, g0, k0, g1, k1, gets, shards.Keys);
      if ReadsAs(AllRecords(backs), block, read) {
        SameAnswer(AllRecords(backs), block, read, CodeKey(hash), found.value);
      }
      if found.value.None? {
        return Err;
      }
      if |found.value.value| > MIB || keccak(found.value.value) != hash {
        return Err;
      }
      return Ok(found.value.value);
    }
  }

  lemma RoomShrinks(g: nat, f: nat, n: nat, m: nat)
    requires m <= n
    ensures Room(g, f, n) ==> Room(g, f, m)
  {
  }

  lemma RoomHalf(g0: nat, f0: nat, g1: nat, f1: nat, runs: nat)
    ensures Spent(g0, f0, g1, f1, 5 * runs) && Room(g0, f0, 10 * runs) ==> Room(g1, f1, 5 * runs)
  {
  }

  lemma SpentHalves(g0: nat, f0: nat, g1: nat, f1: nat, g2: nat, f2: nat, runs: nat)
    requires Spent(g0, f0, g1, f1, 5 * runs) && Spent(g1, f1, g2, f2, 5 * runs)
    ensures Spent(g0, f0, g2, f2, 10 * runs)
  {
  }

  lemma OneKey(c: Codec, views: seq<View>, bs: seq<Backing>, key: Bytes, block: int,
               g0: nat, k0: set<Path>, g1: nat, k1: set<Path>)
    requires LookedUp(c, views, bs, key, block, g0, k0, g1, k1)
    ensures Ready(views, bs) && g1 == g0 + ReadGets(c, views, bs, key, None, block, k0)
  {
    hide KeyShards, KeyFetches, Ready;
  }

  lemma TwoKeys(c: Codec, views: seq<View>, bs: seq<Backing>, key: Bytes, second: Bytes, block: int,
                g0: nat, k0: set<Path>, g1: nat, k1: set<Path>, g2: nat, k2: set<Path>)
    requires LookedUp(c, views, bs, key, block, g0, k0, g1, k1) && LookedUp(c, views, bs, second, block, g1, k1, g2, k2)
    ensures Ready(views, bs) && g2 == g0 + ReadGets(c, views, bs, key, Some(second), block, k0)
  {
    hide KeyShards, KeyFetches, Ready;
  }

  lemma AccountBudget(g0: nat, f0: nat, g1: nat, f1: nat, runs: nat, stop: nat)
    requires stop <= runs
    ensures Spent(g0, f0, g1, f1, runs - stop + 6) ==> Spent(g0, f0, g1, f1, 2 * runs + 12)
  {
  }

  lemma RoomAfter(g0: nat, f0: nat, g1: nat, f1: nat, runs: nat, stop: nat)
    requires stop <= runs
    ensures Spent(g0, f0, g1, f1, runs - stop + 6) && Room(g0, f0, 3 * runs + 12) ==> Room(g1, f1, 2 * runs + 6)
  {
  }

  /** What the account read left in the map, the storage read does not fetch again. */
  lemma StorageBudget(g0: nat, f0: nat, g1: nat, f1: nat, g2: nat, f2: nat, runs: nat, stop: nat, low: nat)
    requires stop <= runs && low <= runs
    ensures Spent(g0, f0, g1, f1, runs - stop + 6) && Spent(g1, f1, g2, f2, Probes(stop, low, runs, false) + 6) ==>
              Spent(g0, f0, g2, f2, 2 * runs + 12)
  {
  }

  // ---------------------------------------------------------------- keys of a request

  /** Every key of a run is the key of an account, a slot or a code blob. */
  ghost predicate Shaped(records: seq<Record>)
  {
    forall r :: r in records ==> exists name :: r.key == KeyOf(name)
  }

  ghost predicate AllShaped(bs: seq<Backing>)
  {
    forall j :: 0 <= j < |bs| ==> Shaped(bs[j].records)
  }

  /** The summaries err neither about the account key nor about the storage key a read uses. */
  ghost predicate NoChance(c: Codec, views: seq<View>, bs: seq<Backing>, read: Lookups, address: Hash20, slot: Hash32)
  {
    && AllExact(c, views, bs, AccountKey(address))
    && forall state: AccountState :: LiveAccountOf(read, address) == Ok(Some(state)) ==>
         AllExact(c, views, bs, StorageKey(address, state.incarnation, slot))
  }

  ghost predicate NoCodeChance(c: Codec, views: seq<View>, bs: seq<Backing>, read: Lookups, address: Hash20)
  {
    && AllExact(c, views, bs, AccountKey(address))
    && forall state: AccountState :: LiveAccountOf(read, address) == Ok(Some(state)) ==>
         AllExact(c, views, bs, CodeKey(state.codeHash))
  }

  /** The account group of an address has one key, so it is never heavy. */
  lemma AccountLight(records: seq<Record>, address: Hash20)
    requires Shaped(records)
    ensures !Heavy(records, Group(AccountKey(address)))
  {
    if Heavy(records, Group(AccountKey(address))) {
      var ks: seq<Bytes> :|
        && |ks| > HEAVY_GROUP && (forall i, j :: 0 <= i < j < |ks| ==> ks[i] != ks[j])
        && forall i :: 0 <= i < |ks| ==> HasKey(records, ks[i]) && Group(ks[i]) == Group(AccountKey(address));
      OnlyAccount(records, address, ks[0]);
      OnlyAccount(records, address, ks[1]);
    }
  }

  /** Adding a key never marks a group as heavy: no key is a marker, and each group has its own. */
  lemma MarkersApart(name: Name, group: Bytes, other: Bytes)
    ensures KeyOf(name) != Marker(group)
    ensures Marker(group) == Marker(other) ==> group == other
  {
    assert Marker(group)[0] == 255 && Marker(group)[1..] == group && Marker(other)[1..] == other;
    match name
    case Account(a) => assert AccountKey(a)[0] == 1;
    case Storage(a, i, s) => StorageFields(a, i, s);
    case Code(h) => assert CodeKey(h)[0] == 3;
  }

  lemma OnlyAccount(records: seq<Record>, address: Hash20, key: Bytes)
    requires Shaped(records) && HasKey(records, key) && Group(key) == Group(AccountKey(address))
    ensures key == AccountKey(address)
  {
    hide KeyOf;
    var r :| r in records && r.key == key;
    var name :| r.key == KeyOf(name);
    Tagged(name);
    AccountGroup(address);
    if name.Account? { AccountGroup(name.address); }
  }

  lemma Tagged(name: Name)
    ensures |KeyOf(name)| >= 21 && (KeyOf(name)[0] == 1 <==> name.Account?)
    ensures name.Account? ==> KeyOf(name) == AccountKey(name.address)
  {
    if name.Storage? { StorageFields(name.address, name.incarnation, name.slot); }
  }

  lemma AccountGroup(address: Hash20)
    ensures Group(AccountKey(address)) == AccountKey(address) && AccountKey(address)[0] == 1
  {
  }

  lemma AllAccountsLight(bs: seq<Backing>, address: Hash20)
    requires AllShaped(bs)
    ensures AllLight(bs, AccountKey(address))
  {
    forall j | 0 <= j < |bs| ensures !Heavy(bs[j].records, Group(AccountKey(address))) {
      AccountLight(bs[j].records, address);
    }
  }

  /** Account and storage of an address share the address shard of every run. */
  lemma WarmShared(c: Codec, views: seq<View>, bs: seq<Backing>, shards: map<Path, Bytes>, address: Hash20,
                   incarnation: U64, slot: Hash32, block: int, from: nat)
    requires WarmFrom(c, views, bs, shards, AccountKey(address), block, from)
    ensures WarmFrom(c, views, bs, shards, StorageKey(address, incarnation, slot), block, from)
  {
    var key := StorageKey(address, incarnation, slot);
    StorageFields(address, incarnation, slot);
    assert Route(Group(key)) == address by { assert Group(key)[1..] == key[1..21]; }
    assert Route(Group(AccountKey(address))) == address;
  }

  lemma SpentNone(g: nat, f: nat, n: nat)
    ensures Spent(g, f, g, f, n)
  {
  }

  lemma ProbedShard(c: Codec, v: View, b: Backing, key: Bytes)
    requires FilterOk(b.filter, v.shards, b.size)
    ensures AddressPath(c, v, key) in VisitShards(c, v, b, key)
  {
  }

  /** What a visit of a run put into the map and paid. */
  ghost predicate Visited(c: Codec, v: View, b: Backing, key: Bytes, block: int,
                          g0: nat, k0: set<Path>, g1: nat, k1: set<Path>)
  {
    && FilterOk(b.filter, v.shards, b.size) && |b.trees| == PARTITIONS
    && k1 == k0 + Extra(c, v, b, key, block) && Paid(g0, k0, g1, k1, VisitGets(c, v, b, key, block))
  }

  lemma VisitSkipped(c: Codec, v: View, b: Backing, key: Bytes, block: int, g: nat, k: set<Path>)
    requires Backs(c, v, b) && v.start > block
    ensures Visited(c, v, b, key, block, g, k, g, k)
  {
    hide TreesBack, FilterOk;
    BackedTrees(c, v, b);
    BackedShards(c, v, b);
  }

  lemma VisitDone(c: Codec, v: View, b: Backing, key: Bytes, block: int, g0: nat, k0: set<Path>, g1: nat, g2: nat,
                  k1: set<Path>)
    requires Backs(c, v, b) && v.start <= block && |b.trees| == PARTITIONS && FilterOk(b.filter, v.shards, b.size)
    requires k1 == k0 + VisitShards(c, v, b, key) && Paid(g0, k0, g1, k1, 0)
    requires g2 == g1 + if MayContain(c, b.filter, v.shards, b.size, key)
                        then SearchGets(b.trees[Partition(c, key)], key, Clamp(v, block)) else 0
    ensures Visited(c, v, b, key, block, g0, k0, g2, k1)
  {
    hide Backs, FilterOk, MayContain, VisitShards, SearchGets, Partition;
  }

  lemma ServedAt(c: Codec, views: seq<View>, bs: seq<Backing>, objects: Objects, summaries: Summaries, j: nat)
    requires j < |views| && j < |bs|
    ensures AllServed(c, views, bs, objects, summaries) ==> Stored(c, bs[j], objects) && Summarized(views[j], summaries)
  {
  }

  /** What the probe of a visit took, and the room it leaves for a search. */
  lemma VisitSpent(g0: nat, f0: nat, g1: nat, f1: nat, hit: bool, marked: bool, warm: nat, j: nat, light: bool,
                   exact: bool)
    requires Spent(g0, f0, g1, f1, (if hit then 0 else 1) + (if marked then 1 else 0))
    requires (j >= warm ==> hit) && (exact && light ==> !marked)
    ensures Spent(g0, f0, g1, f1, 2) && Spent(g0, f0, g1, f1, 5)
    ensures exact ==> Spent(g0, f0, g1, f1, Step(warm, j, light))
    ensures Room(g0, f0, 5) ==> Room(g0, f0, 2) && Room(g1, f1, 3)
  {
  }

  lemma SearchSpent(g0: nat, f0: nat, g1: nat, f1: nat, g2: nat, f2: nat, n: nat, exact: bool)
    requires Spent(g0, f0, g1, f1, 2) && (exact ==> Spent(g0, f0, g1, f1, n)) && Spent(g1, f1, g2, f2, 3)
    ensures Spent(g0, f0, g2, f2, 5) && (exact ==> Spent(g0, f0, g2, f2, n + 3))
  {
  }

  // ---------------------------------------------------------------- the tally of a lookup

  /** What a lookup that has visited the runs from `j` on has paid. */
  ghost predicate Tally(c: Codec, views: seq<View>, bs: seq<Backing>, key: Bytes, block: int, j: nat,
                        g0: nat, f0: nat, k0: set<Path>, g1: nat, f1: nat, k1: set<Path>)
  {
    && Ready(views, bs) && j <= |views|
    && k1 == k0 + ShardsFrom(c, views, bs, key, block, j)
    && Paid(g0, k0, g1, k1, Fetches(c, views, bs, key, block, j))
    && Spent(g0, f0, g1, f1, 5 * (|views| - j))
  }

  lemma NothingPaid(c: Codec, views: seq<View>, bs: seq<Backing>, key: Bytes, block: int, g: nat, f: nat, k: set<Path>)
    requires Ready(views, bs)
    ensures Tally(c, views, bs, key, block, |views|, g, f, k, g, f, k)
  {
  }

  lemma TallyStep(c: Codec, views: seq<View>, bs: seq<Backing>, key: Bytes, block: int, j: nat,
                  g0: nat, f0: nat, k0: set<Path>, g1: nat, f1: nat, k1: set<Path>, g2: nat, f2: nat, k2: set<Path>)
    requires Tally(c, views, bs, key, block, j + 1, g0, f0, k0, g1, f1, k1) && j < |views| == |bs|
    requires Visited(c, views[j], bs[j], key, block, g1, k1, g2, k2) && Spent(g1, f1, g2, f2, 5)
    ensures Tally(c, views, bs, key, block, j, g0, f0, k0, g2, f2, k2)
  {
    hide ShardsFrom, Fetches, VisitGets, Paid, Extra, FilterOk;
    PaidTwice(g0, k0, g1, k1, g2, k2, Fetches(c, views, bs, key, block, j + 1),
              VisitGets(c, views[j], bs[j], key, block));
    VisitAdds(c, views, bs, key, block, j);
    UnionOf(k0, ShardsFrom(c, views, bs, key, block, j + 1), Extra(c, views[j], bs[j], key, block));
  }

  /** What a finished lookup of a key has put into the map and paid. */
  ghost predicate LookedUp(c: Codec, views: seq<View>, bs: seq<Backing>, key: Bytes, block: int,
                           g0: nat, k0: set<Path>, g1: nat, k1: set<Path>)
  {
    && Ready(views, bs) && k1 == k0 + KeyShards(c, views, bs, key, block)
    && Paid(g0, k0, g1, k1, KeyFetches(c, views, bs, key, block))
  }

  lemma TallyDone(c: Codec, views: seq<View>, bs: seq<Backing>, key: Bytes, block: int,
                  g0: nat, f0: nat, k0: set<Path>, g1: nat, f1: nat, k1: set<Path>)
    requires Tally(c, views, bs, key, block, Stop(bs, key, block), g0, f0, k0, g1, f1, k1)
    ensures LookedUp(c, views, bs, key, block, g0, k0, g1, k1) && Spent(g0, f0, g1, f1, 5 * |views|)
  {
    hide ShardsFrom, Fetches, Paid, Lowest;
  }

  lemma TallySpent(c: Codec, views: seq<View>, bs: seq<Backing>, key: Bytes, block: int, j: nat,
                   g0: nat, f0: nat, k0: set<Path>, g1: nat, f1: nat, k1: set<Path>, g2: nat, f2: nat)
    requires Tally(c, views, bs, key, block, j, g0, f0, k0, g1, f1, k1) && j > 0 && Spent(g1, f1, g2, f2, 5)
    ensures Spent(g0, f0, g2, f2, 5 * |views|)
  {
    hide Ready, ShardsFrom, Fetches, Paid;
  }

  lemma TallyRoom(c: Codec, views: seq<View>, bs: seq<Backing>, key: Bytes, block: int, j: nat,
                  g0: nat, f0: nat, k0: set<Path>, g1: nat, f1: nat, k1: set<Path>)
    requires Tally(c, views, bs, key, block, j, g0, f0, k0, g1, f1, k1) && j > 0
    ensures Room(g0, f0, 5 * |views|) ==> Room(g1, f1, 5)
  {
    hide Ready, ShardsFrom, Fetches, Paid;
  }

  lemma Seen(b: Backing, key: Bytes, block: int, value: Bytes)
    requires IsAnswer(Contents(b.records), key, block, Some(value))
    ensures !Invisible(b, key, block)
  {
  }

  lemma SpentMore(g0: nat, f0: nat, g1: nat, f1: nat, g2: nat, f2: nat, n: nat, m: nat)
    requires Spent(g0, f0, g1, f1, n) && Spent(g1, f1, g2, f2, m) && m <= 1
    ensures Spent(g0, f0, g2, f2, n + 1)
  {
  }

  lemma RoomTwice(g0: nat, f0: nat)
    ensures Room(g0, f0, 2) ==> Room(g0, f0, 1)
    ensures forall g1: nat, f1: nat, n: nat :: n <= 1 && Spent(g0, f0, g1, f1, n) && Room(g0, f0, 2) ==> Room(g1, f1, 1)
  {
  }

  lemma SpentAtMost(g0: nat, f0: nat, g1: nat, f1: nat, n: nat, m: nat)
    requires Spent(g0, f0, g1, f1, n) && n <= m
    ensures Spent(g0, f0, g1, f1, m)
  {
  }

  lemma SpentStep(g0: nat, f0: nat, g1: nat, f1: nat, g2: nat, f2: nat, warm: nat, j: nat, runs: nat, light: bool,
                  misses: nat, searched: bool)
    requires j < runs && misses <= 1 && Spent(g0, f0, g1, f1, Probes(warm, j + 1, runs, light) + 3 * misses)
    requires Spent(g1, f1, g2, f2, Step(warm, j, light) + if searched then 3 else 0)
    ensures Spent(g0, f0, g2, f2, Probes(warm, j, runs, light) + 3 * (misses + if searched then 1 else 0))
    ensures Spent(g0, f0, g2, f2, Probes(warm, j, runs, light) + 6)
  {
  }

  lemma RoomLeft(g0: nat, f0: nat, g1: nat, f1: nat, warm: nat, j: nat, runs: nat, light: bool, misses: nat)
    requires j < runs && misses <= 1 && warm <= runs && Room(g0, f0, 2 * runs + 6)
    requires Spent(g0, f0, g1, f1, Probes(warm, j + 1, runs, light) + 3 * misses)
    ensures Room(g1, f1, 5)
  {
  }

  lemma OneMiss(views: seq<View>, j: nat, block: int, misses: nat, searched: bool)
    requires j < |views| && misses <= 1 && (misses == 1 ==> Below(views, j + 1, block))
    requires searched ==> views[j].end > block && Below(views, j, block)
    ensures misses + (if searched then 1 else 0) <= 1
    ensures misses + (if searched then 1 else 0) == 1 ==> Below(views, j, block)
  {
  }

  /** Shard GETs of one visit. */
  function Step(warm: nat, j: nat, light: bool): nat
  {
    (if j < warm then 1 else 0) + (if light then 0 else 1)
  }

  /** The key's group is light in every run. */
  ghost predicate AllLight(bs: seq<Backing>, key: Bytes)
  {
    forall j :: 0 <= j < |bs| ==> !Heavy(bs[j].records, Group(key))
  }

  lemma LightAt(bs: seq<Backing>, key: Bytes, light: bool, j: nat)
    requires j < |bs| && (light ==> AllLight(bs, key))
    ensures light ==> !Heavy(bs[j].records, Group(key))
  {
  }

  lemma BackedLength(c: Codec, views: seq<View>, bs: seq<Backing>, summaries: Summaries)
    requires Backed(c, views, bs, summaries)
    ensures |views| == |bs|
  {
  }

  /** How the two shards of a probe decide it. */
  lemma ProbeCases(c: Codec, v: View, b: Backing, key: Bytes)
    requires FilterOk(b.filter, v.shards, b.size)
    ensures
      var address := Bits(b, Address, AddressIndex(c, Group(key), v.shards));
      var spill := Bits(b, Spill, SpillIndex(c.sha(key), v.shards));
      && address != [] && spill != []
      && (Marked(c, v, b, key) <==> Contains(address, c.sha(Marker(Group(key)))))
      && (if Contains(address, c.sha(key)) then
            MayContain(c, b.filter, v.shards, b.size, key) && VisitShards(c, v, b, key) == {AddressPath(c, v, key)}
          else if !Marked(c, v, b, key) then
            !MayContain(c, b.filter, v.shards, b.size, key) && VisitShards(c, v, b, key) == {AddressPath(c, v, key)}
          else
            && (MayContain(c, b.filter, v.shards, b.size, key) <==> Contains(spill, c.sha(key)))
            && VisitShards(c, v, b, key) == {AddressPath(c, v, key)} + {SpillPath(c, v, key)})
  {
    hide Contains, AddressIndex, SpillIndex, Group, Marker;
  }

  lemma BackedShards(c: Codec, v: View, b: Backing)
    requires Backs(c, v, b)
    ensures v.shards > 0 && FilterOk(b.filter, v.shards, b.size)
  {
  }

  lemma SeenNothing(b: Backing, key: Bytes, block: int)
    requires Invisible(b, key, block)
    ensures IsAnswer(Contents(b.records), key, block, None)
  {
  }

  /** The address shards of runs `from` and later that start by `block` are in the map. */
  ghost predicate WarmFrom(c: Codec, views: seq<View>, bs: seq<Backing>, shards: map<Path, Bytes>, key: Bytes,
                           block: int, from: nat)
  {
    forall j :: from <= j < |views| && views[j].start <= block && views[j].shards > 0 ==>
      AddressPath(c, views[j], key) in shards
  }

  lemma WarmNone(c: Codec, views: seq<View>, bs: seq<Backing>, shards: map<Path, Bytes>, key: Bytes, block: int)
    ensures WarmFrom(c, views, bs, shards, key, block, |views|)
  {
  }

  lemma WarmSkip(c: Codec, views: seq<View>, bs: seq<Backing>, shards: map<Path, Bytes>, key: Bytes, block: int, j: nat)
    requires j < |views| && views[j].start > block && WarmFrom(c, views, bs, shards, key, block, j + 1)
    ensures WarmFrom(c, views, bs, shards, key, block, j)
  {
  }

  lemma WarmHit(c: Codec, views: seq<View>, bs: seq<Backing>, shards: map<Path, Bytes>, key: Bytes, block: int,
                warm: nat, j: nat)
    requires j < |views| && views[j].start <= block && views[j].shards > 0
    requires WarmFrom(c, views, bs, shards, key, block, warm)
    ensures j >= warm ==> AddressPath(c, views[j], key) in shards
  {
  }

  lemma WarmStep(c: Codec, views: seq<View>, bs: seq<Backing>, known: map<Path, Bytes>, shards: map<Path, Bytes>,
                 key: Bytes, block: int, j: nat, warm: nat)
    requires j < |views| && known.Keys <= shards.Keys
    requires views[j].shards > 0 ==> AddressPath(c, views[j], key) in shards
    requires WarmFrom(c, views, bs, known, key, block, j + 1) && WarmFrom(c, views, bs, known, key, block, warm)
    ensures WarmFrom(c, views, bs, shards, key, block, j) && WarmFrom(c, views, bs, shards, key, block, warm)
  {
    assert forall p :: p in known ==> p in shards.Keys;
  }

  lemma NotStarted(c: Codec, v: View, b: Backing, key: Bytes, block: int)
    requires Backs(c, v, b) && v.start > block
    ensures Invisible(b, key, block)
  {
    hide FilterBacks, Represents, Routed, Sorted;
  }

  /** A denied key is not in the run. */
  lemma Denied(c: Codec, v: View, b: Backing, key: Bytes, block: int)
    requires Backs(c, v, b) && !MayContain(c, b.filter, v.shards, b.size, key)
    ensures Invisible(b, key, block)
  {
    hide TreesBack;
  }

  lemma NothingSeen(b: Backing, key: Bytes, block: int)
    requires IsAnswer(Contents(b.records), key, block, None)
    ensures Invisible(b, key, block)
  {
    assert forall r :: r in b.records ==> r in Contents(b.records);
  }

  lemma MarkedIsHeavy(c: Codec, views: seq<View>, bs: seq<Backing>, key: Bytes, j: nat)
    requires j < |views| && j < |bs| && FilterOk(bs[j].filter, views[j].shards, bs[j].size)
    ensures AllExact(c, views, bs, key) && Marked(c, views[j], bs[j], key) ==> Heavy(bs[j].records, Group(key))
  {
    hide Heavy, MayContain;
    assert AllExact(c, views, bs, key) ==> Exact(c, views[j], bs[j], key);
  }

  /** Without false positives only the straddling run can be searched in vain. */
  lemma GrantedMiss(c: Codec, views: seq<View>, bs: seq<Backing>, summaries: Summaries, j: nat, key: Bytes, block: int)
    requires Backed(c, views, bs, summaries) && AllExact(c, views, bs, key) && j < |views|
    requires MayContain(c, bs[j].filter, views[j].shards, bs[j].size, key) && Invisible(bs[j], key, block)
    requires views[j].start <= block
    ensures views[j].end > block && Below(views, j, block)
  {
    hide Heavy, MayContain, Invisible;
    assert Backs(c, views[j], bs[j]) && Exact(c, views[j], bs[j], key);
    MissStraddles(c, views[j], bs[j], key, block);
  }

  ghost predicate AllExact(c: Codec, views: seq<View>, bs: seq<Backing>, key: Bytes)
  {
    && |views| == |bs|
    && forall j :: 0 <= j < |views| ==>
         FilterOk(bs[j].filter, views[j].shards, bs[j].size) && Exact(c, views[j], bs[j], key)
  }

  ghost predicate AllServed(c: Codec, views: seq<View>, bs: seq<Backing>, objects: Objects, summaries: Summaries)
  {
    && |views| == |bs|
    && forall j :: 0 <= j < |views| ==> Stored(c, bs[j], objects) && Summarized(views[j], summaries)
  }

  /** Shard GETs of a lookup that went down to run `stop`. */
  function Probes(warm: nat, stop: nat, runs: nat, light: bool): nat
    requires stop <= runs
  {
    (if stop < warm then warm - stop else 0) + (if light then 0 else runs - stop)
  }

  /** Every run before `j` ends by `block`. */
  ghost predicate Below(views: seq<View>, j: nat, block: int)
  {
    forall k :: 0 <= k < j && k < |views| ==> views[k].end <= block
  }

  lemma BackedAt(c: Codec, views: seq<View>, bs: seq<Backing>, summaries: Summaries, j: nat)
    requires Backed(c, views, bs, summaries) && j < |views|
    ensures j < |bs| && Backs(c, views[j], bs[j])
  {
  }

  lemma ShardSize(c: Codec, v: View, b: Backing, kind: Kind, i: nat)
    requires FilterBacks(c, v, b) && i < v.shards
    ensures Bits(b, kind, i) != [] && |EncodeShard(c, v.run, kind, i, v.shards, Bits(b, kind, i))| <= MAX_SHARD
  {
    hide MayContain;
    BodyFields(v.run, kind, i, v.shards, Bits(b, kind, i));
  }

  /** Caching a genuine shard keeps the map right even where two views share a path. */
  lemma CacheMore(c: Codec, views: seq<View>, bs: seq<Backing>, summaries: Summaries, shards: map<Path, Bytes>,
                  j: nat, kind: Kind, index: nat)
    requires Backed(c, views, bs, summaries) && Cached(views, bs, shards) && j < |views| && index < views[j].shards
    requires exists t :: summaries(t, Path(views[j].run, views[j].shards, kind, index)).Some?
    ensures FilterOk(bs[j].filter, views[j].shards, bs[j].size)
    ensures Cached(views, bs, shards[Path(views[j].run, views[j].shards, kind, index) := Bits(bs[j], kind, index)])
  {
    hide MayContain, EncodeShard, TreesBack;
    var path := Path(views[j].run, views[j].shards, kind, index);
    var t :| summaries(t, path).Some?;
    assert Backs(c, views[j], bs[j]) && Genuine(c, views[j], bs[j], summaries);
    var next := shards[path := Bits(bs[j], kind, index)];
    forall k | 0 <= k < |views| ensures CachedRun(views[k], bs[k], next) {
      assert Backs(c, views[k], bs[k]) && Genuine(c, views[k], bs[k], summaries) && CachedRun(views[k], bs[k], shards);
      if views[k].run == views[j].run && views[k].shards == views[j].shards {
        ShardInjective(c, views[j], kind, index, Bits(bs[j], kind, index), Bits(bs[k], kind, index));
      }
    }
  }

  lemma ShardInjective(c: Codec, v: View, kind: Kind, i: nat, a: Bytes, b: Bytes)
    requires EncodeShard(c, v.run, kind, i, v.shards, a) == EncodeShard(c, v.run, kind, i, v.shards, b)
    ensures a == b
  {
    hide ShardBody;
    BodyFields(v.run, kind, i, v.shards, a);
    BodyFields(v.run, kind, i, v.shards, b);
    var bytes := EncodeShard(c, v.run, kind, i, v.shards, a);
    assert bytes[..|bytes| - 32] == ShardBody(v.run, kind, i, v.shards, a);
    assert bytes[..|bytes| - 32] == ShardBody(v.run, kind, i, v.shards, b);
  }
}
