/**
 A history that cannot be carried out. Four packages write the same keys and are compacted;
 four packages without events follow and are compacted into that run. The second merge has
 the records, and so the root, of the first, but expects a quarter of its keys: its shards
 have the paths of the first ones and another size, and the store refuses them.
 */
module RepeatedRun {
  import opened Bytes
  import opened Versions
  import opened Head
  import opened Ledger
  import opened History
  import opened Commits
  import opened StoredRuns
  import opened StoredHistory
  import Merge
  import RunFormat
  import Summary

  // ---------------------------------------------------------------- the packages

  /** Keys in order, so many that four times as many need larger shards, but no more of them. */
  ghost predicate Suitable(keys: seq<Bytes>)
  {
    && 17 <= |keys| <= 8192 && (forall i :: 0 <= i < |keys| ==> keys[i] != [])
    && forall i, j :: 0 <= i < j < |keys| ==> Less(keys[i], keys[j])
  }

  /** Every key written at one block. */
  function Touch(keys: seq<Bytes>, block: U64): (rs: seq<Record>)
    ensures |rs| == |keys| && forall i :: 0 <= i < |keys| ==> rs[i] == Record(keys[i], block, [])
  {
    seq(|keys|, i requires 0 <= i < |keys| => Record(keys[i], block, []))
  }

  /** One block each; only the first four write anything. */
  function Pack(keys: seq<Bytes>, n: U64): (p: Package)
    ensures p.blocks != []
  {
    Package(if n == 0 then Anchor else Delta, ZERO_HASH, [Block(n, ZERO_HASH, ZERO_HASH, ZERO_HASH)],
            if n == 0 then None else Some((n - 1, ZERO_HASH)), ZERO_HASH, if n < 4 then Touch(keys, n) else [])
  }

  lemma PackIs(keys: seq<Bytes>, n: U64)
    requires Suitable(keys)
    ensures Publishable(Pack(keys, n)) && NewRun(Pack(keys, n)) == Run(n, n, 1, if n < 4 then Touch(keys, n) else [])
  {
  }

  // ---------------------------------------------------------------- the commits

  /** The head names block `n - 1`, or there is none yet. */
  ghost predicate Upto(log: seq<Commit>, n: nat)
  {
    && Log(log) && (log == [] <==> n == 0)
    && (log != [] ==> var h := log[|log| - 1].head; h.genesis == h.hash == ZERO_HASH && h.number == n - 1)
  }

  function BacklogOf(log: seq<Commit>): seq<Run> { if log == [] then [] else log[|log| - 1].head.l0 }

  function LevelsOf(log: seq<Commit>): seq<Option<Run>> { if log == [] then [] else log[|log| - 1].head.levels }

  lemma AppendOne(log: seq<Commit>, keys: seq<Bytes>, n: U64) returns (c: Commit)
    requires Suitable(keys) && Upto(log, n) && |BacklogOf(log)| < MAX_L0_BACKLOG
    ensures Upto(log + [c], n + 1) && BacklogOf(log + [c]) == BacklogOf(log) + [NewRun(Pack(keys, n))]
    ensures LevelsOf(log + [c]) == LevelsOf(log) && c == Appended(c.head, Pack(keys, n))
  {
    hide Commits.Commits, Append, Pack, NewRun, Log;
    c := Appended(Append(Current(log), Pack(keys, n)), Pack(keys, n));
    Appends(log, keys, n);
    LogMore(log, c);
  }

  lemma Appends(log: seq<Commit>, keys: seq<Bytes>, n: U64)
    requires Suitable(keys) && Upto(log, n) && |BacklogOf(log)| < MAX_L0_BACKLOG
    ensures
      var p := Pack(keys, n);
      var head := Append(Current(log), p);
      && Commits.Commits(Current(log), Appended(head, p)) && head.genesis == head.hash == ZERO_HASH && head.number == n
      && head.l0 == BacklogOf(log) + [NewRun(p)] && head.levels == LevelsOf(log)
  {
    hide Publishable, NewRun, Log;
    PackIs(keys, n);
  }

  lemma LogMore(log: seq<Commit>, c: Commit)
    requires Log(log) && Commits.Commits(Current(log), c)
    ensures Log(log + [c])
  {
    hide Commits.Commits;
    assert (log + [c])[..|log|] == log;
  }

  /** Four packages in a row. */
  lemma AppendFour(log: seq<Commit>, keys: seq<Bytes>, n: U64) returns (out: seq<Commit>)
    requires Suitable(keys) && Upto(log, n) && BacklogOf(log) == [] && n < 100
    ensures |out| == |log| + 4 && out[..|log|] == log && Upto(out, n + 4) && LevelsOf(out) == LevelsOf(log)
    ensures BacklogOf(out) == [NewRun(Pack(keys, n)), NewRun(Pack(keys, n + 1)), NewRun(Pack(keys, n + 2)),
                               NewRun(Pack(keys, n + 3))]
  {
    hide Upto, NewRun, Pack, BacklogOf, LevelsOf;
    var a := AppendOne(log, keys, n);
    var b := AppendOne(log + [a], keys, n + 1);
    var c := AppendOne(log + [a] + [b], keys, n + 2);
    var d := AppendOne(log + [a] + [b] + [c], keys, n + 3);
    out := log + [a] + [b] + [c] + [d];
  }

  /** Few levels are never full. */
  lemma NotFull(levels: seq<Option<Run>>)
    requires |levels| <= 1
    ensures !AllSevens(Slots(levels), 0)
  {
    assert Digit(Slots(levels)[7], 0 + 7) == 0;
  }

  lemma CompactOne(log: seq<Commit>) returns (c: Commit)
    requires Log(log) && |BacklogOf(log)| == L0_TRIGGER && |LevelsOf(log)| <= 1
    ensures Log(log + [c]) && c.Compacted? && BacklogOf(log + [c]) == []
    ensures Some(LevelsOf(log + [c])) == NewLevels(LevelsOf(log), BacklogOf(log))
    ensures
      var h := c.head;
      h.number == log[|log| - 1].head.number && h.hash == log[|log| - 1].head.hash
      && h.genesis == log[|log| - 1].head.genesis
  {
    hide NewLevels, HeadOk, Slots;
    var h := log[|log| - 1].head;
    LogHeadOk(log);
    NotFull(h.levels);
    CompactionRefusedOnlyWhenFull(h, Packages(log));
    assert h.l0[..L0_TRIGGER] == h.l0;
    c := Compacted(Compact(h, NewLevels(h.levels, h.l0[..L0_TRIGGER]).value));
    LogMore(log, c);
  }

  // ---------------------------------------------------------------- the merges

  lemma LevelZero(levels: seq<Option<Run>>)
    requires |levels| <= 1 && (levels != [] ==> levels[0].Some? && levels[0].value.weight == 4)
    ensures CascadeOf(levels) == Lands(0, if levels == [] then 4 else 8)
    ensures Absorbed(levels, 0) == if levels == [] then [] else [levels[0].value]
  {
    var slots := Slots(levels);
    assert Unit(0) == 4;
    assert slots[..1] == [slots[0]] && [slots[0]][1..] == [];
    assert LevelRuns([slots[0]][1..]) == [];
  }

  lemma OneLevel(levels: seq<Option<Run>>, run: Run)
    requires |levels| <= 1
    ensures Trim(Replace(levels, 0, run)) == [Some(run)]
  {
    assert Replace(levels, 0, run) == [Some(run)];
  }

  /** What a compaction of such a head merges, and leaves. */
  lemma Merges(h: Head, levels: seq<Option<Run>>)
    requires |h.l0| == L0_TRIGGER && |h.levels| <= 1
    requires h.levels != [] ==> h.levels[0].Some? && h.levels[0].value.weight == 4
    requires NewLevels(h.levels, h.l0[..L0_TRIGGER]) == Some(levels)
    ensures Merged(h) == (if h.levels == [] then [] else [h.levels[0].value]) + h.l0
    ensures levels == [Some(MergedRun(Merged(h), if h.levels == [] then 4 else 8))]
  {
    hide CascadeFrom, Absorbed, Merge.Disjoint, Merge.MergeAll, Adjacent, Trim, Replace;
    LevelZero(h.levels);
    assert h.l0[..L0_TRIGGER] == h.l0;
    OneLevel(h.levels, MergedRun(Merged(h), if h.levels == [] then 4 else 8));
  }

  lemma {:induction false} EmptyTail(rs: seq<Record>, n: nat)
    ensures Merge.MergeAll(seq(n, _ => [])) == []
    ensures Merge.MergeAll([rs] + seq(n, _ => [])) == rs
    decreases n
  {
    var none := seq(n, _ => []);
    if n > 0 {
      EmptyTail(rs, n - 1);
      assert none[1..] == seq(n - 1, _ => []);
    }
    assert ([rs] + none)[1..] == none;
  }

  // ---------------------------------------------------------------- how many keys are expected

  ghost predicate Different(keys: seq<Bytes>) { forall i, j :: 0 <= i < j < |keys| ==> keys[i] != keys[j] }

  ghost function Members(keys: seq<Bytes>): set<Bytes> { set k | k in keys }

  lemma {:induction false} CountMembers(keys: seq<Bytes>)
    requires Different(keys)
    ensures |Members(keys)| == |keys|
  {
    if keys != [] {
      var init, last := keys[..|keys| - 1], keys[|keys| - 1];
      CountMembers(init);
      assert keys == init + [last];
      assert forall i :: 0 <= i < |init| ==> init[i] == keys[i] != last;
      assert Members(keys) == Members(init) + {last};
    }
  }

  /** In sorted records, equal keys stand together. */
  lemma {:induction false} KeysDiffer(rs: seq<Record>)
    requires Sorted(rs)
    ensures Different(Merge.DistinctKeys(rs))
    ensures forall k :: k in Merge.DistinctKeys(rs) ==> exists i :: 0 <= i < |rs| && rs[i].key == k
  {
    if rs != [] {
      var n := |rs| - 1;
      var init := rs[..n];
      KeysDiffer(init);
      var before, key := Merge.DistinctKeys(init), rs[n].key;
      if !(|rs| > 1 && rs[n - 1].key == key) && key in before {
        var i :| 0 <= i < n && rs[i].key == key;
        Between(rs, i);
      }
      forall k | k in Merge.DistinctKeys(rs) ensures exists i :: 0 <= i < |rs| && rs[i].key == k {
        if k in before {
          var i :| 0 <= i < |init| && init[i].key == k;
          assert rs[i].key == k;
        }
      }
    }
  }

  lemma Between(rs: seq<Record>, i: nat)
    requires Sorted(rs) && i < |rs| - 1 && rs[i].key == rs[|rs| - 1].key
    ensures rs[|rs| - 2].key == rs[|rs| - 1].key
  {
    var n := |rs| - 1;
    if i < n - 1 {
      assert Before(At(rs[i]), At(rs[n - 1])) && Before(At(rs[n - 1]), At(rs[n]));
      if rs[n - 1].key != rs[n].key {
        LessTransitive(rs[i].key, rs[n - 1].key, rs[n].key);
        LessIrreflexive(rs[i].key);
      }
    }
  }

  /** Sorted records over exactly these keys have so many distinct ones. */
  lemma CountKeys(rs: seq<Record>, keys: seq<Bytes>)
    requires Sorted(rs) && Different(keys)
    requires forall k :: k in keys <==> exists r :: r in rs && r.key == k
    ensures |Merge.DistinctKeys(rs)| == |keys|
  {
    hide Sorted;
    KeysDiffer(rs);
    Merge.DistinctKeysCover(rs);
    assert Members(Merge.DistinctKeys(rs)) == Members(keys);
    CountMembers(Merge.DistinctKeys(rs));
    CountMembers(keys);
  }

  lemma SuitableDiffer(keys: seq<Bytes>)
    requires Suitable(keys)
    ensures Different(keys)
  {
    forall i, j | 0 <= i < j < |keys| ensures keys[i] != keys[j] { LessIrreflexive(keys[i]); }
  }

  lemma TouchKeys(keys: seq<Bytes>, block: U64)
    requires Suitable(keys)
    ensures Sorted(Touch(keys, block)) && |Merge.DistinctKeys(Touch(keys, block))| == |keys|
  {
    var rs := Touch(keys, block);
    SuitableDiffer(keys);
    forall k ensures k in keys <==> exists r :: r in rs && r.key == k {
      if k in keys {
        var i :| 0 <= i < |keys| && keys[i] == k;
        assert rs[i] in rs;
      }
    }
    CountKeys(rs, keys);
  }

  lemma NoKeys()
    ensures Merge.DistinctKeys([]) == []
  {
  }

  lemma TotalFive(a: seq<Record>, b: seq<Record>, c: seq<Record>, d: seq<Record>, e: seq<Record>)
    ensures KeyTotal([a, b, c, d]) == |Merge.DistinctKeys(a)| + |Merge.DistinctKeys(b)| + |Merge.DistinctKeys(c)|
                                      + |Merge.DistinctKeys(d)|
    ensures KeyTotal([e, a, b, c, d]) == |Merge.DistinctKeys(e)| + KeyTotal([a, b, c, d])
  {
    hide Merge.DistinctKeys;
    assert [a, b, c, d][1..] == [b, c, d] && [b, c, d][1..] == [c, d] && [c, d][1..] == [d] && [d][1..] == [];
    assert [e, a, b, c, d][1..] == [a, b, c, d] && KeyTotal([]) == 0;
    assert KeyTotal([d]) == |Merge.DistinctKeys(d)| && KeyTotal([c, d]) == |Merge.DistinctKeys(c)| + KeyTotal([d]);
  }

  /** Four times as many keys fit as many shards, of another size. */
  lemma SizedAnew(n: nat)
    requires 17 <= n <= 8192
    ensures Resized(4 * n, n)
  {
    assert Summary.DivCeil(4 * n, Summary.SHARD_KEYS) == 1 && Summary.DivCeil(n, Summary.SHARD_KEYS) == 1;
    assert Summary.ShardCount(4 * n) == 1 && Summary.ShardCount(n) == 1;
    assert Summary.DivCeil(4 * n, 1) == 4 * n && Summary.DivCeil(n, 1) == n;
  }

  // ---------------------------------------------------------------- the history

  lemma CompactAdds(log: seq<Commit>, c: Commit)
    requires log != [] && c.Compacted? && Merged(log[|log| - 1].head) != []
    requires CascadeOf(log[|log| - 1].head.levels).Lands?
    ensures
      var h := log[|log| - 1].head;
      && AddedAt(log + [c], |log|) == MergedRun(Merged(h), CascadeOf(h.levels).weight)
      && ExpectedAt(log + [c], |log|) == KeyTotal(RecordsOf(Merged(h)))
  {
    hide CascadeFrom, Merged, KeyTotal, MergedRun;
    assert (log + [c])[..|log|] == log;
  }

  /** The first merge: all keys at four blocks, and four times as many expected. */
  lemma FirstMerge(keys: seq<Bytes>) returns (log: seq<Commit>, run: Run)
    requires Suitable(keys)
    ensures |log| == 5 && Upto(log, 4) && BacklogOf(log) == [] && LevelsOf(log) == [Some(run)] && run.weight == 4
    ensures AddedAt(log, 4) == run && ExpectedAt(log, 4) == 4 * |keys|
    ensures Sorted(run.records) && |Merge.DistinctKeys(run.records)| == |keys|
  {
    hide NewRun, Pack, KeyTotal, Merge.MergeAll, Suitable, Merged, MergedRun, CascadeFrom, NewLevels, AddedAt;
    hide ExpectedAt, RecordsOf, Upto, Merge.DistinctKeys;
    EmptyLog();
    var four := AppendFour([], keys, 0);
    UptoLog(four, 4);
    var h := four[3].head;
    var c := CompactOne(four);
    log := four + [c];
    assert h.l0 == BacklogOf(four) && h.levels == LevelsOf(four) == [] && h.l0[..L0_TRIGGER] == h.l0;
    Merges(h, LevelsOf(log));
    LevelZero(h.levels);
    run := MergedRun(Merged(h), 4);
    WeightOf(Merged(h), 4);
    CompactAdds(four, c);
    UptoCompacted(four, c, 4);
    assert Merged(h) == h.l0;
    FourTouched(keys, h.l0);
  }

  lemma EmptyLog()
    ensures Upto([], 0) && BacklogOf([]) == [] && LevelsOf([]) == []
  {
  }

  lemma UptoLog(log: seq<Commit>, n: nat)
    requires Upto(log, n) && n > 0
    ensures Log(log) && log != []
  {
  }

  lemma UptoCompacted(log: seq<Commit>, c: Commit, n: nat)
    requires Upto(log, n) && log != [] && Log(log + [c]) && c.head.number == log[|log| - 1].head.number
    requires c.head.hash == log[|log| - 1].head.hash && c.head.genesis == log[|log| - 1].head.genesis
    ensures Upto(log + [c], n)
  {
    hide Log;
  }

  lemma WeightOf(runs: seq<Run>, weight: nat)
    requires runs != []
    ensures MergedRun(runs, weight).weight == weight
    ensures MergedRun(runs, weight).records == Merge.MergeAll(RecordsOf(runs))
  {
    hide Merge.MergeAll, RecordsOf;
  }

  /** The four runs hold every key, each at its own block. */
  lemma FourTouched(keys: seq<Bytes>, runs: seq<Run>)
    requires Suitable(keys)
    requires runs == [NewRun(Pack(keys, 0)), NewRun(Pack(keys, 1)), NewRun(Pack(keys, 2)), NewRun(Pack(keys, 3))]
    ensures
      var rs := Merge.MergeAll(RecordsOf(runs));
      && KeyTotal(RecordsOf(runs)) == 4 * |keys| && Sorted(rs) && |Merge.DistinctKeys(rs)| == |keys|
      && MergedRun(runs, 4).records == rs
  {
    hide NewRun, Pack, KeyTotal, Merge.MergeAll, Merge.DistinctKeys, Sorted, Suitable;
    var a, b, c, d := Touch(keys, 0), Touch(keys, 1), Touch(keys, 2), Touch(keys, 3);
    PackIs(keys, 0);
    PackIs(keys, 1);
    PackIs(keys, 2);
    PackIs(keys, 3);
    TouchKeys(keys, 0);
    TouchKeys(keys, 1);
    TouchKeys(keys, 2);
    TouchKeys(keys, 3);
    assert RecordsOf(runs) == [a, b, c, d];
    TotalFive(a, b, c, d, []);
    FourMerged(keys);
  }

  lemma FourMerged(keys: seq<Bytes>)
    requires Suitable(keys)
    ensures
      var rs := Merge.MergeAll([Touch(keys, 0), Touch(keys, 1), Touch(keys, 2), Touch(keys, 3)]);
      Sorted(rs) && |Merge.DistinctKeys(rs)| == |keys|
  {
    hide Merge.MergeAll, Merge.DistinctKeys, Sorted, Suitable;
    var lists := [Touch(keys, 0), Touch(keys, 1), Touch(keys, 2), Touch(keys, 3)];
    var rs := Merge.MergeAll(lists);
    forall i | 0 <= i < 4 ensures lists[i] == Touch(keys, i) && Sorted(lists[i]) { TouchKeys(keys, i); }
    ListsApart(keys, lists);
    Merge.MergeAllSorted(lists);
    SuitableDiffer(keys);
    forall k ensures k in keys <==> exists r :: r in rs && r.key == k { KeyMerged(keys, lists, k); }
    CountKeys(rs, keys);
  }

  lemma ListsApart(keys: seq<Bytes>, lists: seq<seq<Record>>)
    requires |lists| == 4 && forall i :: 0 <= i < 4 ==> lists[i] == Touch(keys, i)
    ensures Merge.Disjoint(lists)
  {
  }

  lemma KeyMerged(keys: seq<Bytes>, lists: seq<seq<Record>>, k: Bytes)
    requires |lists| == 4 && forall i :: 0 <= i < 4 ==> lists[i] == Touch(keys, i)
    ensures k in keys <==> exists r :: r in Merge.MergeAll(lists) && r.key == k
  {
    hide Touch;
    if k in keys {
      var i :| 0 <= i < |keys| && keys[i] == k;
      var r := lists[0][i];
      assert r in lists[0] && r in Merge.Union(lists);
    }
    if r :| r in Merge.MergeAll(lists) && r.key == k {
      assert r in Merge.Union(lists);
      var i :| 0 <= i < |lists| && r in lists[i];
    }
  }

  /**
   The history: Replay carries out its first nine commits if they can be written, and then
   finds the tenth one's paths taken.
   */
  lemma SecondMergeIsTaken(keys: seq<Bytes>) returns (log: seq<Commit>)
    requires Suitable(keys)
    ensures Log(log) && |log| == 10 && RepeatsAt(log, 9)
    ensures AddedAt(log, 4).records == AddedAt(log, 9).records
    ensures ExpectedAt(log, 4) == 4 * |keys| && ExpectedAt(log, 9) == |keys|
  {
    hide NewRun, Pack, KeyTotal, Merge.MergeAll, Suitable, Merged, MergedRun, CascadeFrom, NewLevels, AddedAt;
    hide ExpectedAt, RecordsOf, Upto, Merge.DistinctKeys, Resized, Sorted;
    var five, run := FirstMerge(keys);
    var nine := AppendFour(five, keys, 4);
    UptoLog(nine, 8);
    var h := nine[8].head;
    var c := CompactOne(nine);
    log := nine + [c];
    assert h.l0 == BacklogOf(nine) && h.levels == LevelsOf(nine) == [Some(run)] && h.l0[..L0_TRIGGER] == h.l0;
    Merges(h, LevelsOf(log));
    LevelZero(h.levels);
    CompactAdds(nine, c);
    WeightOf(Merged(h), 8);
    Kept(five, log);
    assert Merged(h) == [run] + h.l0;
    NothingNew(keys, run, h.l0);
    SuitableCount(keys);
  }

  lemma SuitableCount(keys: seq<Bytes>)
    requires Suitable(keys)
    ensures Resized(4 * |keys|, |keys|)
  {
    hide Resized;
    SizedAnew(|keys|);
  }

  lemma Kept(five: seq<Commit>, log: seq<Commit>)
    requires |five| == 5 && |log| == 10 && log[..5] == five
    ensures AddedAt(log, 4) == AddedAt(five, 4) && ExpectedAt(log, 4) == ExpectedAt(five, 4)
  {
    assert log[..4] == five[..4] && log[4] == five[4];
  }

  /** Runs without records add nothing to a merge. */
  lemma NothingNew(keys: seq<Bytes>, run: Run, runs: seq<Run>)
    requires Suitable(keys)
    requires runs == [NewRun(Pack(keys, 4)), NewRun(Pack(keys, 5)), NewRun(Pack(keys, 6)), NewRun(Pack(keys, 7))]
    ensures Merge.MergeAll(RecordsOf([run] + runs)) == run.records
    ensures KeyTotal(RecordsOf([run] + runs)) == |Merge.DistinctKeys(run.records)|
  {
    hide NewRun, Pack, KeyTotal, Merge.MergeAll, Merge.DistinctKeys, Suitable;
    PackIs(keys, 4);
    PackIs(keys, 5);
    PackIs(keys, 6);
    PackIs(keys, 7);
    var none: seq<seq<Record>> := seq(4, _ => []);
    assert RecordsOf([run] + runs) == [run.records] + none;
    assert [run.records] + none == [run.records, [], [], [], []];
    EmptyTail(run.records, 4);
    TotalFive([], [], [], [], run.records);
    NoKeys();
  }
}
