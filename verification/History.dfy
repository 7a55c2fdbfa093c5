/**
 What every committed head holds: its runs partition the packages published so far,
 so a read through any head is a read of the flat history.
 */
module History {
  import opened Bytes
  import opened Versions
  import opened Head
  import opened Ledger
  import Merge

  // ---------------------------------------------------------------- packages

  ghost predicate Chain(ps: seq<Package>)
  {
    && (forall i :: 0 <= i < |ps| ==> Publishable(ps[i]))
    && (forall i, j :: 0 <= i < j < |ps| && j == i + 1 ==> ps[i].End() + 1 == ps[j].Start())
  }

  ghost function Events(ps: seq<Package>): set<Record>
  {
    set i, r | 0 <= i < |ps| && r in ps[i].records :: r
  }

  lemma EventsAppend(ps: seq<Package>, p: Package)
    ensures Events(ps + [p]) == Events(ps) + Contents(p.records)
  {
    var all := ps + [p];
    forall r | r in Events(all) ensures r in Events(ps) || r in p.records {
      var i :| 0 <= i < |all| && r in all[i].records;
      if i < |ps| { assert r in ps[i].records; }
    }
    forall r | r in Events(ps) ensures r in Events(all) {
      var i :| 0 <= i < |ps| && r in ps[i].records;
      assert r in all[i].records;
    }
    forall r | r in p.records ensures r in Events(all) { assert r in all[|ps|].records; }
  }

  lemma {:induction false} Ascending(blocks: seq<Block>, i: nat)
    requires i < |blocks|
    requires forall j, k :: 0 <= j < k < |blocks| && k == j + 1 ==> blocks[j].number + 1 == blocks[k].number
    ensures blocks[i].number == blocks[0].number + i
  {
    if i > 0 { Ascending(blocks, i - 1); }
  }

  lemma StartToEnd(p: Package)
    requires Publishable(p)
    ensures p.Start() <= p.End()
  {
    Ascending(p.blocks, |p.blocks| - 1);
  }

  lemma {:induction false} ChainOrder(ps: seq<Package>, i: nat, j: nat)
    requires Chain(ps) && i < j < |ps|
    ensures ps[i].End() < ps[j].Start()
    decreases j
  {
    if i + 1 < j {
      ChainOrder(ps, i, j - 1);
      StartToEnd(ps[j - 1]);
    }
  }

  lemma EventsBound(ps: seq<Package>, r: Record)
    requires Chain(ps) && r in Events(ps)
    ensures ps != [] && r.block <= ps[|ps| - 1].End()
  {
    var i :| 0 <= i < |ps| && r in ps[i].records;
    assert Publishable(ps[i]);
    if i < |ps| - 1 { ChainOrder(ps, i, |ps| - 1); StartToEnd(ps[|ps| - 1]); }
  }

  // ---------------------------------------------------------------- runs hold intervals of events

  ghost function Between(events: set<Record>, start: int, end: int): set<Record>
  {
    set r | r in events && start <= r.block <= end
  }

  /** `run` holds exactly the events of its block interval. */
  ghost predicate Faithful(run: Run, events: set<Record>)
  {
    Sorted(run.records) && Contents(run.records) == Between(events, run.start, run.end)
  }

  ghost predicate AllFaithful(runs: seq<Run>, events: set<Record>)
  {
    forall i :: 0 <= i < |runs| ==> Faithful(runs[i], events)
  }

  /** Events past a run's end do not concern it. */
  lemma FaithfulMore(run: Run, events: set<Record>, more: set<Record>)
    requires Faithful(run, events) && forall r :: r in more ==> r.block > run.end
    ensures Faithful(run, events + more)
  {
    assert Between(events + more, run.start, run.end) == Between(events, run.start, run.end);
  }

  lemma {:induction false} ContiguousIndex(runs: seq<Run>, start: nat, i: nat)
    requires Contiguous(runs, start) && i < |runs|
    ensures start <= runs[i].start <= runs[i].end < EndOf(runs, start)
    ensures i + 1 < |runs| ==> runs[i + 1].start == runs[i].end + 1
  {
    if |runs| > 1 {
      ContiguousIndex(runs[1..], runs[0].end + 1, if i > 0 then i - 1 else 0);
      assert runs[1..][0] == runs[1];
    }
  }

  lemma {:induction false} ContiguousOrder(runs: seq<Run>, start: nat, i: nat, j: nat)
    requires Contiguous(runs, start) && i < j < |runs|
    ensures runs[i].end < runs[j].start
    decreases j
  {
    ContiguousIndex(runs, start, j - 1);
    if i + 1 < j { ContiguousOrder(runs, start, i, j - 1); }
  }

  /** Run `i` starts where the one before ends, the first at `start`. */
  ghost predicate Placed(runs: seq<Run>, start: nat, i: nat)
    requires i < |runs|
  {
    runs[i].start == (if i == 0 then start else runs[i - 1].end + 1) && runs[i].start <= runs[i].end
  }

  lemma {:induction false} ContiguousIff(runs: seq<Run>, start: nat)
    ensures Contiguous(runs, start) <==> forall i: nat :: i < |runs| ==> Placed(runs, start, i)
  {
    if runs != [] {
      var rest, next := runs[1..], runs[0].end + 1;
      ContiguousIff(rest, next);
      assert Placed(runs, start, 0) <==> runs[0].start == start && runs[0].start <= runs[0].end;
      forall i: nat | i < |rest| ensures Placed(rest, next, i) <==> Placed(runs, start, i + 1) {}
      if Contiguous(runs, start) {
        forall i: nat | i < |runs| ensures Placed(runs, start, i) {
          if i > 0 { assert Placed(rest, next, i - 1); }
        }
      }
    }
  }

  /** Every block a contiguous manifest spans falls into one of its runs. */
  lemma {:induction false} ContiguousFinds(runs: seq<Run>, start: nat, block: int) returns (i: nat)
    requires Contiguous(runs, start) && start <= block < EndOf(runs, start)
    ensures i < |runs| && runs[i].start <= block <= runs[i].end
  {
    if block <= runs[0].end {
      i := 0;
    } else {
      var k := ContiguousFinds(runs[1..], runs[0].end + 1, block);
      i := k + 1;
    }
  }

  /** Contiguous faithful runs share no version: neither bail of the compactor fires. */
  lemma Mergeable(runs: seq<Run>, start: nat, events: set<Record>)
    requires Contiguous(runs, start) && AllFaithful(runs, events)
    ensures Adjacent(runs)
    ensures Merge.AllSorted(RecordsOf(runs)) && Merge.Disjoint(RecordsOf(runs))
  {
    forall i, j | 0 <= i < j < |runs| && j == i + 1 ensures runs[i].end + 1 == runs[j].start {
      ContiguousIndex(runs, start, i);
    }
    forall i, j | 0 <= i < j < |runs| ensures Merge.Apart(runs[i].records, runs[j].records) {
      ContiguousOrder(runs, start, i, j);
      assert Faithful(runs[i], events) && Faithful(runs[j], events);
      forall r, q | r in runs[i].records && q in runs[j].records ensures At(r) != At(q) {
        assert r in Contents(runs[i].records) && q in Contents(runs[j].records);
      }
    }
  }

  /** The merge of contiguous faithful runs is faithful over their joint interval. */
  lemma MergedFaithful(runs: seq<Run>, start: nat, events: set<Record>, weight: nat)
    requires runs != [] && Contiguous(runs, start) && AllFaithful(runs, events)
    ensures Faithful(MergedRun(runs, weight), events)
  {
    Mergeable(runs, start, events);
    var inputs := RecordsOf(runs);
    Merge.MergeAllSorted(inputs);
    var end := runs[|runs| - 1].end;
    forall r ensures r in Merge.Union(inputs) <==> r in Between(events, start, end) {
      if r in Merge.Union(inputs) {
        var i :| 0 <= i < |inputs| && r in inputs[i];
        assert Faithful(runs[i], events) && r in Contents(runs[i].records);
        ContiguousIndex(runs, start, i);
      }
      if r in Between(events, start, end) {
        var i := ContiguousFinds(runs, start, r.block);
        assert Faithful(runs[i], events) && r in Contents(runs[i].records);
        assert r in inputs[i];
      }
    }
    assert Contents(Merge.MergeAll(inputs)) == Between(events, start, end);
  }

  // ---------------------------------------------------------------- reading through a manifest

  /** Search one run, unless it starts later or its summary excludes the key. */
  function Probe(run: Run, mayContain: (Run, Bytes) -> bool, key: Bytes, block: nat): Option<Bytes>
  {
    if run.start > block || !mayContain(run, key) then None
    else Search(run.records, key, if block < run.end then block else run.end)
  }

  /** Probe runs newest first until one answers. */
  function Read(runs: seq<Run>, mayContain: (Run, Bytes) -> bool, key: Bytes, block: nat): Option<Bytes>
  {
    if runs == [] then None
    else
      var hit := Probe(runs[|runs| - 1], mayContain, key, block);
      if hit.Some? then hit else Read(runs[..|runs| - 1], mayContain, key, block)
  }

  /** A summary may only err by answering yes. */
  ghost predicate NoFalseNegative(mayContain: (Run, Bytes) -> bool, run: Run)
  {
    forall r :: r in run.records ==> mayContain(run, r.key)
  }

  ghost predicate NoFalseNegatives(mayContain: (Run, Bytes) -> bool, runs: seq<Run>)
  {
    forall i :: 0 <= i < |runs| ==> NoFalseNegative(mayContain, runs[i])
  }

  /** What one probed run contributes is the answer over its own interval. */
  lemma ProbeAnswer(run: Run, mayContain: (Run, Bytes) -> bool, events: set<Record>, key: Bytes, block: nat)
    requires Faithful(run, events) && NoFalseNegative(mayContain, run)
    ensures IsAnswer(Between(events, run.start, run.end), key, block, Probe(run, mayContain, key, block))
  {
    var own := Between(events, run.start, run.end);
    if run.start > block || !mayContain(run, key) {
      forall r | r in own ensures !Visible(r, key, block) { assert r in Contents(run.records); }
    } else {
      var clamped := if block < run.end then block else run.end;
      SearchIsAnswer(run.records, key, clamped);
      AnswerClamped(own, run.end, key, block, Search(run.records, key, clamped));
    }
  }

  lemma JoinAnswers(events: set<Record>, from: nat, start: nat, end: nat, key: Bytes, block: nat,
                    a: Option<Bytes>, b: Option<Bytes>)
    requires from <= start <= end
    requires IsAnswer(Between(events, from, start - 1), key, block, a)
    requires IsAnswer(Between(events, start, end), key, block, b)
    ensures IsAnswer(Between(events, from, end), key, block, if b.Some? then b else a)
  {
    var older, newer := Between(events, from, start - 1), Between(events, start, end);
    assert older + newer == Between(events, from, end);
    AnswerLayers(older, newer, key, block, a, b);
  }

  /** A read through contiguous faithful runs is the answer over all their events. */
  lemma {:induction false} ReadIsAnswer(
    runs: seq<Run>, start: nat, mayContain: (Run, Bytes) -> bool, events: set<Record>, key: Bytes, block: nat)
    requires Contiguous(runs, start) && AllFaithful(runs, events) && NoFalseNegatives(mayContain, runs)
    ensures IsAnswer(Between(events, start, EndOf(runs, start) - 1), key, block, Read(runs, mayContain, key, block))
  {
    if runs != [] {
      var init, run := runs[..|runs| - 1], runs[|runs| - 1];
      assert Contiguous(init, start) && start <= EndOf(init, start) == run.start <= run.end by {
        assert runs == init + [run];
        ContiguousConcat(init, [run], start);
        if init != [] { ContiguousIndex(init, start, |init| - 1); }
      }
      ReadIsAnswer(init, start, mayContain, events, key, block);
      ProbeAnswer(run, mayContain, events, key, block);
      JoinAnswers(events, start, run.start, run.end, key, block,
        Read(init, mayContain, key, block), Probe(run, mayContain, key, block));
    }
  }

  /**
   One search of the merged run answers as probing its inputs newest first does, for
   every key and block, whatever the summaries of the inputs grant beyond their keys.
   */
  lemma MergedLookup(runs: seq<Run>, start: nat, weight: nat, mayContain: (Run, Bytes) -> bool,
                     events: set<Record>, key: Bytes, block: nat)
    requires runs != [] && Contiguous(runs, start) && AllFaithful(runs, events) && UniqueVersions(events)
    requires NoFalseNegatives(mayContain, runs)
    ensures Probe(MergedRun(runs, weight), (_, _) => true, key, block) == Read(runs, mayContain, key, block)
  {
    hide Search, IsAnswer, Faithful, Read;
    var merged := MergedRun(runs, weight);
    MergedFaithful(runs, start, events, weight);
    ProbeAnswer(merged, (_, _) => true, events, key, block);
    ReadIsAnswer(runs, start, mayContain, events, key, block);
    AnswerUnique(Between(events, merged.start, merged.end), key, block,
      Probe(merged, (_, _) => true, key, block), Read(runs, mayContain, key, block));
  }

  // ---------------------------------------------------------------- the flat history

  function Concat(ps: seq<Package>): seq<Record>
  {
    if ps == [] then [] else Concat(ps[..|ps| - 1]) + ps[|ps| - 1].records
  }

  /** The flat history of `ps`: every published write replayed into one map. */
  function FlatRead(ps: seq<Package>, key: Bytes, block: nat): Option<Bytes>
  {
    Flat(Concat(ps), key, block)
  }

  lemma {:induction false} ConcatEvents(ps: seq<Package>)
    requires Chain(ps)
    ensures Contents(Concat(ps)) == Events(ps)
    ensures Chronological(Concat(ps))
  {
    if ps != [] {
      var init, p := ps[..|ps| - 1], ps[|ps| - 1];
      assert Chain(init);
      ConcatEvents(init);
      assert ps == init + [p];
      EventsAppend(init, p);
      var older := Concat(init);
      assert Publishable(p);
      forall i, j | 0 <= i < j < |older + p.records| && (older + p.records)[i].key == (older + p.records)[j].key
        ensures (older + p.records)[i].block < (older + p.records)[j].block
      {
        if i < |older| <= j {
          assert older[i] in Contents(older);
          EventsBound(init, older[i]);
          ChainOrder(ps, |ps| - 2, |ps| - 1);
          assert p.records[j - |older|] in p.records;
        } else if |older| <= i {
          LessIrreflexive(p.records[i - |older|].key);
          assert Before(At(p.records[i - |older|]), At(p.records[j - |older|]));
        }
      }
    }
  }

  lemma EventsUnique(ps: seq<Package>)
    requires Chain(ps)
    ensures UniqueVersions(Events(ps))
  {
    hide Chain, Concat, Events;
    ConcatEvents(ps);
    var all := Concat(ps);
    forall r, q | r in Events(ps) && q in Events(ps) && At(r) == At(q) ensures r == q {
      assert r in Contents(all) && q in Contents(all);
      var i :| 0 <= i < |all| && all[i] == r;
      var j :| 0 <= j < |all| && all[j] == q;
    }
  }

  /** Packages published later never change an earlier answer of the flat history. */
  lemma FlatStable(ps: seq<Package>, n: nat, key: Bytes, block: nat)
    requires Chain(ps) && 0 < n <= |ps| && block <= ps[n - 1].End()
    ensures FlatRead(ps, key, block) == FlatRead(ps[..n], key, block)
    decreases |ps|
  {
    if n < |ps| {
      var init, p := ps[..|ps| - 1], ps[|ps| - 1];
      assert Chain(init);
      assert init[..n] == ps[..n] && init[n - 1] == ps[n - 1];
      FlatStable(init, n, key, block);
      ChainOrder(ps, n - 1, |ps| - 1);
      assert Publishable(p);
      ReplayLater(Concat(init), p.records, block);
    } else {
      assert ps[..n] == ps;
    }
  }

  lemma {:induction false} ReplayLater(events: seq<Record>, later: seq<Record>, block: int)
    requires forall r :: r in later ==> r.block > block
    ensures Replay(events + later, block) == Replay(events, block)
  {
    if later == [] {
      assert events + later == events;
    } else {
      var init := later[..|later| - 1];
      ReplayLater(events, init, block);
      assert (events + later)[..|events + later| - 1] == events + init;
      assert later[|later| - 1] in later;
    }
  }
}
