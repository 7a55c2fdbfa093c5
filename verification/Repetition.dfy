/**
 When a history writes the same records twice. The path of a summary shard names the run's
 root and its shard count, but not the shard size, so writing equal records again for
 another number of expected keys finds its paths taken. Packages that each hold a record
 never bring that about; packages without events can, and a concrete history shows it.
 */
module Repetition {
  import opened Bytes
  import opened Versions
  import opened Head
  import opened Ledger
  import opened History
  import opened Commits
  import opened StoredRuns
  import opened StoredHistory
  import Merge
  import RunFormat

  // ---------------------------------------------------------------- what a commit adds

  lemma AddedPrefix(log: seq<Commit>, n: nat, k: nat)
    requires k < n <= |log|
    ensures AddedAt(log[..n], k) == AddedAt(log, k) && ExpectedAt(log[..n], k) == ExpectedAt(log, k)
  {
    assert log[..n][..k] == log[..k];
  }

  /** The run a commit adds is one of the new head's. */
  lemma AddedIn(previous: Option<Head>, c: Commit)
    requires Commits.Commits(previous, c) && (previous.Some? ==> |previous.value.levels| <= MAX_LEVELS)
    ensures Added(previous, c) in Runs(c.head)
  {
    hide CascadeFrom, LevelRuns, NewLevels, Merge.Disjoint, Merge.MergeAll, Adjacent;
    match c
    case Appended(head, p) => assert NewRun(p) == head.l0[|head.l0| - 1];
    case Compacted(_) => AddedMerged(previous.value, c);
  }

  lemma AddedMerged(h: Head, c: Commit)
    requires Commits.Commits(Some(h), c) && c.Compacted? && |h.levels| <= MAX_LEVELS
    ensures Added(Some(h), c) in Runs(c.head)
  {
    hide CascadeFrom, LevelRuns, Merge.Disjoint, Merge.MergeAll, Adjacent;
    CompactionMerges(h, c);
    CompactRuns(h, CascadeOf(h.levels).target, Added(Some(h), c));
  }

  /** Its records lie in its interval, and that ends by the new head. */
  lemma {:induction false} AddedWithin(log: seq<Commit>)
    requires Log(log) && log != []
    ensures
      var run := AddedAt(log, |log| - 1);
      && run.end <= log[|log| - 1].head.number
      && forall r :: r in run.records ==> run.start <= r.block <= run.end
  {
    hide Commits.Commits, Log, Runs, Contiguous, Weight, Events, Packages, Tip, Published, ShapeOk;
    var k := |log| - 1;
    var h, run := log[k].head, AddedAt(log, k);
    NextCommit(log, k);
    AddedIn(Current(log[..k]), log[k]);
    LogHeadOk(log);
    var j :| 0 <= j < |Runs(h)| && Runs(h)[j] == run;
    ContiguousIndex(Runs(h), 0, j);
    forall r | r in run.records ensures run.start <= r.block <= run.end { assert r in Contents(run.records); }
  }

  /** Numbers only grow. */
  lemma {:induction false} AddedBefore(log: seq<Commit>, k: nat)
    requires Log(log) && k < |log|
    ensures AddedAt(log, k).end <= log[|log| - 1].head.number
    ensures forall r :: r in AddedAt(log, k).records ==> r.block <= AddedAt(log, k).end
    decreases |log|
  {
    hide Commits.Commits, AddedAt;
    var init := log[..|log| - 1];
    if k < |init| {
      AddedBefore(init, k);
      AddedPrefix(log, |init|, k);
      NextCommit(log, |init|);
      Grows(init[|init| - 1].head, log[|init|]);
    } else {
      AddedWithin(log);
    }
  }

  lemma Grows(h: Head, c: Commit)
    requires Commits.Commits(Some(h), c)
    ensures h.number <= c.head.number
  {
    hide NewLevels;
    if c.Appended? { StartToEnd(c.package); }
  }

  // ---------------------------------------------------------------- the backlog

  ghost predicate IsNew(ps: seq<Package>, q: int, run: Run) { 0 <= q < |ps| && run == NewRun(ps[q]) }

  ghost predicate AnyNew(ps: seq<Package>, run: Run) { exists q :: IsNew(ps, q, run) }

  /** Every run of the backlog is a package as it was published. */
  ghost predicate Backlog(l0: seq<Run>, ps: seq<Package>)
  {
    forall i :: 0 <= i < |l0| ==> AnyNew(ps, l0[i])
  }

  lemma {:induction false} BacklogIs(log: seq<Commit>)
    requires Log(log) && log != []
    ensures Backlog(log[|log| - 1].head.l0, Packages(log))
  {
    hide Commits.Commits, Backlog;
    var n := |log| - 1;
    var init, c := log[..n], log[n];
    NextCommit(log, n);
    if init != [] {
      BacklogIs(init);
      BacklogNext(init[n - 1].head, Packages(init), c);
      assert Packages(log) == if c.Appended? then Packages(init) + [c.package] else Packages(init);
    } else {
      BacklogFirst(c);
      assert Packages(log) == [c.package];
    }
  }

  lemma BacklogFirst(c: Commit)
    requires Commits.Commits(None, c)
    ensures c.Appended? && Backlog(c.head.l0, [c.package])
  {
    assert IsNew([c.package], 0, c.head.l0[0]);
  }

  lemma BacklogNext(h: Head, ps: seq<Package>, c: Commit)
    requires Commits.Commits(Some(h), c) && Backlog(h.l0, ps)
    ensures Backlog(c.head.l0, if c.Appended? then ps + [c.package] else ps)
  {
    hide NewLevels, NewRun, Publishable;
    var l0, all := c.head.l0, if c.Appended? then ps + [c.package] else ps;
    forall i | 0 <= i < |l0| ensures AnyNew(all, l0[i]) {
      if c.Appended? && i == |h.l0| {
        assert IsNew(all, |ps|, l0[i]);
      } else {
        var j := if c.Appended? then i else i + L0_TRIGGER;
        assert l0[i] == h.l0[j] && AnyNew(ps, h.l0[j]);
        var q :| IsNew(ps, q, h.l0[j]);
        assert IsNew(all, q, l0[i]);
      }
    }
  }

  /** The backlog is in order. */
  lemma BacklogOrder(h: Head, ps: seq<Package>, i: nat, j: nat)
    requires HeadOk(h, ps) && i < j < |h.l0|
    ensures h.l0[i].end < h.l0[j].start
  {
    hide LevelRuns, Contiguous, Weight, Events, Tip, Published, ShapeOk, AllFaithful;
    var n := |LevelRuns(h.levels)|;
    assert Runs(h)[n + i] == h.l0[i] && Runs(h)[n + j] == h.l0[j];
    ContiguousOrder(Runs(h), 0, n + i, n + j);
  }

  /** A merge ends where the fourth run of the backlog does. */
  lemma MergeEnds(h: Head, c: Commit)
    requires Commits.Commits(Some(h), c) && c.Compacted? && |h.levels| <= MAX_LEVELS
    ensures Added(Some(h), c).end == h.l0[L0_TRIGGER - 1].end && c.head.l0 == h.l0[L0_TRIGGER..]
  {
    hide CascadeFrom, LevelRuns, Merge.Disjoint, Merge.MergeAll, Adjacent;
    CompactionMerges(h, c);
    var runs := Merged(h);
    assert runs[|runs| - 1] == h.l0[L0_TRIGGER - 1];
  }

  ghost predicate After(l0: seq<Run>, end: nat)
  {
    forall i :: 0 <= i < |l0| ==> end < l0[i].start
  }

  /** Whatever a compaction merged, the backlog of every later head starts after it. */
  lemma {:induction false} BacklogAfter(log: seq<Commit>, k: nat)
    requires Log(log) && k < |log| && log[k].Compacted?
    ensures After(log[|log| - 1].head.l0, AddedAt(log, k).end)
    decreases |log|
  {
    hide Commits.Commits, AddedAt, HeadOk;
    var init, c := log[..|log| - 1], log[|log| - 1];
    NextCommit(log, |init|);
    if k < |init| {
      BacklogAfter(init, k);
      AddedPrefix(log, |init|, k);
      AddedBefore(init, k);
      AfterCommit(init[|init| - 1].head, c, AddedAt(log, k).end);
    } else if init != [] {
      LogHeadOk(init);
      AfterMerge(init[|init| - 1].head, Packages(init), c);
      SameAdded(log);
    } else {
      NotFirst(c);
    }
  }

  lemma SameAdded(log: seq<Commit>)
    requires |log| > 1
    ensures AddedAt(log, |log| - 1) == Added(Some(log[|log| - 2].head), log[|log| - 1])
  {
  }

  lemma NotFirst(c: Commit)
    requires Commits.Commits(None, c)
    ensures c.Appended?
  {
  }

  lemma AfterCommit(h: Head, c: Commit, end: nat)
    requires Commits.Commits(Some(h), c) && After(h.l0, end) && end <= h.number
    ensures After(c.head.l0, end)
  {
    hide NewLevels;
  }

  lemma AfterMerge(h: Head, ps: seq<Package>, c: Commit)
    requires Commits.Commits(Some(h), c) && c.Compacted? && HeadOk(h, ps)
    ensures After(c.head.l0, Added(Some(h), c).end)
  {
    hide HeadOk, Added;
    FewLevels(h, ps);
    MergeEnds(h, c);
    var l0 := c.head.l0;
    forall i | 0 <= i < |l0| ensures Added(Some(h), c).end < l0[i].start {
      BacklogOrder(h, ps, L0_TRIGGER - 1, L0_TRIGGER + i);
    }
  }

  // ---------------------------------------------------------------- packages with records

  ghost predicate AllFull(ps: seq<Package>)
  {
    forall i :: 0 <= i < |ps| ==> ps[i].records != []
  }

  /** A package with a record is not what was added before. */
  lemma {:induction false} AppendIsNew(log: seq<Commit>, k: nat)
    requires Log(log) && k < |log| - 1 && log[|log| - 1].Appended? && log[|log| - 1].package.records != []
    ensures AddedAt(log, k).records != AddedAt(log, |log| - 1).records
  {
    hide AddedAt, Commits.Commits, Log, NewRun;
    var n := |log| - 1;
    var init, p := log[..n], log[n].package;
    LogPrefix(log, n);
    AddedBefore(init, k);
    AddedPrefix(log, n, k);
    NextCommit(log, n);
    var r := p.records[0];
    StartsAfter(init[n - 1].head, log[n], r);
    AppendAdds(log);
    RecordsOfNew(p);
  }

  lemma StartsAfter(h: Head, c: Commit, r: Record)
    requires Commits.Commits(Some(h), c) && c.Appended? && r in c.package.records
    ensures h.number < r.block
  {
  }

  lemma AppendAdds(log: seq<Commit>)
    requires log != [] && log[|log| - 1].Appended?
    ensures AddedAt(log, |log| - 1) == NewRun(log[|log| - 1].package)
  {
  }

  /** What the third and fourth run of the backlog hold is merged. */
  lemma MergeHolds(h: Head, c: Commit, i: nat, r: Record)
    requires Commits.Commits(Some(h), c) && c.Compacted? && |h.levels| <= MAX_LEVELS && i < L0_TRIGGER
    requires |h.l0| >= L0_TRIGGER && r in h.l0[i].records
    ensures r in Added(Some(h), c).records
  {
    hide CascadeFrom, LevelRuns, Merge.Disjoint, Adjacent;
    CompactionMerges(h, c);
    var runs := Merged(h);
    var j := |runs| - L0_TRIGGER + i;
    assert runs[j] == h.l0[i] && RecordsOf(runs)[j] == runs[j].records;
    assert r in Merge.Union(RecordsOf(runs));
  }

  lemma BacklogAt(h: Head, ps: seq<Package>, i: nat) returns (q: nat, r: Record)
    requires Backlog(h.l0, ps) && AllFull(ps) && i < |h.l0|
    ensures q < |ps| && h.l0[i] == NewRun(ps[q]) && r in h.l0[i].records
  {
    hide NewRun;
    assert AnyNew(ps, h.l0[i]);
    q :| IsNew(ps, q, h.l0[i]);
    RecordsOfNew(ps[q]);
    r := ps[q].records[0];
  }

  lemma RecordsOfNew(p: Package)
    ensures NewRun(p).records == p.records && NewRun(p).start == p.Start() && NewRun(p).end == p.End()
  {
  }

  /** Two packages that share a record are one. */
  lemma OnePackage(ps: seq<Package>, i: nat, j: nat, r: Record)
    requires Chain(ps) && i < |ps| && j < |ps| && r in ps[i].records && r in ps[j].records
    ensures i == j
  {
    assert Publishable(ps[i]) && Publishable(ps[j]);
    hide Publishable;
    if i < j { ChainOrder(ps, i, j); }
    if j < i { ChainOrder(ps, j, i); }
  }

  /** A merge takes in a record of the third and one of the fourth package of the backlog. */
  lemma {:induction false} TakesIn(log: seq<Commit>) returns (third: nat, q: Record, fourth: nat, r: Record)
    requires Log(log) && |log| > 1 && log[|log| - 1].Compacted? && AllFull(Packages(log))
    ensures
      var init := log[..|log| - 1];
      var l0, ps := init[|init| - 1].head.l0, Packages(init);
      && |l0| > 3 && third < |ps| && fourth < |ps| && l0[2] == NewRun(ps[third]) && l0[3] == NewRun(ps[fourth])
      && q in ps[third].records && r in ps[fourth].records && r in l0[3].records
    ensures q in AddedAt(log, |log| - 1).records && r in AddedAt(log, |log| - 1).records
  {
    hide AddedAt, Added, Commits.Commits, Backlog, Packages, Log, NewRun;
    var n := |log| - 1;
    var init, c := log[..n], log[n];
    var h, ps := init[n - 1].head, Packages(init);
    NextCommit(log, n);
    LogPrefix(log, n);
    BacklogIs(init);
    SamePackages(log);
    SameAdded(log);
    EnoughRuns(h, c);
    third, q := BacklogAt(h, ps, 2);
    fourth, r := BacklogAt(h, ps, 3);
    RecordsOfNew(ps[third]);
    RecordsOfNew(ps[fourth]);
    MergeHolds(h, c, 2, q);
    MergeHolds(h, c, 3, r);
  }

  /** A merge of packages with records is not what was added before. */
  lemma {:induction false} MergeIsNew(log: seq<Commit>, k: nat)
    requires Log(log) && k < |log| - 1 && log[|log| - 1].Compacted? && AllFull(Packages(log))
    ensures AddedAt(log, k).records != AddedAt(log, |log| - 1).records
  {
    hide AddedAt, HeadOk, Log, After, Packages, NewRun, AllFull;
    var n := |log| - 1;
    var init := log[..n];
    LogPrefix(log, n);
    LogHeadOk(init);
    AddedPrefix(log, n, k);
    var third, q, fourth, r := TakesIn(log);
    if log[k].Compacted? {
      BacklogAfter(init, k);
      AddedBefore(init, k);
      LastAfter(init[n - 1].head, Packages(init), fourth, AddedAt(log, k).end, r);
    } else {
      NotBoth(init, k, third, fourth, q, r);
    }
  }

  lemma SamePackages(log: seq<Commit>)
    requires log != [] && log[|log| - 1].Compacted?
    ensures Packages(log) == Packages(log[..|log| - 1])
  {
  }

  lemma EnoughRuns(h: Head, c: Commit)
    requires Commits.Commits(Some(h), c) && c.Compacted?
    ensures |h.l0| >= L0_TRIGGER
  {
  }

  lemma LastAfter(h: Head, ps: seq<Package>, q: nat, end: nat, r: Record)
    requires HeadOk(h, ps) && After(h.l0, end) && 3 < |h.l0| && q < |ps| && h.l0[3] == NewRun(ps[q])
    requires r in h.l0[3].records
    ensures end < r.block
  {
    hide Runs, Weight, Events, ManifestOk, ShapeOk, Tip;
    assert Publishable(ps[q]);
    hide Publishable;
    RecordsOfNew(ps[q]);
    RecordStarts(ps[q], r);
  }

  lemma RecordStarts(p: Package, r: Record)
    requires Publishable(p) && r in p.records
    ensures p.Start() <= r.block
  {
  }

  /** One package does not hold records of two others. */
  lemma {:induction false} NotBoth(log: seq<Commit>, k: nat, third: nat, fourth: nat, q: Record, r: Record)
    requires Log(log) && k < |log| && log[k].Appended? && third < |Packages(log)| && fourth < |Packages(log)|
    requires |log[|log| - 1].head.l0| > 3
    requires log[|log| - 1].head.l0[2] == NewRun(Packages(log)[third]) && q in Packages(log)[third].records
    requires log[|log| - 1].head.l0[3] == NewRun(Packages(log)[fourth]) && r in Packages(log)[fourth].records
    ensures !(q in AddedAt(log, k).records && r in AddedAt(log, k).records)
  {
    hide HeadOk, AddedAt, NewRun, Log;
    var h, ps := log[|log| - 1].head, Packages(log);
    LogHeadOk(log);
    ChainOf(h, ps);
    BacklogOrder(h, ps, 2, 3);
    StartsFirst(h, ps, third);
    var m := PackageAt(log, k);
    if q in AddedAt(log, k).records && r in AddedAt(log, k).records {
      OnePackage(ps, m, third, q);
      OnePackage(ps, m, fourth, r);
    }
  }

  lemma ChainOf(h: Head, ps: seq<Package>)
    requires HeadOk(h, ps)
    ensures Chain(ps)
  {
  }

  lemma StartsFirst(h: Head, ps: seq<Package>, q: nat)
    requires HeadOk(h, ps) && q < |ps|
    ensures NewRun(ps[q]).start <= NewRun(ps[q]).end
  {
    StartToEnd(ps[q]);
  }

  lemma {:induction false} PackageAt(log: seq<Commit>, k: nat) returns (m: nat)
    requires k < |log| && log[k].Appended?
    ensures m < |Packages(log)| && AddedAt(log, k).records == Packages(log)[m].records
    decreases |log|
  {
    hide NewRun, Merged, CascadeFrom;
    var init := log[..|log| - 1];
    if k < |init| {
      m := PackageAt(init, k);
      AddedPrefix(log, |init|, k);
    } else {
      m := |Packages(log)| - 1;
      AppendAdds(log);
      RecordsOfNew(log[k].package);
    }
  }

  /** Where every package holds a record, no commit adds the records of an earlier one. */
  lemma {:induction false} FullNeverRepeats(log: seq<Commit>, i: nat)
    requires Log(log) && AllFull(Packages(log)) && i < |log|
    ensures !RepeatsAt(log, i)
  {
    hide AddedAt, ExpectedAt, Resized, Packages, Log, AllFull;
    forall k | 0 <= k < i ensures AddedAt(log, k).records != AddedAt(log, i).records { AddsNew(log, i, k); }
  }

  lemma {:induction false} AddsNew(log: seq<Commit>, i: nat, k: nat)
    requires Log(log) && AllFull(Packages(log)) && k < i < |log|
    ensures AddedAt(log, k).records != AddedAt(log, i).records
  {
    hide AddedAt, ExpectedAt, Packages, Log;
    var past := log[..i + 1];
    LogPrefix(log, i + 1);
    PackagesPrefix(log, i + 1);
    FullPrefix(Packages(log), |Packages(past)|);
    AddedPrefix(log, i + 1, i);
    AddedPrefix(log, i + 1, k);
    LastPackage(past);
    if past[i].Appended? { AppendIsNew(past, k); } else { MergeIsNew(past, k); }
  }

  lemma FullPrefix(ps: seq<Package>, n: nat)
    requires AllFull(ps) && n <= |ps|
    ensures AllFull(ps[..n])
  {
  }

  lemma LastPackage(log: seq<Commit>)
    requires log != []
    ensures log[|log| - 1].Appended? ==>
              Packages(log) != [] && Packages(log)[|Packages(log)| - 1] == log[|log| - 1].package
  {
  }

  /** So such a history is carried out to its end unless a run cannot be written. */
  lemma FullClear(c: RunFormat.Codec, log: seq<Commit>)
    requires Log(log) && AllFull(Packages(log))
    ensures Clear(c, log, |log|) <==> forall i :: 0 <= i < |log| ==> !RefusesAt(c, log, i)
  {
    hide RefusesAt, RepeatsAt, Packages, Log;
    forall i | 0 <= i < |log| ensures !RepeatsAt(log, i) { FullNeverRepeats(log, i); }
  }
}
