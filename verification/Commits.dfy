/**
 Every head of a committed history: structure, level digits, rewriting cost and answers.
 */
module Commits {
  import opened Bytes
  import opened Versions
  import opened Head
  import opened Ledger
  import opened History
  import Merge

  // ---------------------------------------------------------------- one head

  /** Packages published from genesis on, each continuing the one before. */
  ghost predicate Published(ps: seq<Package>)
  {
    ps != [] && Chain(ps) && ps[0].Start() == 0
  }

  /** The head names the last block and the input of its newest package. */
  predicate Tip(h: Head, p: Package)
  {
    && p.blocks != []
    && h.genesis == p.genesis && h.number == p.Last().number && h.hash == p.Last().hash
    && h.stateRoot == p.Last().stateRoot && h.input == p.input
  }

  ghost predicate ShapeOk(l0: seq<Run>, levels: seq<Option<Run>>)
  {
    && |l0| <= MAX_L0_BACKLOG && Ones(l0)
    && |levels| <= MAX_LEVELS && LevelsOk(levels, 0)
  }

  ghost predicate Ones(l0: seq<Run>)
  {
    forall i :: 0 <= i < |l0| ==> l0[i].weight == 1
  }

  /** The manifest spans genesis through the head and holds every event exactly once. */
  ghost predicate ManifestOk(runs: seq<Run>, number: nat, events: set<Record>)
  {
    && runs != [] && Contiguous(runs, 0) && EndOf(runs, 0) == number + 1
    && AllFaithful(runs, events)
  }

  /** A head in step with the packages published so far. */
  ghost predicate HeadOk(h: Head, ps: seq<Package>)
  {
    && Published(ps)
    && Tip(h, ps[|ps| - 1])
    && ShapeOk(h.l0, h.levels)
    && Weight(Runs(h)) == |ps|
    && ManifestOk(Runs(h), h.number, Events(ps))
  }

  /** Every head in step with its packages passes all checks a reader makes. */
  lemma HeadWellformed(h: Head, ps: seq<Package>)
    requires HeadOk(h, ps)
    ensures Wellformed(h)
  {
  }

  lemma {:induction false} OnesWeight(l0: seq<Run>)
    requires Ones(l0)
    ensures Weight(l0) == |l0|
  {
    if l0 != [] { OnesWeight(l0[..|l0| - 1]); }
  }

  lemma PublishedMore(ps: seq<Package>, p: Package)
    requires Publishable(p)
    requires if ps == [] then p.Start() == 0 else Published(ps) && ps[|ps| - 1].End() + 1 == p.Start()
    ensures Published(ps + [p])
  {
  }

  lemma NewRunFaithful(events: set<Record>, p: Package)
    requires Publishable(p) && forall r :: r in events ==> r.block < p.Start()
    ensures Faithful(NewRun(p), events + Contents(p.records))
  {
    assert Between(events + Contents(p.records), p.Start(), p.End()) == Contents(p.records);
  }

  lemma AppendManifest(runs: seq<Run>, number: nat, events: set<Record>, p: Package)
    requires ManifestOk(runs, number, events) && Publishable(p) && number + 1 == p.Start()
    requires forall r :: r in events ==> r.block <= number
    ensures ManifestOk(runs + [NewRun(p)], p.End(), events + Contents(p.records))
  {
    var run, more := NewRun(p), Contents(p.records);
    StartToEnd(p);
    ContiguousConcat(runs, [run], 0);
    NewRunFaithful(events, p);
    forall i | 0 <= i < |runs| ensures Faithful(runs[i], events + more) {
      ContiguousIndex(runs, 0, i);
      FaithfulMore(runs[i], events, more);
    }
  }

  /** Publication keeps a head in step. */
  lemma AppendKeeps(h: Head, ps: seq<Package>, p: Package)
    requires HeadOk(h, ps) && |h.l0| < MAX_L0_BACKLOG
    requires Publishable(p) && Follows(Some(h), p)
    ensures HeadOk(Append(Some(h), p), ps + [p])
  {
    var next, run := Append(Some(h), p), NewRun(p);
    PublishedMore(ps, p);
    assert Runs(next) == Runs(h) + [run];
    forall r | r in Events(ps) ensures r.block <= h.number { EventsBound(ps, r); }
    AppendManifest(Runs(h), h.number, Events(ps), p);
    EventsAppend(ps, p);
    assert Weight(Runs(next)) == |ps| + 1 by {
      WeightConcat(Runs(h), [run]);
      assert [run][..0] == [];
    }
    assert ShapeOk(next.l0, next.levels);
    assert (ps + [p])[|ps|] == p;
  }

  /** The first publication starts a head in step. */
  lemma GenesisKeeps(p: Package)
    requires Publishable(p) && Follows(None, p)
    ensures HeadOk(Append(None, p), [p])
  {
    var next := Append(None, p);
    PublishedMore([], p);
    assert [] + [p] == [p];
    assert Runs(next) == [NewRun(p)];
    GenesisManifest(p);
    assert Weight(Runs(next)) == 1 by { assert Runs(next)[..0] == []; }
    assert ShapeOk(next.l0, next.levels);
  }

  lemma GenesisManifest(p: Package)
    requires Publishable(p) && p.Start() == 0
    ensures ManifestOk([NewRun(p)], p.End(), Events([p]))
  {
    StartToEnd(p);
    NewRunFaithful({}, p);
    EventsAppend([], p);
    assert [] + [p] == [p];
    assert {} + Contents(p.records) == Events([p]);
    assert [NewRun(p)][1..] == [];
  }

  // ---------------------------------------------------------------- compaction of one head

  lemma {:induction false} TrimRuns(levels: seq<Option<Run>>)
    ensures LevelRuns(Trim(levels)) == LevelRuns(levels)
    ensures |Trim(levels)| <= |levels| && Trim(levels) == levels[..|Trim(levels)|]
  {
    if levels != [] && levels[|levels| - 1].None? {
      var init := levels[..|levels| - 1];
      TrimRuns(init);
      assert levels == init + [None];
      LevelRunsConcat(init, [None]);
      assert LevelRuns([None]) == [];
    }
  }

  function LevelsAbove(levels: seq<Option<Run>>, target: nat): seq<Option<Run>>
  {
    if target < |levels| then levels[target + 1..] else []
  }

  lemma ReplaceRuns(levels: seq<Option<Run>>, target: nat, run: Run)
    ensures LevelRuns(Replace(levels, target, run)) == LevelRuns(LevelsAbove(levels, target)) + [run]
  {
    var replaced := Replace(levels, target, run);
    var low, high := replaced[..target], replaced[target + 1..];
    assert replaced == low + ([Some(run)] + high);
    LevelRunsConcat(low, [Some(run)] + high);
    LevelRunsConcat([Some(run)], high);
    NoRuns(low);
    assert LevelRuns([Some(run)]) == [run];
    assert high == LevelsAbove(levels, target);
    assert LevelRuns(high) + [run] + [] == LevelRuns(high) + [run];
  }

  lemma SlotsAbove(levels: seq<Option<Run>>, target: nat)
    requires |levels| <= MAX_LEVELS && target < MAX_LEVELS
    ensures LevelRuns(Slots(levels)[target + 1..]) == LevelRuns(LevelsAbove(levels, target))
  {
    var above := LevelsAbove(levels, target);
    var high := Slots(levels)[target + 1..];
    var padding := high[|above|..];
    assert high == above + padding;
    LevelRunsConcat(above, padding);
    NoRuns(padding);
  }

  lemma LevelRunsAround(levels: seq<Option<Run>>, target: nat)
    requires |levels| <= MAX_LEVELS && target < MAX_LEVELS
    ensures LevelRuns(levels) == LevelRuns(LevelsAbove(levels, target)) + Absorbed(levels, target)
  {
    var slots := Slots(levels);
    SlotRuns(levels);
    assert slots == slots[..target + 1] + slots[target + 1..];
    LevelRunsConcat(slots[..target + 1], slots[target + 1..]);
    SlotsAbove(levels, target);
  }

  /** The inputs of a compaction, oldest first. */
  function Inputs(h: Head, target: nat): seq<Run>
    requires |h.l0| >= L0_TRIGGER && target < MAX_LEVELS
  {
    Absorbed(h.levels, target) + h.l0[..L0_TRIGGER]
  }

  function Older(h: Head, target: nat): seq<Run> { LevelRuns(LevelsAbove(h.levels, target)) }

  lemma RunsAround(h: Head, target: nat)
    requires |h.l0| >= L0_TRIGGER && target < MAX_LEVELS && |h.levels| <= MAX_LEVELS
    ensures Runs(h) == Older(h, target) + (Inputs(h, target) + h.l0[L0_TRIGGER..])
  {
    LevelRunsAround(h.levels, target);
    assert h.l0 == h.l0[..L0_TRIGGER] + h.l0[L0_TRIGGER..];
  }

  lemma InputsWeight(h: Head, target: nat)
    requires |h.l0| >= L0_TRIGGER && target < MAX_LEVELS && Ones(h.l0)
    ensures Weight(Inputs(h, target)) == Weight(Absorbed(h.levels, target)) + L0_TRIGGER
  {
    WeightConcat(Absorbed(h.levels, target), h.l0[..L0_TRIGGER]);
    OnesWeight(h.l0[..L0_TRIGGER]);
  }

  /** Middle runs of a manifest can be merged... */
  lemma MiddleMergeable(a: seq<Run>, b: seq<Run>, c: seq<Run>, events: set<Record>)
    requires Contiguous(a + (b + c), 0) && AllFaithful(a + (b + c), events)
    ensures Adjacent(b) && Merge.Disjoint(RecordsOf(b))
  {
    var runs := a + (b + c);
    assert forall i :: 0 <= i < |b| ==> b[i] == runs[|a| + i];
    ContiguousConcat(a, b + c, 0);
    ContiguousConcat(b, c, EndOf(a, 0));
    Mergeable(b, EndOf(a, 0), events);
  }

  /** ...and their merge takes their place. */
  lemma MiddleMerged(a: seq<Run>, b: seq<Run>, c: seq<Run>, number: nat, events: set<Record>)
    requires b != [] && ManifestOk(a + (b + c), number, events)
    ensures ManifestOk(a + [MergedRun(b, Weight(b))] + c, number, events)
  {
    var runs := a + (b + c);
    var run := MergedRun(b, Weight(b));
    assert forall i :: 0 <= i < |b| ==> b[i] == runs[|a| + i];
    ContiguousConcat(a, b + c, 0);
    ContiguousConcat(b, c, EndOf(a, 0));
    MergedFaithful(b, EndOf(a, 0), events, Weight(b));
    ContiguousIndex(b, EndOf(a, 0), |b| - 1);
    ContiguousConcat(a, [run], 0);
    ContiguousConcat(a + [run], c, 0);
    var merged := a + [run] + c;
    forall i | 0 <= i < |merged| ensures Faithful(merged[i], events) {
      if i < |a| { assert merged[i] == runs[i]; }
      if i > |a| { assert merged[i] == runs[i + |b| - 1]; }
    }
  }

  lemma MiddleWeight(a: seq<Run>, b: seq<Run>, c: seq<Run>, run: Run)
    requires run.weight == Weight(b)
    ensures Weight(a + [run] + c) == Weight(a + (b + c))
  {
    WeightConcat(a, b + c);
    WeightConcat(b, c);
    WeightConcat(a + [run], c);
    WeightConcat(a, [run]);
    assert [run][..0] == [];
  }

  lemma CompactRuns(h: Head, target: nat, run: Run)
    requires |h.l0| >= L0_TRIGGER
    ensures Runs(Compact(h, Trim(Replace(h.levels, target, run)))) == Older(h, target) + [run] + h.l0[L0_TRIGGER..]
  {
    ReplaceRuns(h.levels, target, run);
    TrimRuns(Replace(h.levels, target, run));
  }

  lemma MultipleOk(d: nat, u: nat)
    requires 0 < d < FANOUT && u > 0
    ensures d * u != 0 && (d * u) % u == 0 && d * u < u * FANOUT && (d * u) / u == d
  {
    var q, r := (d * u) / u, (d * u) % u;
    assert r == (d - q) * u;
    assert d - q >= 1 ==> (d - q) * u >= u;
    assert d - q <= -1 ==> (d - q) * u < 0;
  }

  /** A level that holds a run holds one to seven units of four times a power of eight. */
  ghost predicate Units(level: Option<Run>, index: nat)
  {
    level.Some? ==> exists d :: 1 <= d <= 7 && level.value.weight == d * (4 * Pow8(index))
  }

  lemma LevelOkIff(level: Option<Run>, index: nat)
    ensures LevelOk(level, index) <==> Units(level, index)
  {
    if LevelOk(level, index) {
      DigitWeight(level, index);
      if level.Some? { assert level.value.weight == Digit(level, index) * (4 * Pow8(index)); }
    } else {
      forall d | 1 <= d <= 7 && level.value.weight == d * (4 * Pow8(index)) ensures false {
        MultipleOk(d, Unit(index));
      }
    }
  }

  /**
   A head passes a reader's checks exactly when it has at most sixteen L0 runs of one package
   each, at most eight levels of one to seven units, and runs that follow one another from
   genesis to the head's block.
   */
  lemma DecodedIff(h: Head)
    ensures Wellformed(h) <==>
            && |h.l0| <= 16 && |h.levels| <= 8
            && (forall i :: 0 <= i < |h.l0| ==> h.l0[i].weight == 1)
            && (forall i: nat :: i < |h.levels| ==> Units(h.levels[i], i))
            && var runs := Runs(h);
            && runs != [] && runs[|runs| - 1].end == h.number
            && forall i: nat :: i < |runs| ==> Placed(runs, 0, i)
  {
    hide LevelOk, Runs, Contiguous, Placed;
    ContiguousIff(Runs(h), 0);
    forall i: nat | i < |h.levels| ensures LevelOk(h.levels[i], 0 + i) <==> Units(h.levels[i], i) {
      LevelOkIff(h.levels[i], i);
    }
  }

  /** The landing run's weight is legal at its level. */
  lemma LandingOk(levels: seq<Option<Run>>, target: nat, run: Run)
    requires |levels| <= MAX_LEVELS && LevelsOk(levels, 0)
    requires CascadeOf(levels) == Lands(target, run.weight)
    ensures target < MAX_LEVELS && LevelOk(Some(run), target)
    ensures Digit(Some(run), target) == Digit(Slots(levels)[target], target) + 1
  {
    SlotRuns(levels);
    assert Unit(0) == L0_TRIGGER;
    CascadeIsIncrement(Slots(levels), 0);
    var d, u := Digit(Slots(levels)[target], target), Unit(target);
    MultipleOk(d + 1, u);
    DigitWeight(Some(run), target);
  }

  lemma NewLevelsOk(levels: seq<Option<Run>>, target: nat, run: Run)
    requires |levels| <= MAX_LEVELS && LevelsOk(levels, 0)
    requires target < MAX_LEVELS && LevelOk(Some(run), target)
    ensures |Trim(Replace(levels, target, run))| <= MAX_LEVELS
    ensures LevelsOk(Trim(Replace(levels, target, run)), 0)
  {
    var replaced := Replace(levels, target, run);
    TrimRuns(replaced);
    var trimmed := Trim(replaced);
    forall i | 0 <= i < |trimmed| ensures LevelOk(trimmed[i], 0 + i) {
      if i > target { assert LevelOk(levels[i], 0 + i); }
    }
  }

  /** Compaction keeps a head in step, with the same packages. */
  lemma CompactKeeps(h: Head, ps: seq<Package>, levels: seq<Option<Run>>)
    requires HeadOk(h, ps) && |h.l0| >= L0_TRIGGER
    requires NewLevels(h.levels, h.l0[..L0_TRIGGER]) == Some(levels)
    ensures HeadOk(Compact(h, levels), ps)
  {
    hide LevelRuns, Weight, Contiguous, CascadeFrom, Events, LevelsOk, AllFaithful, Published;
    var c := CascadeOf(h.levels);
    var run := MergedRun(Inputs(h, c.target), c.weight);
    assert c.weight == Weight(Inputs(h, c.target)) by {
      CascadeWeight(Slots(h.levels), 0, L0_TRIGGER);
      InputsWeight(h, c.target);
    }
    var older, inputs, rest := Older(h, c.target), Inputs(h, c.target), h.l0[L0_TRIGGER..];
    RunsAround(h, c.target);
    CompactRuns(h, c.target, run);
    assert ManifestOk(Runs(Compact(h, levels)), h.number, Events(ps)) by {
      MiddleMerged(older, inputs, rest, h.number, Events(ps));
    }
    assert Weight(Runs(Compact(h, levels))) == |ps| by {
      MiddleWeight(older, inputs, rest, run);
    }
    assert ShapeOk(h.l0[L0_TRIGGER..], levels) by {
      LandingOk(h.levels, c.target, run);
      NewLevelsOk(h.levels, c.target, run);
    }
  }

  /**
   A compaction of a head in step is refused only by the level bound, and that only when
   all eight digits are seven: inputs are adjacent, disjoint and fit their level.
   */
  lemma CompactionRefusedOnlyWhenFull(h: Head, ps: seq<Package>)
    requires HeadOk(h, ps) && |h.l0| >= L0_TRIGGER
    ensures CascadeOf(h.levels) != CapacityExceeded
    ensures CascadeOf(h.levels).TooDeep? <==> AllSevens(Slots(h.levels), 0)
    ensures NewLevels(h.levels, h.l0[..L0_TRIGGER]).None? <==> AllSevens(Slots(h.levels), 0)
  {
    CascadeBounds(h.levels);
    if CascadeOf(h.levels).Lands? {
      var target := CascadeOf(h.levels).target;
      RunsAround(h, target);
      MiddleMergeable(Older(h, target), Inputs(h, target), h.l0[L0_TRIGGER..], Events(ps));
    }
  }

  lemma CascadeBounds(levels: seq<Option<Run>>)
    requires |levels| <= MAX_LEVELS && LevelsOk(levels, 0)
    ensures CascadeOf(levels) != CapacityExceeded
    ensures CascadeOf(levels).TooDeep? <==> AllSevens(Slots(levels), 0)
    ensures CascadeOf(levels).Lands? ==> CascadeOf(levels).target < MAX_LEVELS
  {
    var slots := Slots(levels);
    SlotRuns(levels);
    assert Unit(0) == L0_TRIGGER;
    CascadeIsIncrement(slots, 0);
    match CascadeOf(levels)
    case Lands(target, _) => assert Digit(slots[target], 0 + target) != 7;
    case TooDeep =>
  }

  // ---------------------------------------------------------------- reads of one head

  /** Reading any block up to the head is reading the flat history of its packages. */
  lemma HeadReadsFlat(h: Head, ps: seq<Package>, mayContain: (Run, Bytes) -> bool, key: Bytes, block: nat)
    requires HeadOk(h, ps) && NoFalseNegatives(mayContain, Runs(h)) && block <= h.number
    ensures Read(Runs(h), mayContain, key, block) == FlatRead(ps, key, block)
  {
    ReadIsAnswer(Runs(h), 0, mayContain, Events(ps), key, block);
    forall r | r in Events(ps) ensures 0 <= r.block <= h.number { EventsBound(ps, r); }
    assert Between(Events(ps), 0, h.number) == Events(ps);
    ConcatEvents(ps);
    FlatIsAnswer(Concat(ps), key, block);
    EventsUnique(ps);
    AnswerUnique(Events(ps), key, block, Read(Runs(h), mayContain, key, block), FlatRead(ps, key, block));
  }

  // ---------------------------------------------------------------- histories of commits

  datatype Commit = Appended(head: Head, package: Package) | Compacted(head: Head)

  /** A commit replaces `previous` by one publication or one compaction of it. */
  ghost predicate Commits(previous: Option<Head>, c: Commit)
  {
    match c
    case Appended(head, p) =>
      && Publishable(p) && Follows(previous, p)
      && (previous.Some? ==> |previous.value.l0| < MAX_L0_BACKLOG)
      && head == Append(previous, p)
    case Compacted(head) =>
      && previous.Some? && |previous.value.l0| >= L0_TRIGGER
      && var levels := NewLevels(previous.value.levels, previous.value.l0[..L0_TRIGGER]);
         levels.Some? && head == Compact(previous.value, levels.value)
  }

  function Current(log: seq<Commit>): Option<Head>
  {
    if log == [] then None else Some(log[|log| - 1].head)
  }

  ghost predicate Log(log: seq<Commit>)
  {
    log == [] || (Log(log[..|log| - 1]) && Commits(Current(log[..|log| - 1]), log[|log| - 1]))
  }

  function Packages(log: seq<Commit>): seq<Package>
  {
    if log == [] then []
    else
      var c := log[|log| - 1];
      Packages(log[..|log| - 1]) + (if c.Appended? then [c.package] else [])
  }

  lemma {:induction false} LogPrefix(log: seq<Commit>, n: nat)
    requires Log(log) && n <= |log|
    ensures Log(log[..n])
  {
    if n < |log| {
      LogPrefix(log[..|log| - 1], n);
      assert log[..|log| - 1][..n] == log[..n];
    } else {
      assert log[..n] == log;
    }
  }

  lemma CommitKeeps(h: Head, ps: seq<Package>, c: Commit)
    requires HeadOk(h, ps) && Commits(Some(h), c)
    ensures HeadOk(c.head, if c.Appended? then ps + [c.package] else ps)
  {
    match c
    case Appended(_, p) => AppendKeeps(h, ps, p);
    case Compacted(_) => CompactKeeps(h, ps, NewLevels(h.levels, h.l0[..L0_TRIGGER]).value);
  }

  /** Every head of a history is in step with the packages published by then. */
  lemma {:induction false} LogHeadOk(log: seq<Commit>)
    requires Log(log) && log != []
    ensures HeadOk(log[|log| - 1].head, Packages(log))
  {
    var init, c := log[..|log| - 1], log[|log| - 1];
    if init != [] {
      LogHeadOk(init);
      CommitKeeps(init[|init| - 1].head, Packages(init), c);
      assert Packages(log) == if c.Appended? then Packages(init) + [c.package] else Packages(init);
    } else {
      assert Packages(log) == [c.package];
      GenesisKeeps(c.package);
    }
  }

  lemma {:induction false} PackagesPrefix(log: seq<Commit>, n: nat)
    requires n <= |log|
    ensures |Packages(log[..n])| <= |Packages(log)|
    ensures Packages(log)[..|Packages(log[..n])|] == Packages(log[..n])
  {
    if n < |log| {
      var init := log[..|log| - 1];
      assert init[..n] == log[..n];
      PackagesPrefix(init, n);
    } else {
      assert log[..n] == log;
    }
  }

  lemma HeadEnds(h: Head, ps: seq<Package>)
    requires HeadOk(h, ps)
    ensures Chain(ps) && ps != [] && ps[|ps| - 1].blocks != [] && ps[|ps| - 1].End() == h.number
  {
  }

  /**
   Every head ever committed answers every block up to its own number exactly as the flat
   history of all packages published by the end does: later commits change no earlier answer.
   */
  lemma EveryHeadReadsFlat(
    log: seq<Commit>, i: nat, mayContain: (Run, Bytes) -> bool, key: Bytes, block: nat)
    requires Log(log) && i < |log|
    requires NoFalseNegatives(mayContain, Runs(log[i].head)) && block <= log[i].head.number
    ensures Read(Runs(log[i].head), mayContain, key, block) == FlatRead(Packages(log), key, block)
  {
    hide Log, HeadOk, Chain, Read, FlatRead, NoFalseNegatives, Packages;
    var past, h := log[..i + 1], log[i].head;
    LogPrefix(log, i + 1);
    LogHeadOk(past);
    assert past[|past| - 1].head == h;
    var ps, all := Packages(past), Packages(log);
    HeadReadsFlat(h, ps, mayContain, key, block);
    PackagesPrefix(log, i + 1);
    LogHeadOk(log);
    HeadEnds(log[|log| - 1].head, all);
    HeadEnds(h, ps);
    assert all[|ps| - 1] == ps[|ps| - 1];
    FlatStable(all, |ps|, key, block);
  }
}
