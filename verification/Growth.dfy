/**
 How heads move: every commit makes progress, levels count compacted packages in base
 eight, and no package is rewritten more than 56 times.
 */
module Growth {
  import opened Bytes
  import opened Head
  import opened Ledger
  import opened History
  import opened Commits

  // ---------------------------------------------------------------- progress

  /** The block number grows, or at the same number the L0 list shrinks. */
  predicate Advances(h: Head, k: Head)
  {
    h.number < k.number || (h.number == k.number && |k.l0| < |h.l0|)
  }

  lemma CommitAdvances(h: Head, c: Commit)
    requires Commits.Commits(Some(h), c)
    ensures Advances(h, c.head)
    ensures c.Compacted? ==> c.head.number == h.number && c.head.hash == h.hash
    ensures c.head.genesis == h.genesis && c.head.parent == Some(h)
  {
    if c.Appended? { StartToEnd(c.package); }
  }

  /** Progress along a history: heads never return to an earlier content. */
  lemma {:induction false} LogAdvances(log: seq<Commit>, i: nat, j: nat)
    requires Log(log) && i < j < |log|
    ensures Advances(log[i].head, log[j].head)
    ensures log[i].head.genesis == log[j].head.genesis
    decreases |log|
  {
    var init := log[..|log| - 1];
    if j < |log| - 1 {
      LogAdvances(init, i, j);
    } else {
      CommitAdvances(init[|init| - 1].head, log[j]);
      if i < |init| - 1 { LogAdvances(init, i, |init| - 1); }
    }
  }

  /** Each head's parent is the head committed just before it. */
  lemma {:induction false} LogParents(log: seq<Commit>, i: nat)
    requires Log(log) && i < |log|
    ensures log[i].head.parent == if i == 0 then None else Some(log[i - 1].head)
    decreases |log|
  {
    var init := log[..|log| - 1];
    if i < |init| { LogParents(init, i); }
    else if i > 0 { CommitAdvances(init[i - 1].head, log[i]); }
  }

  /** No package is ever appended twice. */
  lemma PackagesOnce(log: seq<Commit>, i: nat, j: nat)
    requires Log(log) && i < j < |Packages(log)|
    ensures Packages(log)[i] != Packages(log)[j]
    ensures Packages(log)[i].End() < Packages(log)[j].Start()
  {
    LogHeadOk(log);
    ChainOrder(Packages(log), i, j);
    StartToEnd(Packages(log)[j]);
  }

  // ---------------------------------------------------------------- compacted weight

  function Compacted(h: Head): nat { Weight(LevelRuns(h.levels)) }

  /** A compaction moves four packages into the levels; a publication moves none. */
  lemma CompactedGrows(h: Head, ps: seq<Package>, c: Commit)
    requires HeadOk(h, ps) && Commits.Commits(Some(h), c)
    ensures Compacted(c.head) == Compacted(h) + (if c.Compacted? then L0_TRIGGER else 0)
  {
    if c.Compacted? {
      CommitKeeps(h, ps, c);
      WeightConcat(LevelRuns(h.levels), h.l0);
      WeightConcat(LevelRuns(c.head.levels), c.head.l0);
      OnesWeight(h.l0);
      OnesWeight(c.head.l0);
    }
  }

  lemma LastCompacted(log: seq<Commit>)
    requires Log(log) && |log| > 1
    ensures Compacted(log[|log| - 1].head)
      == Compacted(log[|log| - 2].head) + (if log[|log| - 1].Compacted? then L0_TRIGGER else 0)
  {
    var init := log[..|log| - 1];
    LogHeadOk(init);
    CompactedGrows(init[|init| - 1].head, Packages(init), log[|log| - 1]);
  }

  /** Compacted weight along a history: it never falls, and rises with every compaction. */
  lemma {:induction false} LogCompacted(log: seq<Commit>, i: nat, j: nat)
    requires Log(log) && i < j < |log|
    ensures Compacted(log[i].head) <= Compacted(log[j].head)
    ensures log[j].Compacted? ==> Compacted(log[i].head) < Compacted(log[j].head)
    decreases |log|
  {
    hide Commits.Commits;
    var init := log[..|log| - 1];
    if j < |log| - 1 {
      LogCompacted(init, i, j);
    } else {
      LastCompacted(log);
      if i < |init| - 1 { LogCompacted(init, i, |init| - 1); }
    }
  }

  /** Two compactions that planned from the same levels never both commit. */
  lemma SamePlanCommitsOnce(log: seq<Commit>, i: nat, j: nat)
    requires Log(log) && 0 < i < j < |log| && log[i].Compacted? && log[j].Compacted?
    ensures log[i - 1].head.levels != log[j - 1].head.levels
  {
    LogCompacted(log, i - 1, i);
    if i < j - 1 { LogCompacted(log, i, j - 1); }
  }

  // ---------------------------------------------------------------- levels are base-8 digits

  function Value(slots: seq<Option<Run>>, index: nat): nat
  {
    if slots == [] then 0 else Digit(slots[0], index) + FANOUT * Value(slots[1..], index + 1)
  }

  lemma {:induction false} ValueWeight(slots: seq<Option<Run>>, index: nat)
    requires LevelsOk(slots, index)
    ensures Weight(LevelRuns(slots)) == Unit(index) * Value(slots, index)
  {
    if slots != [] {
      LevelsOkTail(slots, index);
      ValueWeight(slots[1..], index + 1);
      assert LevelOk(slots[0], index + 0);
      DigitWeight(slots[0], index);
      var here := if slots[0].Some? then [slots[0].value] else [];
      WeightConcat(LevelRuns(slots[1..]), here);
      assert Weight(here) == Digit(slots[0], index) * Unit(index) by {
        if here != [] { assert here[..0] == []; }
      }
      Distribute(Unit(index), Digit(slots[0], index), Value(slots[1..], index + 1));
    }
  }

  lemma Distribute(u: nat, d: nat, v: nat)
    ensures u * FANOUT * v + d * u == u * (d + FANOUT * v)
  {
  }

  lemma {:induction false} ValueDigit(slots: seq<Option<Run>>, index: nat, i: nat)
    requires LevelsOk(slots, index) && i < |slots|
    ensures (Value(slots, index) / Pow8(i)) % FANOUT == Digit(slots[i], index + i)
  {
    hide Digit, Unit;
    assert LevelOk(slots[0], index + 0);
    DigitWeight(slots[0], index);
    var d, v := Digit(slots[0], index), Value(slots[1..], index + 1);
    if i > 0 {
      LevelsOkTail(slots, index);
      ValueDigit(slots[1..], index + 1, i - 1);
      assert slots[1..][i - 1] == slots[i] && index + 1 + (i - 1) == index + i;
      ShiftDigit(d, v, Pow8(i - 1));
    }
  }

  lemma ShiftDigit(d: nat, v: nat, p: nat)
    requires d < FANOUT && p > 0
    ensures (d + FANOUT * v) / (FANOUT * p) == v / p
  {
    var q, r := v / p, v % p;
    var w := d + FANOUT * r;
    assert FANOUT * v + d == (FANOUT * p) * q + w;
    assert 0 <= w < FANOUT * p;
    DivUnique(FANOUT * p, q, w);
  }

  lemma DivUnique(n: nat, q: nat, w: nat)
    requires 0 <= w < n
    ensures (n * q + w) / n == q
  {
    var x := n * q + w;
    var a, b := x / n, x % n;
    assert n * (a - q) == w - b;
    assert a - q >= 1 ==> n * (a - q) >= n;
    assert a - q <= -1 ==> n * (a - q) <= -1 * n;
  }

  lemma SlotsAreDigits(slots: seq<Option<Run>>, i: nat)
    requires LevelsOk(slots, 0) && i < |slots|
    ensures var w := Weight(LevelRuns(slots));
      w % L0_TRIGGER == 0 && Digit(slots[i], i) == (w / L0_TRIGGER / Pow8(i)) % FANOUT
  {
    ValueWeight(slots, 0);
    ValueDigit(slots, 0, i);
    Quarter(Weight(LevelRuns(slots)), Value(slots, 0));
  }

  lemma Quarter(w: nat, v: nat)
    requires w == Unit(0) * v
    ensures w % L0_TRIGGER == 0 && w / L0_TRIGGER == v
  {
  }

  /** Level `i` holds digit `i` of the compacted packages, counted in fours, in base eight. */
  lemma LevelsAreDigits(h: Head, ps: seq<Package>, i: nat)
    requires HeadOk(h, ps) && i < MAX_LEVELS
    ensures Compacted(h) % L0_TRIGGER == 0
    ensures Digit(Slots(h.levels)[i], i) == (Compacted(h) / L0_TRIGGER / Pow8(i)) % FANOUT
    ensures Compacted(h) + |h.l0| == |ps|
  {
    SlotRuns(h.levels);
    SlotsAreDigits(Slots(h.levels), i);
    WeightConcat(LevelRuns(h.levels), h.l0);
    OnesWeight(h.l0);
  }

  // ---------------------------------------------------------------- rewriting cost

  /** The packages a compaction of `h` rewrites, by their position in publication order. */
  ghost predicate Rewritten(h: Head, package: nat)
  {
    |h.l0| >= L0_TRIGGER &&
    match CascadeOf(h.levels)
    case Lands(target, _) =>
      && target < MAX_LEVELS
      && Weight(Older(h, target)) <= package < Weight(Older(h, target)) + Weight(Inputs(h, target))
    case _ => false
  }

  /** How many committed compactions have rewritten a package. */
  ghost function Rewrites(log: seq<Commit>, package: nat): nat
  {
    if log == [] then 0
    else
      var init, c := log[..|log| - 1], log[|log| - 1];
      Rewrites(init, package) +
      (if c.Compacted? && init != [] && Rewritten(init[|init| - 1].head, package) then 1 else 0)
  }

  /** `7i + d` for the level `i` of digit `d` that holds a package. */
  function Cost(slots: seq<Option<Run>>, index: nat, package: nat): nat
  {
    if slots == [] then 0
    else if package >= Weight(LevelRuns(slots[1..])) then 7 * index + Digit(slots[0], index)
    else Cost(slots[1..], index + 1, package)
  }

  function Bound(h: Head, package: nat): nat
  {
    if package >= Compacted(h) then 0 else Cost(Slots(h.levels), 0, package)
  }

  lemma WeightTail(slots: seq<Option<Run>>)
    requires slots != []
    ensures Weight(LevelRuns(slots)) == Weight(LevelRuns(slots[1..])) + LevelWeight(slots[0])
  {
    var here := if slots[0].Some? then [slots[0].value] else [];
    WeightConcat(LevelRuns(slots[1..]), here);
    if here != [] { assert here[..0] == []; }
  }

  lemma {:induction false} WeightAbove(slots: seq<Option<Run>>, t: nat)
    requires t < |slots|
    ensures Weight(LevelRuns(slots[t + 1..])) <= Weight(LevelRuns(slots[1..]))
  {
    if t > 0 {
      assert slots[1..][t..] == slots[t + 1..] && slots[1..][1..] == slots[2..];
      WeightAbove(slots[1..], t - 1);
      WeightTail(slots[1..]);
    }
  }

  /** Everything from the target level down costs at most what the target level costs. */
  lemma {:induction false} CostBelow(slots: seq<Option<Run>>, index: nat, t: nat, package: nat)
    requires t < |slots| && AllSevens(slots[..t], index)
    requires package >= Weight(LevelRuns(slots[t + 1..]))
    ensures Cost(slots, index, package) <= 7 * (index + t) + Digit(slots[t], index + t)
  {
    if t > 0 {
      assert Digit(slots[..t][0], index + 0) == 7;
      SevensBelow(slots[..t], index);
      assert slots[..t][1..] == slots[1..][..t - 1];
      assert slots[1..][t..] == slots[t + 1..];
      CostBelow(slots[1..], index + 1, t - 1, package);
    }
  }

  /** A package in the target level, with nothing below it, costs exactly what that level costs. */
  lemma {:induction false} CostAt(slots: seq<Option<Run>>, index: nat, t: nat, package: nat)
    requires t < |slots| && forall i :: 0 <= i < t ==> slots[i].None?
    requires Weight(LevelRuns(slots[t + 1..])) <= package < Weight(LevelRuns(slots))
    ensures Cost(slots, index, package) == 7 * (index + t) + Digit(slots[t], index + t)
  {
    if t > 0 {
      WeightTail(slots);
      assert slots[1..][t..] == slots[t + 1..];
      CostAt(slots[1..], index + 1, t - 1, package);
    }
  }

  /** A package above the target level costs what it did. */
  lemma {:induction false} CostAbove(slots: seq<Option<Run>>, other: seq<Option<Run>>, index: nat, t: nat, package: nat)
    requires |slots| == |other| && t < |slots| && slots[t + 1..] == other[t + 1..]
    requires package < Weight(LevelRuns(slots[t + 1..]))
    ensures Cost(slots, index, package) == Cost(other, index, package)
  {
    WeightAbove(slots, t);
    WeightAbove(other, t);
    if t > 0 {
      assert slots[1..][t..] == slots[t + 1..] && other[1..][t..] == other[t + 1..];
      CostAbove(slots[1..], other[1..], index + 1, t - 1, package);
    }
  }

  lemma NewSlots(levels: seq<Option<Run>>, target: nat, run: Run)
    requires |levels| <= MAX_LEVELS && target < MAX_LEVELS
    ensures var slots := Slots(Trim(Replace(levels, target, run)));
      && (forall i :: 0 <= i < target ==> slots[i].None?)
      && slots[target] == Some(run)
      && slots[target + 1..] == Slots(levels)[target + 1..]
  {
    var replaced := Replace(levels, target, run);
    var slots := Slots(Trim(replaced));
    TrimTail(replaced);
    TrimRuns(replaced);
    forall i | 0 <= i < MAX_LEVELS
      ensures slots[i] == if i < target then None else if i == target then Some(run) else Slots(levels)[i]
    {
      if i < |replaced| && i >= |Trim(replaced)| { assert replaced[i].None?; }
    }
  }

  lemma {:induction false} TrimTail(levels: seq<Option<Run>>)
    ensures |Trim(levels)| <= |levels|
    ensures forall i :: |Trim(levels)| <= i < |levels| ==> levels[i].None?
  {
    if levels != [] && levels[|levels| - 1].None? { TrimTail(levels[..|levels| - 1]); }
  }

  lemma CostGrows(slots: seq<Option<Run>>, next: seq<Option<Run>>, t: nat, package: nat)
    requires |slots| == |next| && FirstBelowSeven(slots, 0, t)
    requires (forall i :: 0 <= i < t ==> next[i].None?) && next[t + 1..] == slots[t + 1..]
    requires Digit(next[t], t) == Digit(slots[t], t) + 1
    requires package < Weight(LevelRuns(next))
    ensures Cost(slots, 0, package) + (if package < Weight(LevelRuns(slots[t + 1..])) then 0 else 1)
      <= Cost(next, 0, package)
  {
    if package < Weight(LevelRuns(slots[t + 1..])) {
      CostAbove(slots, next, 0, t, package);
    } else {
      CostAt(next, 0, t, package);
      CostBelow(slots, 0, t, package);
    }
  }

  /** What a compaction does to the padded levels. */
  lemma CompactedSlots(h: Head, ps: seq<Package>, k: Head, t: nat)
    requires HeadOk(h, ps) && Commits.Commits(Some(h), Commit.Compacted(k))
    requires CascadeOf(h.levels).Lands? && CascadeOf(h.levels).target == t
    ensures t < MAX_LEVELS && FirstBelowSeven(Slots(h.levels), 0, t)
    ensures forall i :: 0 <= i < t ==> Slots(k.levels)[i].None?
    ensures Slots(k.levels)[t + 1..] == Slots(h.levels)[t + 1..]
    ensures Digit(Slots(k.levels)[t], t) == Digit(Slots(h.levels)[t], t) + 1
  {
    var run := MergedRun(Inputs(h, t), CascadeOf(h.levels).weight);
    NewSlots(h.levels, t, run);
    LandingOk(h.levels, t, run);
    SlotRuns(h.levels);
    assert Unit(0) == L0_TRIGGER;
    CascadeIsIncrement(Slots(h.levels), 0);
  }

  /** A compaction raises the bound of every package it rewrites, and lowers none. */
  lemma RewriteFits(h: Head, ps: seq<Package>, k: Head, package: nat)
    requires HeadOk(h, ps) && Commits.Commits(Some(h), Commit.Compacted(k))
    ensures Bound(h, package) + (if Rewritten(h, package) then 1 else 0) <= Bound(k, package)
  {
    var t := CascadeOf(h.levels).target;
    CompactedGrows(h, ps, Commit.Compacted(k));
    CompactedSlots(h, ps, k, t);
    SlotWeights(h, t);
    assert Compacted(k) == Weight(LevelRuns(Slots(k.levels))) by {
      CommitKeeps(h, ps, Commit.Compacted(k));
      SlotRuns(k.levels);
    }
    if package < Compacted(k) {
      CostGrows(Slots(h.levels), Slots(k.levels), t, package);
    }
  }

  lemma {:induction false} CostBound(slots: seq<Option<Run>>, index: nat, package: nat)
    requires LevelsOk(slots, index)
    ensures Cost(slots, index, package) <= 7 * (index + |slots|)
  {
    if slots != [] {
      assert LevelOk(slots[0], index + 0);
      DigitWeight(slots[0], index);
      LevelsOkTail(slots, index);
      CostBound(slots[1..], index + 1, package);
    }
  }

  lemma BoundBound(h: Head, ps: seq<Package>, package: nat)
    requires HeadOk(h, ps)
    ensures Bound(h, package) <= 56
  {
    SlotRuns(h.levels);
    CostBound(Slots(h.levels), 0, package);
  }

  /**
   A package at level `i` of digit `d` has been rewritten at most `7i + d` times, and one
   still in L0 never; no package is ever rewritten more than 56 times.
   */
  lemma {:induction false} RewritesBounded(log: seq<Commit>, package: nat)
    requires Log(log) && log != []
    ensures Rewrites(log, package) <= Bound(log[|log| - 1].head, package) <= 56
  {
    hide Commits.Commits;
    var init, c := log[..|log| - 1], log[|log| - 1];
    LogHeadOk(log);
    BoundBound(c.head, Packages(log), package);
    if init != [] {
      RewritesBounded(init, package);
      LogHeadOk(init);
      LastRewrite(init[|init| - 1].head, Packages(init), c, package);
    }
  }

  lemma LastRewrite(h: Head, ps: seq<Package>, c: Commit, package: nat)
    requires HeadOk(h, ps) && Commits.Commits(Some(h), c)
    ensures Bound(h, package) + (if c.Compacted? && Rewritten(h, package) then 1 else 0)
      <= Bound(c.head, package)
  {
    if c.Compacted? { RewriteFits(h, ps, c.head, package); }
  }

  lemma SlotWeights(h: Head, t: nat)
    requires |h.levels| <= MAX_LEVELS && t < MAX_LEVELS && |h.l0| >= L0_TRIGGER && Ones(h.l0)
    ensures Weight(Older(h, t)) == Weight(LevelRuns(Slots(h.levels)[t + 1..]))
    ensures Weight(Older(h, t)) + Weight(Inputs(h, t)) == Compacted(h) + L0_TRIGGER
    ensures Compacted(h) == Weight(LevelRuns(Slots(h.levels)))
  {
    SlotsAbove(h.levels, t);
    InputsWeight(h, t);
    LevelRunsAround(h.levels, t);
    WeightConcat(Older(h, t), Absorbed(h.levels, t));
    SlotRuns(h.levels);
  }
}
