/**
 The tiered head: its inline manifest, the structural checks every reader makes,
 and the level cascade a compaction performs on it.
 */
module Head {
  import opened Bytes
  import opened Versions
  import Merge

  const L0_TRIGGER := 4
  const MAX_L0_BACKLOG := 16
  const FANOUT := 8
  const MAX_LEVELS := 8

  type Hash = Bytes

  /**
   One immutable run of the manifest. A root reference addresses its run by content,
   so the run's records stand for its root here.
   */
  datatype Run = Run(start: nat, end: nat, weight: nat, records: seq<Record>)

  /** `parent` is the head this one replaced, which the source holds by digest. */
  datatype Head = Head(
    genesis: Hash, number: nat, hash: Hash, stateRoot: Hash, input: Hash,
    parent: Option<Head>, l0: seq<Run>, levels: seq<Option<Run>>)

  // ---------------------------------------------------------------- manifest order

  /** Runs of the levels, oldest first: the highest level comes first. */
  function LevelRuns(levels: seq<Option<Run>>): seq<Run>
  {
    if levels == [] then []
    else LevelRuns(levels[1..]) + (if levels[0].Some? then [levels[0].value] else [])
  }

  function Runs(h: Head): seq<Run> { LevelRuns(h.levels) + h.l0 }

  lemma {:induction false} LevelRunsConcat(low: seq<Option<Run>>, high: seq<Option<Run>>)
    ensures LevelRuns(low + high) == LevelRuns(high) + LevelRuns(low)
  {
    if low != [] {
      LevelRunsConcat(low[1..], high);
      assert (low + high)[1..] == low[1..] + high;
    } else {
      assert low + high == high;
    }
  }

  // ---------------------------------------------------------------- units and digits

  function Pow8(n: nat): (p: nat)
    ensures p > 0
  {
    if n == 0 then 1 else FANOUT * Pow8(n - 1)
  }

  function Unit(level: nat): (u: nat)
    ensures u > 0
  {
    L0_TRIGGER * Pow8(level)
  }

  /** The weight a level must have: a multiple `1..7` of its unit, or no run at all. */
  predicate LevelOk(level: Option<Run>, index: nat)
  {
    level.Some? ==>
      && level.value.weight != 0
      && level.value.weight % Unit(index) == 0
      && level.value.weight < Unit(index) * FANOUT
  }

  ghost predicate LevelsOk(levels: seq<Option<Run>>, from: nat)
  {
    forall i :: 0 <= i < |levels| ==> LevelOk(levels[i], from + i)
  }

  /** Units held by a level: its base-8 digit. */
  function Digit(level: Option<Run>, index: nat): nat
  {
    if level.Some? then level.value.weight / Unit(index) else 0
  }

  lemma DigitWeight(level: Option<Run>, index: nat)
    requires LevelOk(level, index)
    ensures Digit(level, index) < FANOUT
    ensures level.Some? ==> level.value.weight == Digit(level, index) * Unit(index) && Digit(level, index) > 0
  {
    if level.Some? { Quotient(level.value.weight, Unit(index)); }
  }

  lemma Quotient(w: nat, u: nat)
    requires u > 0 && w > 0 && w % u == 0 && w < u * FANOUT
    ensures 0 < w / u < FANOUT && w == (w / u) * u
  {
    var q := w / u;
    assert w == u * q;
    assert q >= FANOUT ==> u * q >= u * FANOUT;
  }

  function Weight(runs: seq<Run>): nat
  {
    if runs == [] then 0 else Weight(runs[..|runs| - 1]) + runs[|runs| - 1].weight
  }

  lemma {:induction false} WeightConcat(a: seq<Run>, b: seq<Run>)
    ensures Weight(a + b) == Weight(a) + Weight(b)
  {
    if b == [] {
      assert a + b == a;
    } else {
      WeightConcat(a, b[..|b| - 1]);
      assert (a + b)[..|a + b| - 1] == a + b[..|b| - 1];
    }
  }

  // ---------------------------------------------------------------- structural checks

  /** Adjacent runs cover `start` through the last run's end without gap or overlap. */
  predicate Contiguous(runs: seq<Run>, start: nat)
  {
    runs == [] || (
      && runs[0].start == start
      && runs[0].start <= runs[0].end
      && Contiguous(runs[1..], runs[0].end + 1))
  }

  function EndOf(runs: seq<Run>, start: nat): nat
  {
    if runs == [] then start else runs[|runs| - 1].end + 1
  }

  /** The checks of `Head::decode` on the manifest. */
  ghost predicate Wellformed(h: Head)
  {
    && |h.l0| <= MAX_L0_BACKLOG
    && |h.levels| <= MAX_LEVELS
    && (forall i :: 0 <= i < |h.l0| ==> h.l0[i].weight == 1)
    && LevelsOk(h.levels, 0)
    && Runs(h) != []
    && Contiguous(Runs(h), 0)
    && EndOf(Runs(h), 0) == h.number + 1
  }

  /** Every check of `Head::decode`, in its order, with its running cursor. */
  method Decode(h: Head) returns (ok: bool)
    ensures ok <==> Wellformed(h)
  {
    if |h.l0| > MAX_L0_BACKLOG || |h.levels| > MAX_LEVELS {
      return false;
    }
    for i := 0 to |h.l0|
      invariant forall k :: 0 <= k < i ==> h.l0[k].weight == 1
    {
      if h.l0[i].weight != 1 { return false; }
    }
    for i := 0 to |h.levels|
      invariant LevelsOk(h.levels[..i], 0)
    {
      assert h.levels[..i + 1] == h.levels[..i] + [h.levels[i]];
      if !LevelOk(h.levels[i], i) { return false; }
    }
    assert h.levels[..|h.levels|] == h.levels;
    var runs := Runs(h);
    var expectedStart: nat := 0;
    for i := 0 to |runs|
      invariant Contiguous(runs, 0) <==> Contiguous(runs[i..], expectedStart)
      invariant expectedStart == EndOf(runs[..i], 0)
    {
      if runs[i].start != expectedStart || runs[i].start > runs[i].end {
        return false;
      }
      assert runs[i..][1..] == runs[i + 1..];
      expectedStart := runs[i].end + 1;
      assert runs[..i + 1][|runs[..i + 1]| - 1] == runs[i];
    }
    assert runs[..|runs|] == runs;
    ok := |runs| > 0 && expectedStart == h.number + 1;
  }

  lemma {:induction false} ContiguousConcat(a: seq<Run>, b: seq<Run>, start: nat)
    ensures Contiguous(a + b, start) <==> Contiguous(a, start) && Contiguous(b, EndOf(a, start))
  {
    if a == [] {
      assert a + b == b;
    } else {
      assert (a + b)[1..] == a[1..] + b;
      ContiguousConcat(a[1..], b, a[0].end + 1);
      if |a| == 1 { assert a[1..] == []; }
    }
  }

  // ---------------------------------------------------------------- the cascade

  /** Where the four oldest L0 runs go: the level they land in and the weight they reach. */
  datatype Cascade =
    | Lands(target: nat, weight: nat)
    | TooDeep
    | CapacityExceeded

  /** Levels as the cascade walks them: padded with empty levels up to the bound. */
  function Slots(levels: seq<Option<Run>>): (slots: seq<Option<Run>>)
    ensures |slots| == MAX_LEVELS
  {
    seq(MAX_LEVELS, i requires i >= 0 => if i < |levels| then levels[i] else None)
  }

  function LevelWeight(level: Option<Run>): nat
  {
    if level.Some? then level.value.weight else 0
  }

  /** The cascade through `slots`, the levels from `index` up. */
  function CascadeFrom(slots: seq<Option<Run>>, index: nat, weight: nat): (c: Cascade)
    decreases |slots|
  {
    if slots == [] then TooDeep
    else
      var total := weight + LevelWeight(slots[0]);
      if total < Unit(index) * FANOUT then Lands(index, total)
      else if total != Unit(index) * FANOUT then CapacityExceeded
      else CascadeFrom(slots[1..], index + 1, total)
  }

  function CascadeOf(levels: seq<Option<Run>>): Cascade
  {
    CascadeFrom(Slots(levels), 0, L0_TRIGGER)
  }

  /** The runs a cascade into `target` absorbs, oldest first. */
  function Absorbed(levels: seq<Option<Run>>, target: nat): seq<Run>
    requires target < MAX_LEVELS
  {
    LevelRuns(Slots(levels)[..target + 1])
  }

  function Reverse(runs: seq<Run>): seq<Run>
  {
    if runs == [] then [] else [runs[|runs| - 1]] + Reverse(runs[..|runs| - 1])
  }

  /** The loop of `compact_once`: full levels are taken into `deeper` newest first. */
  method FindTarget(levels: seq<Option<Run>>)
    returns (c: Cascade, deeper: seq<Run>, rest: seq<Option<Run>>)
    ensures c == CascadeOf(levels)
    ensures c.Lands? ==> c.target < MAX_LEVELS && Reverse(deeper) == Absorbed(levels, c.target)
    ensures c.Lands? ==> |rest| == (if |levels| > c.target then |levels| else c.target + 1)
    ensures c.Lands? ==> forall i :: 0 <= i < |rest| ==>
      rest[i] == if i <= c.target then None else levels[i]
  {
    hide Unit, LevelRuns, CascadeFrom, Reverse, Slots;
    rest := levels;
    var weight: nat := L0_TRIGGER;
    deeper := [];
    var target: nat := 0;
    ghost var slots := Slots(levels);
    assert slots[0..] == slots;
    CascadeStart(slots);
    while true
      invariant target <= MAX_LEVELS
      invariant |rest| == if |levels| >= target then |levels| else target
      invariant forall i :: 0 <= i < |rest| ==> rest[i] == if i < target then None else levels[i]
      invariant CascadeOf(levels) == CascadeFrom(slots[target..], target, weight)
      invariant Reverse(deeper) == LevelRuns(slots[..target])
      decreases MAX_LEVELS - target
    {
      CascadeUnfold(slots, target, weight);
      if target >= MAX_LEVELS {
        return TooDeep, deeper, rest;
      }
      if |rest| == target {
        rest := rest + [None];
      }
      SlotAt(levels, target);
      OneMoreLevel(slots, target);
      if rest[target].Some? {
        weight := weight + rest[target].value.weight;
        ReverseMore(deeper, rest[target].value);
        deeper := deeper + [rest[target].value];
        rest := rest[target := None];
      }
      if weight < Unit(target) * FANOUT {
        break;
      }
      if weight != Unit(target) * FANOUT {
        return CapacityExceeded, deeper, rest;
      }
      target := target + 1;
    }
    c := Lands(target, weight);
  }

  lemma CascadeStart(slots: seq<Option<Run>>)
    ensures Reverse([]) == [] && LevelRuns(slots[..0]) == []
  {
  }

  lemma SlotAt(levels: seq<Option<Run>>, i: nat)
    requires i < MAX_LEVELS
    ensures Slots(levels)[i] == if i < |levels| then levels[i] else None
  {
  }

  lemma ReverseMore(runs: seq<Run>, r: Run)
    ensures Reverse(runs + [r]) == [r] + Reverse(runs)
  {
    assert (runs + [r])[..|runs|] == runs;
  }

  lemma CascadeUnfold(slots: seq<Option<Run>>, index: nat, weight: nat)
    requires index <= |slots|
    ensures CascadeFrom(slots[index..], index, weight)
      == (if index == |slots| then TooDeep
          else
            var total := weight + LevelWeight(slots[index]);
            if total < Unit(index) * FANOUT then Lands(index, total)
            else if total != Unit(index) * FANOUT then CapacityExceeded
            else CascadeFrom(slots[index + 1..], index + 1, total))
  {
    hide Unit;
    if index < |slots| { assert slots[index..][1..] == slots[index + 1..]; }
  }

  lemma OneMoreLevel(slots: seq<Option<Run>>, target: nat)
    requires target < |slots|
    ensures LevelRuns(slots[..target + 1])
      == (if slots[target].Some? then [slots[target].value] else []) + LevelRuns(slots[..target])
  {
    assert slots[..target + 1] == slots[..target] + [slots[target]];
    LevelRunsConcat(slots[..target], [slots[target]]);
    assert LevelRuns([slots[target]]) == if slots[target].Some? then [slots[target].value] else [];
  }

  ghost predicate AllSevens(slots: seq<Option<Run>>, index: nat)
  {
    forall i :: 0 <= i < |slots| ==> Digit(slots[i], index + i) == 7
  }

  /** The carry of one unit either fits in the first level or becomes a unit of the next. */
  lemma CascadeStep(slots: seq<Option<Run>>, index: nat)
    requires slots != [] && LevelsOk(slots, index)
    ensures var d := Digit(slots[0], index);
      var c := CascadeFrom(slots, index, Unit(index));
      if d < 7 then c == Lands(index, (d + 1) * Unit(index))
      else d == 7 && c == CascadeFrom(slots[1..], index + 1, Unit(index + 1))
  {
    assert LevelOk(slots[0], index + 0);
    DigitWeight(slots[0], index);
    var d, u := Digit(slots[0], index), Unit(index);
    assert Unit(index + 1) == u * FANOUT;
    assert u + d * u == (d + 1) * u;
    assert d < 7 ==> (d + 1) * u < 8 * u;
  }

  lemma LevelsOkTail(slots: seq<Option<Run>>, index: nat)
    requires slots != [] && LevelsOk(slots, index)
    ensures LevelsOk(slots[1..], index + 1)
  {
    var rest := slots[1..];
    forall i | 0 <= i < |rest| ensures LevelOk(rest[i], index + 1 + i) {
      assert LevelOk(slots[i + 1], index + (i + 1));
    }
  }

  /** Levels `from..to` all hold digit seven, and level `to` holds a smaller one. */
  ghost predicate FirstBelowSeven(slots: seq<Option<Run>>, index: nat, at: nat)
  {
    && at < |slots|
    && AllSevens(slots[..at], index)
    && Digit(slots[at], index + at) < 7
  }

  lemma FirstBelowSevenStep(slots: seq<Option<Run>>, index: nat, at: nat)
    requires slots != [] && Digit(slots[0], index) == 7
    requires FirstBelowSeven(slots[1..], index + 1, at)
    ensures FirstBelowSeven(slots, index, at + 1)
  {
    assert slots[..at + 1][1..] == slots[1..][..at];
    SevensBelow(slots[..at + 1], index);
    assert slots[1..][at] == slots[at + 1] && index + 1 + at == index + (at + 1);
  }

  /**
   A cascade is the increment of a base-8 counter: it passes exactly the sevens, lands
   on the first smaller digit and adds one to it.
   */
  lemma {:induction false} CascadeIsIncrement(slots: seq<Option<Run>>, index: nat)
    requires LevelsOk(slots, index)
    ensures match CascadeFrom(slots, index, Unit(index))
      case CapacityExceeded => false
      case TooDeep => AllSevens(slots, index)
      case Lands(t, w) =>
        && t >= index
        && FirstBelowSeven(slots, index, t - index)
        && w == (Digit(slots[t - index], t) + 1) * Unit(t)
  {
    hide Unit, Digit, LevelsOk;
    if slots != [] {
      CascadeStep(slots, index);
      if Digit(slots[0], index) == 7 {
        LevelsOkTail(slots, index);
        CascadeIsIncrement(slots[1..], index + 1);
        match CascadeFrom(slots[1..], index + 1, Unit(index + 1))
        case TooDeep => SevensBelow(slots, index);
        case Lands(t, w) =>
          FirstBelowSevenStep(slots, index, t - index - 1);
          assert slots[1..][t - index - 1] == slots[t - index];
      }
    }
  }

  lemma SevensBelow(slots: seq<Option<Run>>, index: nat)
    requires slots != [] && Digit(slots[0], index) == 7
    ensures AllSevens(slots, index) <==> AllSevens(slots[1..], index + 1)
  {
    var rest := slots[1..];
    assert forall i :: 0 <= i < |rest| ==> rest[i] == slots[i + 1] && index + 1 + i == index + (i + 1);
    if AllSevens(rest, index + 1) {
      forall i | 0 <= i < |slots| ensures Digit(slots[i], index + i) == 7 {
        if i > 0 { assert Digit(rest[i - 1], index + 1 + (i - 1)) == 7; }
      }
    }
  }

  /** The weight of the landing run is everything the cascade carried and absorbed. */
  lemma {:induction false} CascadeWeight(slots: seq<Option<Run>>, index: nat, weight: nat)
    ensures var c := CascadeFrom(slots, index, weight);
      c.Lands? ==>
        && index <= c.target < index + |slots|
        && c.weight == weight + Weight(LevelRuns(slots[..c.target - index + 1]))
  {
    hide Unit, LevelRuns, Weight;
    var c := CascadeFrom(slots, index, weight);
    if c.Lands? {
      var k := c.target - index;
      if weight + LevelWeight(slots[0]) < Unit(index) * FANOUT {
        FirstWeight(slots, 1);
        NothingWeighs(slots[..1][1..]);
      } else {
        CascadeWeight(slots[1..], index + 1, weight + LevelWeight(slots[0]));
        FirstWeight(slots, k + 1);
        assert slots[1..][..k] == slots[..k + 1][1..];
      }
    }
  }

  lemma FirstWeight(slots: seq<Option<Run>>, n: nat)
    requires 0 < n <= |slots|
    ensures Weight(LevelRuns(slots[..n])) == LevelWeight(slots[0]) + Weight(LevelRuns(slots[..n][1..]))
  {
    var taken := if slots[0].Some? then [slots[0].value] else [];
    WeightConcat(LevelRuns(slots[..n][1..]), taken);
    assert Weight(taken) == LevelWeight(slots[0]) by {
      if taken != [] { assert taken[..0] == []; }
    }
  }

  lemma NothingWeighs(slots: seq<Option<Run>>)
    requires slots == []
    ensures Weight(LevelRuns(slots)) == 0
  {
  }

  lemma {:induction false} NoRuns(levels: seq<Option<Run>>)
    requires forall i :: 0 <= i < |levels| ==> levels[i].None?
    ensures LevelRuns(levels) == []
  {
    if levels != [] { NoRuns(levels[1..]); }
  }

  lemma SlotRuns(levels: seq<Option<Run>>)
    requires |levels| <= MAX_LEVELS
    ensures LevelRuns(Slots(levels)) == LevelRuns(levels)
    ensures LevelsOk(levels, 0) ==> LevelsOk(Slots(levels), 0)
  {
    hide LevelRuns, Unit;
    var padding := Slots(levels)[|levels|..];
    assert Slots(levels) == levels + padding;
    LevelRunsConcat(levels, padding);
    NoRuns(padding);
  }
}
