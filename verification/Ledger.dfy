/**
 The sequence of committed heads, one commit at a time: what a publication and a
 compaction turn a head into, and what every head of such a history therefore answers.
 */
module Ledger {
  import opened Bytes
  import opened Versions
  import opened Head
  import Merge

  const MAX_BLOCKS := 1000

  datatype Mode = Anchor | Delta

  datatype Block = Block(number: nat, hash: Hash, parentHash: Hash, stateRoot: Hash)

  /** A sealed package; `records` are its events as sorted key versions. */
  datatype Package = Package(
    mode: Mode, genesis: Hash, blocks: seq<Block>, preceding: Option<(nat, Hash)>,
    input: Hash, records: seq<Record>)
  {
    function First(): Block requires blocks != [] { blocks[0] }
    function Last(): Block requires blocks != [] { blocks[|blocks| - 1] }
    function Start(): nat { if blocks == [] then 0 else blocks[0].number }
    function End(): nat { if blocks == [] then 0 else blocks[|blocks| - 1].number }
  }

  /** What publication demands of the package alone before it uploads a run. */
  ghost predicate Publishable(p: Package)
  {
    && 0 < |p.blocks| <= MAX_BLOCKS
    && (forall i, j :: 0 <= i < j < |p.blocks| && j == i + 1 ==>
          p.blocks[i].number + 1 == p.blocks[j].number && p.blocks[i].hash == p.blocks[j].parentHash)
    && (forall r :: r in p.records ==> p.Start() <= r.block <= p.End())
    && Sorted(p.records)
  }

  const ZERO_HASH: Hash :=
    [0, 0, 0, 0, 0, 0, 0, 0, 0, 0, 0, 0, 0, 0, 0, 0, 0, 0, 0, 0, 0, 0, 0, 0, 0, 0, 0, 0, 0, 0, 0, 0]

  /** The package continues the chain of the head it was checked against. */
  predicate Follows(previous: Option<Head>, p: Package)
  {
    && p.blocks != []
    && match previous
       case None =>
         p.mode == Anchor && p.First().number == 0 && p.First().hash == p.genesis && p.First().parentHash == ZERO_HASH
       case Some(head) =>
         && p.mode == Delta && head.genesis == p.genesis
         && head.number + 1 == p.First().number
         && p.preceding == Some((head.number, head.hash))
         && p.First().parentHash == head.hash
  }

  function NewRun(p: Package): Run { Run(p.Start(), p.End(), 1, p.records) }

  /** The head a publication proposes on top of `previous`. */
  function Append(previous: Option<Head>, p: Package): Head
    requires p.blocks != []
  {
    var last := p.Last();
    match previous
    case None => Head(p.genesis, last.number, last.hash, last.stateRoot, p.input, None, [NewRun(p)], [])
    case Some(head) =>
      Head(head.genesis, last.number, last.hash, last.stateRoot, p.input, previous,
           head.l0 + [NewRun(p)], head.levels)
  }

  // ---------------------------------------------------------------- compaction

  function RecordsOf(runs: seq<Run>): seq<seq<Record>>
  {
    seq(|runs|, i requires 0 <= i < |runs| => runs[i].records)
  }

  ghost predicate Adjacent(runs: seq<Run>)
  {
    forall i, j :: 0 <= i < j < |runs| && j == i + 1 ==> runs[i].end + 1 == runs[j].start
  }

  function Replace(levels: seq<Option<Run>>, target: nat, run: Run): seq<Option<Run>>
  {
    seq(if |levels| > target then |levels| else target + 1,
        i requires 0 <= i < (if |levels| > target then |levels| else target + 1) =>
          if i < target then None else if i == target then Some(run) else levels[i])
  }

  function Trim(levels: seq<Option<Run>>): seq<Option<Run>>
  {
    if levels != [] && levels[|levels| - 1].None? then Trim(levels[..|levels| - 1]) else levels
  }

  /** The levels a compaction commits, or `None` when it refuses its inputs. */
  ghost function NewLevels(levels: seq<Option<Run>>, oldest: seq<Run>): Option<seq<Option<Run>>>
    requires |oldest| == L0_TRIGGER
  {
    match CascadeOf(levels)
    case Lands(target, weight) =>
      if target >= MAX_LEVELS then None
      else
        var inputs := Absorbed(levels, target) + oldest;
        if Adjacent(inputs) && Merge.Disjoint(RecordsOf(inputs)) then
          Some(Trim(Replace(levels, target, MergedRun(inputs, weight))))
        else None
    case _ => None
  }

  function MergedRun(inputs: seq<Run>, weight: nat): Run
    requires inputs != []
  {
    Run(inputs[0].start, inputs[|inputs| - 1].end, weight, Merge.MergeAll(RecordsOf(inputs)))
  }

  /** The head a compaction proposes on top of `head`. */
  function Compact(head: Head, levels: seq<Option<Run>>): Head
    requires |head.l0| >= L0_TRIGGER
  {
    head.(parent := Some(head), l0 := head.l0[L0_TRIGGER..], levels := levels)
  }

  /**
   `compact_once` up to its commit: cascade, adjacency check, streaming merge, and the
   new levels with trailing empty levels popped.
   */
  method PlanCompaction(planned: Head) returns (levels: Option<seq<Option<Run>>>)
    requires |planned.l0| >= L0_TRIGGER
    requires forall r :: r in Runs(planned) ==> Sorted(r.records)
    ensures levels == NewLevels(planned.levels, planned.l0[..L0_TRIGGER])
  {
    var c, deeper, rest := FindTarget(planned.levels);
    if !c.Lands? {
      return None;
    }
    var inputs := Reverse(deeper) + planned.l0[..L0_TRIGGER];
    for i := 0 to |inputs| - 1
      invariant forall j, k :: 0 <= j < k <= i && k == j + 1 ==> inputs[j].end + 1 == inputs[k].start
    {
      if inputs[i].end + 1 != inputs[i + 1].start {
        return None;
      }
    }
    InputsSorted(planned, c.target);
    var merged, keys := Merge.MergeRuns(RecordsOf(inputs));
    if merged.Err? {
      return None;
    }
    rest := rest[c.target := Some(Run(inputs[0].start, inputs[|inputs| - 1].end, c.weight, merged.value))];
    ghost var replaced := rest;
    assert replaced == Replace(planned.levels, c.target, MergedRun(inputs, c.weight));
    while rest != [] && rest[|rest| - 1].None?
      invariant Trim(rest) == Trim(replaced)
    {
      rest := rest[..|rest| - 1];
    }
    return Some(rest);
  }

  lemma {:induction false} LevelRunsMembers(levels: seq<Option<Run>>, upto: nat, r: Run)
    requires upto <= |levels|
    requires r in LevelRuns(levels[..upto])
    ensures r in LevelRuns(levels)
  {
    assert levels == levels[..upto] + levels[upto..];
    LevelRunsConcat(levels[..upto], levels[upto..]);
  }

  lemma InputsSorted(h: Head, target: nat)
    requires |h.l0| >= L0_TRIGGER && target < MAX_LEVELS
    requires forall r :: r in Runs(h) ==> Sorted(r.records)
    ensures Merge.AllSorted(RecordsOf(Absorbed(h.levels, target) + h.l0[..L0_TRIGGER]))
  {
    var inputs := Absorbed(h.levels, target) + h.l0[..L0_TRIGGER];
    forall i | 0 <= i < |inputs| ensures Sorted(inputs[i].records) {
      if i < |Absorbed(h.levels, target)| {
        SlotMembers(h.levels, target, inputs[i]);
      }
      assert inputs[i] in Runs(h);
    }
  }

  lemma SlotMembers(levels: seq<Option<Run>>, target: nat, r: Run)
    requires target < MAX_LEVELS && r in Absorbed(levels, target)
    ensures r in LevelRuns(levels)
  {
    var n := if |levels| < MAX_LEVELS then |levels| else MAX_LEVELS;
    LevelRunsMembers(Slots(levels), target + 1, r);
    var padding := Slots(levels)[n..];
    assert Slots(levels) == levels[..n] + padding;
    LevelRunsConcat(levels[..n], padding);
    NoRuns(padding);
    LevelRunsMembers(levels, n, r);
  }
}
