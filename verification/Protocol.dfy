/**
 Publishers and compactors racing on one compare-and-swap head. Each action is one
 atomic store operation of one process; a swap may take effect while its acknowledgement
 is lost, or fail without effect.
 */
module Protocol {
  import opened Bytes
  import opened Head
  import opened Ledger
  import opened History
  import opened Commits
  import opened Growth
  import Versions

  const CAS_ATTEMPTS := 32

  datatype Gate =
    | Finalized(number: nat, hash: Hash)
    | FixedOffset(observedNumber: nat, observedHash: Hash, offset: nat)

  predicate GateOk(gate: Gate, last: Block)
  {
    match gate
    case Finalized(number, hash) => number == last.number && hash == last.hash
    case FixedOffset(number, hash, offset) => offset == 0 && number == last.number && hash == last.hash
  }

  /** A head as read from the store, with the version it had. */
  datatype Held = Held(version: nat, head: Head)

  datatype Publishing =
    | PubRead
    | PubSwap(previous: Option<Held>, tries: nat)
    | PubCheck(previous: Option<Held>, tries: nat)
    | PubOk
    | PubErr

  datatype Compacting =
    | PlanRead
    | MergedRead(planned: Head, levels: seq<Option<Run>>, tries: nat)
    | MergedSwap(planned: Head, levels: seq<Option<Run>>, held: Held, tries: nat)
    | CompactOk(committed: bool)
    | CompactErr

  datatype Process =
    | Publisher(package: Package, gate: Gate, pub: Publishing)
    | Compactor(comp: Compacting)

  /** What befalls one store operation: nothing, a lost acknowledgement, or a failure. */
  datatype Fault = Fine | AckLost | Failed

  datatype Action =
    | Spawn(pid: nat, process: Process)
    | Go(pid: nat, fault: Fault)

  /** The committed heads in order (the last one is the stored head) and all processes. */
  datatype System = System(log: seq<Commit>, processes: map<nat, Process>)

  /** How a store compares: a version it never reuses, or the digest of the content. */
  datatype Cas = ByVersion | ByContent

  function Stored(log: seq<Commit>): Option<Held>
  {
    if log == [] then None else Some(Held(|log|, log[|log| - 1].head))
  }

  function HeadOf(held: Option<Held>): Option<Head>
  {
    if held.Some? then Some(held.value.head) else None
  }

  predicate Matches(cas: Cas, expected: Option<Held>, log: seq<Commit>)
  {
    match (expected, Stored(log))
    case (None, None) => true
    case (Some(e), Some(c)) => if cas == ByVersion then e.version == c.version else e.head == c.head
    case _ => false
  }

  predicate IsPublished(head: Head, p: Package)
  {
    && p.blocks != []
    && head.genesis == p.genesis && head.number == p.Last().number
    && head.hash == p.Last().hash && head.input == p.input
  }

  // ---------------------------------------------------------------- one step of a process

  /** The next state of a publisher, and the head it committed, if any. */
  ghost function Publish(cas: Cas, log: seq<Commit>, p: Package, gate: Gate, at: Publishing, fault: Fault)
    : (Publishing, Option<Commit>)
  {
    match at
    case PubRead =>
      if !Publishable(p) || !GateOk(gate, p.Last()) || fault == Failed then (PubErr, None)
      else
        var previous := Stored(log);
        if previous.Some? && IsPublished(previous.value.head, p) then (PubOk, None)
        else if !Follows(HeadOf(previous), p) then (PubErr, None)
        else if previous.Some? && |previous.value.head.l0| >= MAX_L0_BACKLOG then (PubErr, None)
        else (PubSwap(previous, 0), None)
    case PubSwap(previous, tries) =>
      if p.blocks == [] || fault == Failed || !Matches(cas, previous, log) then (PubCheck(previous, tries), None)
      else
        (if fault == AckLost then PubCheck(previous, tries) else PubOk,
         Some(Appended(Append(HeadOf(previous), p), p)))
    case PubCheck(previous, tries) =>
      var current := Stored(log);
      if fault == Failed || current.None? then (PubErr, None)
      else if IsPublished(current.value.head, p) then (PubOk, None)
      else if && previous.Some?
              && current.value.head.number == previous.value.head.number
              && current.value.head.hash == previous.value.head.hash
              && tries + 1 < CAS_ATTEMPTS then (PubSwap(current, tries + 1), None)
      else (PubErr, None)
    case _ => (at, None)
  }

  function Retry(planned: Head, levels: seq<Option<Run>>, tries: nat): Compacting
  {
    if tries + 1 < CAS_ATTEMPTS then MergedRead(planned, levels, tries + 1) else CompactErr
  }

  predicate Compatible(current: Head, planned: Head)
  {
    && current.levels == planned.levels
    && |planned.l0| >= L0_TRIGGER
    && planned.l0[..L0_TRIGGER] <= current.l0
  }

  ghost function CompactOnce(cas: Cas, log: seq<Commit>, at: Compacting, fault: Fault)
    : (Compacting, Option<Commit>)
  {
    match at
    case PlanRead =>
      var stored := Stored(log);
      if fault == Failed then (CompactErr, None)
      else if stored.None? || |stored.value.head.l0| < L0_TRIGGER then (CompactOk(false), None)
      else
        var planned := stored.value.head;
        var levels := NewLevels(planned.levels, planned.l0[..L0_TRIGGER]);
        (if levels.None? then CompactErr else MergedRead(planned, levels.value, 0), None)
    case MergedRead(planned, levels, tries) =>
      var stored := Stored(log);
      if fault == Failed || stored.None? || !Compatible(stored.value.head, planned) then (CompactErr, None)
      else (MergedSwap(planned, levels, stored.value, tries), None)
    case MergedSwap(planned, levels, held, tries) =>
      if |held.head.l0| < L0_TRIGGER || fault == Failed || !Matches(cas, Some(held), log) then
        (Retry(planned, levels, tries), None)
      else
        (if fault == AckLost then Retry(planned, levels, tries) else CompactOk(true),
         Some(Compacted(Compact(held.head, levels))))
    case _ => (at, None)
  }

  ghost function Advance(cas: Cas, log: seq<Commit>, process: Process, fault: Fault): (Process, Option<Commit>)
  {
    match process
    case Publisher(p, gate, pub) =>
      var (next, commit) := Publish(cas, log, p, gate, pub, fault);
      (Publisher(p, gate, next), commit)
    case Compactor(comp) =>
      var (next, commit) := CompactOnce(cas, log, comp, fault);
      (Compactor(next), commit)
  }

  predicate Starting(process: Process)
  {
    match process
    case Publisher(_, _, pub) => pub.PubRead?
    case Compactor(comp) => comp.PlanRead?
  }

  ghost function Apply(cas: Cas, s: System, a: Action): System
  {
    match a
    case Spawn(pid, process) =>
      if pid in s.processes || !Starting(process) then s
      else s.(processes := s.processes[pid := process])
    case Go(pid, fault) =>
      if pid !in s.processes then s
      else
        var (next, commit) := Advance(cas, s.log, s.processes[pid], fault);
        System(if commit.Some? then s.log + [commit.value] else s.log, s.processes[pid := next])
  }

  /** The system after a schedule of actions, from an empty store without processes. */
  ghost function After(cas: Cas, actions: seq<Action>): System
  {
    if actions == [] then System([], map[])
    else Apply(cas, After(cas, actions[..|actions| - 1]), actions[|actions| - 1])
  }

  // ---------------------------------------------------------------- what every process knows

  /** A held head is a committed one, under its version. */
  ghost predicate HeldOk(log: seq<Commit>, held: Held)
  {
    0 < held.version <= |log| && log[held.version - 1].head == held.head
  }

  /** The publisher may append to the head it holds. */
  ghost predicate MayAppend(log: seq<Commit>, previous: Option<Held>, p: Package)
  {
    && Publishable(p) && Follows(HeadOf(previous), p)
    && (previous.Some? ==> HeldOk(log, previous.value) && |previous.value.head.l0| < MAX_L0_BACKLOG)
  }

  /** A package with this input and this last block has been committed. */
  ghost predicate Committed(log: seq<Commit>, p: Package)
  {
    exists i :: 0 <= i < |Packages(log)| && SameInput(Packages(log)[i], p)
  }

  predicate SameInput(q: Package, p: Package)
  {
    && q.blocks != [] && p.blocks != []
    && q.genesis == p.genesis && q.input == p.input
    && q.Last().number == p.Last().number && q.Last().hash == p.Last().hash
  }

  ghost predicate PublishingOk(log: seq<Commit>, p: Package, at: Publishing)
  {
    match at
    case PubSwap(previous, _) => MayAppend(log, previous, p)
    case PubCheck(previous, _) => MayAppend(log, previous, p)
    case PubOk => Committed(log, p)
    case _ => true
  }

  ghost predicate PlanOk(planned: Head, levels: seq<Option<Run>>)
  {
    |planned.l0| >= L0_TRIGGER && NewLevels(planned.levels, planned.l0[..L0_TRIGGER]) == Some(levels)
  }

  ghost predicate CompactingOk(log: seq<Commit>, at: Compacting)
  {
    match at
    case MergedRead(planned, levels, _) => PlanOk(planned, levels)
    case MergedSwap(planned, levels, held, _) =>
      PlanOk(planned, levels) && HeldOk(log, held) && Compatible(held.head, planned)
    case _ => true
  }

  ghost predicate ProcessOk(log: seq<Commit>, process: Process)
  {
    match process
    case Publisher(p, _, pub) => PublishingOk(log, p, pub)
    case Compactor(comp) => CompactingOk(log, comp)
  }

  ghost predicate SystemOk(s: System)
  {
    && Log(s.log)
    && forall pid :: pid in s.processes ==> ProcessOk(s.log, s.processes[pid])
  }

  // ---------------------------------------------------------------- each step keeps it

  lemma CommittedMore(log: seq<Commit>, c: Commit, p: Package)
    requires Committed(log, p)
    ensures Committed(log + [c], p)
  {
    var i :| 0 <= i < |Packages(log)| && SameInput(Packages(log)[i], p);
    assert (log + [c])[..|log|] == log;
    assert Packages(log + [c])[i] == Packages(log)[i];
  }

  lemma ProcessOkMore(log: seq<Commit>, c: Commit, process: Process)
    requires ProcessOk(log, process)
    ensures ProcessOk(log + [c], process)
  {
    hide Publishable, NewLevels, Packages;
    if process.Publisher? && process.pub.PubOk? { CommittedMore(log, c, process.package); }
  }

  /** A head that names the package's end and input was reached by appending it. */
  lemma PublishedIsCommitted(log: seq<Commit>, p: Package)
    requires Log(log) && log != [] && IsPublished(log[|log| - 1].head, p)
    ensures Committed(log, p)
  {
    LogHeadOk(log);
    var ps := Packages(log);
    assert Tip(log[|log| - 1].head, ps[|ps| - 1]);
    assert SameInput(ps[|ps| - 1], p);
  }

  /** Without a repeated head, comparing content and comparing versions are the same test. */
  lemma MatchesAgree(log: seq<Commit>, held: Held)
    requires Log(log) && HeldOk(log, held)
    ensures Matches(ByContent, Some(held), log) == Matches(ByVersion, Some(held), log)
    ensures Matches(ByVersion, Some(held), log) ==> Stored(log) == Some(held)
  {
    if held.version < |log| { LogAdvances(log, held.version - 1, |log| - 1); }
  }

  lemma MatchMeansCurrent(cas: Cas, log: seq<Commit>, held: Option<Held>)
    requires Log(log) && (held.Some? ==> HeldOk(log, held.value)) && Matches(cas, held, log)
    ensures held == Stored(log) && HeadOf(held) == Current(log)
  {
    if held.Some? { MatchesAgree(log, held.value); }
  }

  lemma AppendCommits(log: seq<Commit>, p: Package, c: Commit)
    requires Log(log) && MayAppend(log, Stored(log), p)
    requires c == Appended(Append(Current(log), p), p)
    ensures Log(log + [c]) && Committed(log + [c], p)
  {
    var next := log + [c];
    assert next[..|log|] == log;
    assert Commits.Commits(Current(log), c);
    assert Packages(next) == Packages(log) + [p];
    assert Packages(next)[|Packages(log)|] == p;
  }

  /** The head a compactor or spurious failure left under the same block can be appended to. */
  lemma RebaseKeeps(log: seq<Commit>, previous: Held, p: Package)
    requires Log(log) && log != [] && MayAppend(log, Some(previous), p)
    requires log[|log| - 1].head.number == previous.head.number && log[|log| - 1].head.hash == previous.head.hash
    ensures MayAppend(log, Stored(log), p)
  {
    hide Log, Packages, Publishable;
    if previous.version < |log| { LogAdvances(log, previous.version - 1, |log| - 1); }
  }

  /** A publisher's step leaves a history and a publisher that knows what it needs. */
  ghost predicate Kept(cas: Cas, log: seq<Commit>, p: Package, gate: Gate, at: Publishing, fault: Fault)
  {
    var (next, commit) := Publish(cas, log, p, gate, at, fault);
    var after := if commit.Some? then log + [commit.value] else log;
    Log(after) && PublishingOk(after, p, next)
  }

  lemma ReadKeeps(cas: Cas, log: seq<Commit>, p: Package, gate: Gate, fault: Fault)
    requires Log(log)
    ensures Kept(cas, log, p, gate, PubRead, fault)
  {
    hide Publishable, Log, Committed;
    if log != [] && IsPublished(log[|log| - 1].head, p) { PublishedIsCommitted(log, p); }
  }

  lemma SwapKeeps(cas: Cas, log: seq<Commit>, p: Package, gate: Gate, previous: Option<Held>, tries: nat, fault: Fault)
    requires Log(log) && MayAppend(log, previous, p)
    ensures Kept(cas, log, p, gate, PubSwap(previous, tries), fault)
  {
    hide Publishable, Log, Committed, Append, Follows;
    if p.blocks != [] && fault != Failed && Matches(cas, previous, log) {
      MatchMeansCurrent(cas, log, previous);
      var c := Appended(Append(Current(log), p), p);
      AppendCommits(log, p, c);
      MayAppendMore(log, c, previous, p);
    }
  }

  lemma CheckKeeps(cas: Cas, log: seq<Commit>, p: Package, gate: Gate, previous: Option<Held>, tries: nat, fault: Fault)
    requires Log(log) && MayAppend(log, previous, p)
    ensures Kept(cas, log, p, gate, PubCheck(previous, tries), fault)
  {
    hide Publishable, Log, Committed, MayAppend;
    if log != [] {
      var head := log[|log| - 1].head;
      if IsPublished(head, p) { PublishedIsCommitted(log, p); }
      if previous.Some? && head.number == previous.value.head.number && head.hash == previous.value.head.hash {
        RebaseKeeps(log, previous.value, p);
      }
    }
  }

  lemma PublishKeeps(cas: Cas, log: seq<Commit>, p: Package, gate: Gate, at: Publishing, fault: Fault)
    requires Log(log) && PublishingOk(log, p, at)
    ensures Kept(cas, log, p, gate, at, fault)
  {
    hide Kept, MayAppend, Committed, Log;
    match at
    case PubRead => ReadKeeps(cas, log, p, gate, fault);
    case PubSwap(previous, tries) => SwapKeeps(cas, log, p, gate, previous, tries, fault);
    case PubCheck(previous, tries) => CheckKeeps(cas, log, p, gate, previous, tries, fault);
    case _ => DoneKeeps(cas, log, p, gate, at, fault);
  }

  lemma DoneKeeps(cas: Cas, log: seq<Commit>, p: Package, gate: Gate, at: Publishing, fault: Fault)
    requires Log(log) && PublishingOk(log, p, at) && (at.PubOk? || at.PubErr?)
    ensures Kept(cas, log, p, gate, at, fault)
  {
    hide MayAppend, Committed, Log;
  }

  lemma MayAppendMore(log: seq<Commit>, c: Commit, previous: Option<Held>, p: Package)
    requires MayAppend(log, previous, p)
    ensures MayAppend(log + [c], previous, p)
  {
  }

  lemma CompactCommits(log: seq<Commit>, planned: Head, levels: seq<Option<Run>>)
    requires Log(log) && log != [] && PlanOk(planned, levels) && Compatible(log[|log| - 1].head, planned)
    ensures Log(log + [Compacted(Compact(log[|log| - 1].head, levels))])
  {
    hide NewLevels, Publishable;
    var head := log[|log| - 1].head;
    var c := Compacted(Compact(head, levels));
    assert head.l0[..L0_TRIGGER] == planned.l0[..L0_TRIGGER];
    assert Commits.Commits(Some(head), c);
    assert (log + [c])[..|log|] == log;
  }

  lemma CompactKeepsOk(cas: Cas, log: seq<Commit>, at: Compacting, fault: Fault)
    requires Log(log) && CompactingOk(log, at)
    ensures var (next, commit) := CompactOnce(cas, log, at, fault);
      var after := if commit.Some? then log + [commit.value] else log;
      Log(after) && CompactingOk(after, next)
  {
    hide Commits.Commits, Log, NewLevels;
    match at
    case MergedSwap(planned, levels, held, tries) =>
      if |held.head.l0| >= L0_TRIGGER && fault != Failed && Matches(cas, Some(held), log) {
        MatchMeansCurrent(cas, log, Some(held));
        CompactCommits(log, planned, levels);
      }
    case _ =>
  }

  lemma StartingOk(log: seq<Commit>, process: Process)
    requires Starting(process)
    ensures ProcessOk(log, process)
  {
  }

  /** Every action of every process keeps the system in order. */
  lemma ApplyKeeps(cas: Cas, s: System, a: Action)
    requires SystemOk(s)
    ensures SystemOk(Apply(cas, s, a))
  {
    hide Log, Publish, CompactOnce, PublishingOk, CompactingOk;
    if a.Go? && a.pid in s.processes {
      var (next, commit) := Advance(cas, s.log, s.processes[a.pid], a.fault);
      var after := if commit.Some? then s.log + [commit.value] else s.log;
      AdvanceKeeps(cas, s.log, s.processes[a.pid], a.fault);
      forall pid | pid in s.processes ensures ProcessOk(after, s.processes[pid]) {
        if commit.Some? { ProcessOkMore(s.log, commit.value, s.processes[pid]); }
      }
    } else if a.Spawn? && Starting(a.process) {
      StartingOk(s.log, a.process);
    }
  }

  lemma AdvanceKeeps(cas: Cas, log: seq<Commit>, process: Process, fault: Fault)
    requires Log(log) && ProcessOk(log, process)
    ensures var (next, commit) := Advance(cas, log, process, fault);
      var after := if commit.Some? then log + [commit.value] else log;
      Log(after) && ProcessOk(after, next)
  {
    hide Log, Publish, CompactOnce, PublishingOk, CompactingOk;
    match process
    case Publisher(p, gate, pub) => PublishKeeps(cas, log, p, gate, pub, fault);
    case Compactor(comp) => CompactKeepsOk(cas, log, comp, fault);
  }

  /** In every interleaving, with every lost acknowledgement, the system stays in order. */
  lemma {:induction false} EveryRunOk(cas: Cas, actions: seq<Action>)
    ensures SystemOk(After(cas, actions))
  {
    if actions != [] {
      hide Apply, SystemOk;
      EveryRunOk(cas, actions[..|actions| - 1]);
      ApplyKeeps(cas, After(cas, actions[..|actions| - 1]), actions[|actions| - 1]);
    } else {
      assert SystemOk(System([], map[]));
    }
  }

  // ---------------------------------------------------------------- what every run guarantees

  /** No store that compares content digests can tell itself from one that counts versions. */
  lemma {:induction false} ContentCasIsVersionCas(actions: seq<Action>)
    ensures After(ByContent, actions) == After(ByVersion, actions)
  {
    if actions != [] {
      var init, a := actions[..|actions| - 1], actions[|actions| - 1];
      ContentCasIsVersionCas(init);
      EveryRunOk(ByVersion, init);
      var s := After(ByVersion, init);
      if a.Go? && a.pid in s.processes {
        AdvanceAgrees(s.log, s.processes[a.pid], a.fault);
      }
    }
  }

  lemma AdvanceAgrees(log: seq<Commit>, process: Process, fault: Fault)
    requires Log(log) && ProcessOk(log, process)
    ensures Advance(ByContent, log, process, fault) == Advance(ByVersion, log, process, fault)
  {
    hide Log, NewLevels, Publishable;
    match process
    case Publisher(p, gate, pub) =>
      if pub.PubSwap? && pub.previous.Some? { MatchesAgree(log, pub.previous.value); }
    case Compactor(comp) =>
      if comp.MergedSwap? { MatchesAgree(log, comp.held); }
  }

  /**
   In every interleaving of publishers and compactors, every head ever committed passes
   every check of a reader and answers every block up to its number as the flat history
   of all packages committed by the end does.
   */
  lemma EveryRunReadsFlat(
    cas: Cas, actions: seq<Action>, i: nat, mayContain: (Run, Bytes) -> bool, key: Bytes, block: nat)
    requires i < |After(cas, actions).log|
    ensures var log := After(cas, actions).log;
      && Wellformed(log[i].head)
      && (NoFalseNegatives(mayContain, Runs(log[i].head)) && block <= log[i].head.number ==>
            Read(Runs(log[i].head), mayContain, key, block) == FlatRead(Packages(log), key, block))
  {
    EveryRunOk(cas, actions);
    var log := After(cas, actions).log;
    LogPrefix(log, i + 1);
    LogHeadOk(log[..i + 1]);
    HeadWellformed(log[i].head, Packages(log[..i + 1]));
    if NoFalseNegatives(mayContain, Runs(log[i].head)) && block <= log[i].head.number {
      EveryHeadReadsFlat(log, i, mayContain, key, block);
    }
  }

  /**
   In every run a publisher that returns success has its package in the committed history,
   and no package is in the history twice.
   */
  lemma EveryRunAppendsOnce(cas: Cas, actions: seq<Action>)
    ensures var s := After(cas, actions);
      && (forall pid :: pid in s.processes && s.processes[pid].Publisher? && s.processes[pid].pub.PubOk? ==>
            Committed(s.log, s.processes[pid].package))
      && (forall i, j :: 0 <= i < j < |Packages(s.log)| ==> Packages(s.log)[i] != Packages(s.log)[j])
  {
    EveryRunOk(cas, actions);
    var s := After(cas, actions);
    forall pid | pid in s.processes && s.processes[pid].Publisher? && s.processes[pid].pub.PubOk?
      ensures Committed(s.log, s.processes[pid].package)
    {
      assert ProcessOk(s.log, s.processes[pid]);
    }
    forall i, j | 0 <= i < j < |Packages(s.log)| ensures Packages(s.log)[i] != Packages(s.log)[j] {
      PackagesOnce(s.log, i, j);
    }
  }

  /**
   In every run the compactor's bails on level capacity, adjacency and duplicates are
   unreachable: a plan is refused only when all eight level digits are seven.
   */
  lemma EveryRunPlans(cas: Cas, actions: seq<Action>)
    requires After(cas, actions).log != []
    ensures var log := After(cas, actions).log;
      var head := log[|log| - 1].head;
      |head.l0| >= L0_TRIGGER ==>
        && CascadeOf(head.levels) != CapacityExceeded
        && (NewLevels(head.levels, head.l0[..L0_TRIGGER]).None? <==> AllSevens(Slots(head.levels), 0))
  {
    EveryRunOk(cas, actions);
    var log := After(cas, actions).log;
    LogHeadOk(log);
    var head := log[|log| - 1].head;
    if |head.l0| >= L0_TRIGGER { CompactionRefusedOnlyWhenFull(head, Packages(log)); }
  }

  /** In every run two compactions planned from the same levels never both commit. */
  lemma EveryRunCompactsOnce(cas: Cas, actions: seq<Action>, i: nat, j: nat)
    requires var log := After(cas, actions).log;
      0 < i < j < |log| && log[i].Compacted? && log[j].Compacted?
    ensures var log := After(cas, actions).log;
      log[i - 1].head.levels != log[j - 1].head.levels
  {
    EveryRunOk(cas, actions);
    SamePlanCommitsOnce(After(cas, actions).log, i, j);
  }

  /** In every run no package is rewritten more than its level allows, nor more than 56 times. */
  lemma EveryRunRewrites(cas: Cas, actions: seq<Action>, package: nat)
    requires After(cas, actions).log != []
    ensures var log := After(cas, actions).log;
      Rewrites(log, package) <= Bound(log[|log| - 1].head, package) <= 56
  {
    EveryRunOk(cas, actions);
    RewritesBounded(After(cas, actions).log, package);
  }

  // ---------------------------------------------------------------- what undisturbed processes achieve

  /** `pid` runs a process step by step, each with its fault, and nothing else moves. */
  ghost function Alone(cas: Cas, s: System, pid: nat, faults: seq<Fault>): System
  {
    if faults == [] then s else Apply(cas, Alone(cas, s, pid, faults[..|faults| - 1]), Go(pid, faults[|faults| - 1]))
  }

  lemma AloneMore(cas: Cas, s: System, pid: nat, faults: seq<Fault>, fault: Fault)
    ensures Alone(cas, s, pid, faults + [fault]) == Apply(cas, Alone(cas, s, pid, faults), Go(pid, fault))
  {
    assert (faults + [fault])[..|faults|] == faults;
  }

  /** What a publisher needs to find: a package that continues the stored head, and room for it. */
  ghost predicate Ready(log: seq<Commit>, p: Package, gate: Gate)
  {
    && Publishable(p) && GateOk(gate, p.Last()) && Follows(Current(log), p)
    && (log != [] ==> !IsPublished(log[|log| - 1].head, p) && |log[|log| - 1].head.l0| < MAX_L0_BACKLOG)
  }

  lemma PublisherSteps(cas: Cas, log: seq<Commit>, p: Package, gate: Gate)
    requires Ready(log, p, gate)
    ensures p.blocks != []
    ensures
      var commit := Appended(Append(Current(log), p), p);
      && Publish(cas, log, p, gate, PubRead, Fine) == (PubSwap(Stored(log), 0), None)
      && Publish(cas, log, p, gate, PubSwap(Stored(log), 0), Fine) == (PubOk, Some(commit))
      && Publish(cas, log, p, gate, PubSwap(Stored(log), 0), AckLost) == (PubCheck(Stored(log), 0), Some(commit))
      && Publish(cas, log + [commit], p, gate, PubCheck(Stored(log), 0), Fine) == (PubOk, None)
  {
    assert HeadOf(Stored(log)) == Current(log);
  }

  /**
   An undisturbed publisher with a package that continues the head commits it in two
   steps; if the acknowledgement is lost, a third step finds it committed, and only once.
   */
  lemma PublisherCommits(cas: Cas, s: System, pid: nat, p: Package, gate: Gate)
    requires pid in s.processes && s.processes[pid] == Publisher(p, gate, PubRead) && Ready(s.log, p, gate)
    ensures p.blocks != []
    ensures
      var log := s.log + [Appended(Append(Current(s.log), p), p)];
      var done := System(log, s.processes[pid := Publisher(p, gate, PubOk)]);
      && Alone(cas, s, pid, [Fine, Fine]) == done
      && Alone(cas, s, pid, [Fine, AckLost, Fine]) == done
  {
    PublisherSteps(cas, s.log, p, gate);
    hide Publish, Ready, Append;
    AloneMore(cas, s, pid, [], Fine);
    assert Alone(cas, s, pid, []) == s && [] + [Fine] == [Fine];
    var swapping := Publisher(p, gate, PubSwap(Stored(s.log), 0));
    assert Alone(cas, s, pid, [Fine]) == System(s.log, s.processes[pid := swapping]);
    AloneMore(cas, s, pid, [Fine], Fine);
    assert [Fine] + [Fine] == [Fine, Fine];
    AloneMore(cas, s, pid, [Fine], AckLost);
    assert [Fine] + [AckLost] == [Fine, AckLost];
    AloneMore(cas, s, pid, [Fine, AckLost], Fine);
    assert [Fine, AckLost] + [Fine] == [Fine, AckLost, Fine];
  }

  /** An undisturbed compactor with four runs to merge and levels to take them commits in three steps. */
  lemma CompactorCommits(cas: Cas, s: System, pid: nat, levels: seq<Option<Run>>)
    requires pid in s.processes && s.processes[pid] == Compactor(PlanRead) && s.log != []
    requires PlanOk(s.log[|s.log| - 1].head, levels)
    ensures Alone(cas, s, pid, [Fine, Fine, Fine])
            == System(s.log + [Compacted(Compact(s.log[|s.log| - 1].head, levels))],
                      s.processes[pid := Compactor(CompactOk(true))])
  {
    hide NewLevels;
    var head := s.log[|s.log| - 1].head;
    var planned := System(s.log, s.processes[pid := Compactor(MergedRead(head, levels, 0))]);
    AloneMore(cas, s, pid, [], Fine);
    assert Alone(cas, s, pid, []) == s && [] + [Fine] == [Fine];
    assert Alone(cas, s, pid, [Fine]) == planned;
    AloneMore(cas, s, pid, [Fine], Fine);
    assert [Fine] + [Fine] == [Fine, Fine];
    var held := System(s.log, s.processes[pid := Compactor(MergedSwap(head, levels, Held(|s.log|, head), 0))]);
    assert Compatible(head, head) by { assert head.l0[..L0_TRIGGER] <= head.l0; }
    assert Alone(cas, s, pid, [Fine, Fine]) == held;
    AloneMore(cas, s, pid, [Fine, Fine], Fine);
    assert [Fine, Fine] + [Fine] == [Fine, Fine, Fine];
  }
}
