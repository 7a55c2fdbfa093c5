/**
 A compactor among publishers. Publishers may act before each of its reads and between a
 read and the swap that follows it, and a swap may fail or lose its acknowledgement; the
 planned compaction is committed exactly when one of the 32 attempts finds the head it
 read, and then it keeps every run appended meanwhile.
 */
module CompactorContention {
  import opened Bytes
  import opened Head
  import opened Ledger
  import opened Commits
  import opened Growth
  import opened Protocol
  import Contention

  /** One round of the swap loop: what others do before the read and before the swap, and the swap's fault. */
  datatype Attempt = Attempt(before: seq<Action>, between: seq<Action>, fault: Fault)

  /** Every process but `pid` is a publisher. */
  ghost predicate AmongPublishers(s: System, pid: nat)
  {
    && SystemOk(s) && pid in s.processes
    && forall q :: q in s.processes && q != pid ==> s.processes[q].Publisher?
  }

  /** Actions of other processes that start nothing but publishers. */
  ghost predicate Others(pid: nat, actions: seq<Action>)
  {
    forall a :: a in actions ==> a.pid != pid && (a.Spawn? ==> a.process.Publisher?)
  }

  ghost predicate AllOthers(pid: nat, attempts: seq<Attempt>)
  {
    forall k :: 0 <= k < |attempts| ==> Others(pid, attempts[k].before) && Others(pid, attempts[k].between)
  }

  ghost function Reread(cas: Cas, s: System, pid: nat, a: Attempt): System
  {
    Apply(cas, Contention.From(cas, s, a.before), Go(pid, Fine))
  }

  /** The system in which the attempt's swap happens. */
  ghost function AtSwap(cas: Cas, s: System, pid: nat, a: Attempt): System
  {
    Contention.From(cas, Reread(cas, s, pid, a), a.between)
  }

  ghost function Attempted(cas: Cas, s: System, pid: nat, a: Attempt): System
  {
    Apply(cas, AtSwap(cas, s, pid, a), Go(pid, a.fault))
  }

  ghost function Contend(cas: Cas, s: System, pid: nat, attempts: seq<Attempt>): System
    decreases |attempts|
  {
    if attempts == [] then s else Contend(cas, Attempted(cas, s, pid, attempts[0]), pid, attempts[1..])
  }

  /** The attempt fails: something was committed since the head was read, or the swap itself failed. */
  ghost predicate Lost(cas: Cas, s: System, pid: nat, a: Attempt)
  {
    AtSwap(cas, s, pid, a).log != Reread(cas, s, pid, a).log || a.fault == Failed
  }

  /** How many attempts are lost before the first one that is not. */
  ghost function Losses(cas: Cas, s: System, pid: nat, attempts: seq<Attempt>): (n: nat)
    ensures n <= |attempts|
    decreases |attempts|
  {
    if attempts == [] || !Lost(cas, s, pid, attempts[0]) then 0
    else 1 + Losses(cas, Attempted(cas, s, pid, attempts[0]), pid, attempts[1..])
  }

  // ---------------------------------------------------------------- what publishers leave alone

  /** The history grew by publications only: the levels stay, and runs are added behind the L0 runs. */
  ghost predicate Longer(before: seq<Commit>, after: seq<Commit>)
  {
    && before <= after
    && (forall i :: |before| <= i < |after| ==> after[i].Appended?)
    && (before != [] ==>
          var g, h := before[|before| - 1].head, after[|after| - 1].head;
          h.levels == g.levels && g.l0 <= h.l0)
  }

  lemma LongerRefl(log: seq<Commit>)
    ensures Longer(log, log)
  {
  }

  lemma LongerTwice(a: seq<Commit>, b: seq<Commit>, c: seq<Commit>)
    requires Longer(a, b) && Longer(b, c)
    ensures Longer(a, c)
  {
    forall i | |a| <= i < |c| ensures c[i].Appended? {
      if i < |b| { assert c[i] == b[i]; }
    }
  }

  lemma LongerCommit(log: seq<Commit>, p: Package)
    requires p.blocks != []
    ensures Longer(log, log + [Appended(Append(Current(log), p), p)])
  {
  }

  /** A publisher's step appends a package to the stored head, or commits nothing. */
  lemma PublisherAppends(cas: Cas, log: seq<Commit>, p: Package, gate: Gate, pub: Publishing, fault: Fault)
    requires Log(log) && PublishingOk(log, p, pub)
    ensures
      var (next, commit) := Publish(cas, log, p, gate, pub, fault);
      commit.Some? ==> Longer(log, log + [commit.value])
  {
    hide Log, Longer, Publishable, Follows, Append, Committed;
    match pub
    case PubSwap(previous, tries) =>
      if p.blocks != [] && fault != Failed && Matches(cas, previous, log) {
        MatchMeansCurrent(cas, log, previous);
        LongerCommit(log, p);
      }
    case _ =>
  }

  /** Nothing but publications happened between `s` and `t`, and `pid` did not move. */
  ghost predicate Aside(pid: nat, s: System, t: System)
  {
    AmongPublishers(t, pid) && pid in s.processes && t.processes[pid] == s.processes[pid] && Longer(s.log, t.log)
  }

  lemma OneAside(cas: Cas, pid: nat, s: System, a: Action)
    requires AmongPublishers(s, pid) && a.pid != pid && (a.Spawn? ==> a.process.Publisher?)
    ensures Aside(pid, s, Apply(cas, s, a))
  {
    hide Log, Longer, CompactOnce, Publish, CompactingOk, PublishingOk;
    ApplyKeeps(cas, s, a);
    LongerRefl(s.log);
    if a.Go? && a.pid in s.processes {
      assert ProcessOk(s.log, s.processes[a.pid]);
      var other := s.processes[a.pid];
      PublisherAppends(cas, s.log, other.package, other.gate, other.pub, a.fault);
    }
  }

  lemma {:induction false} AllAside(cas: Cas, pid: nat, s: System, actions: seq<Action>)
    requires AmongPublishers(s, pid) && Others(pid, actions)
    ensures Aside(pid, s, Contention.From(cas, s, actions))
  {
    hide SystemOk, Longer, Apply;
    if actions == [] {
      LongerRefl(s.log);
    } else {
      var init, a := actions[..|actions| - 1], actions[|actions| - 1];
      AllAside(cas, pid, s, init);
      var t := Contention.From(cas, s, init);
      OneAside(cas, pid, t, a);
      LongerTwice(s.log, t.log, Apply(cas, t, a).log);
    }
  }

  // ---------------------------------------------------------------- one attempt

  /** The compactor is about to read the head again, and the plan still fits the stored one. */
  ghost predicate Trying(s: System, pid: nat, planned: Head, levels: seq<Option<Run>>, tries: nat)
  {
    && AmongPublishers(s, pid) && s.processes[pid] == Compactor(MergedRead(planned, levels, tries))
    && PlanOk(planned, levels) && Fits(s.log, planned)
  }

  /** The stored head has the planned levels, and the four planned runs in front of its L0 runs. */
  ghost predicate Fits(log: seq<Commit>, planned: Head)
  {
    && log != [] && |planned.l0| >= L0_TRIGGER
    && var head := log[|log| - 1].head;
       head.levels == planned.levels && planned.l0[..L0_TRIGGER] <= head.l0
  }

  lemma FitsLonger(before: seq<Commit>, after: seq<Commit>, planned: Head)
    requires Fits(before, planned) && Longer(before, after)
    ensures Fits(after, planned)
  {
  }

  /** A step of the compactor itself. */
  lemma OwnStep(cas: Cas, s: System, pid: nat, at: Compacting, fault: Fault)
    requires AmongPublishers(s, pid) && s.processes[pid] == Compactor(at)
    ensures
      var (next, commit) := CompactOnce(cas, s.log, at, fault);
      var t := Apply(cas, s, Go(pid, fault));
      && AmongPublishers(t, pid) && t.processes[pid] == Compactor(next)
      && t.log == if commit.Some? then s.log + [commit.value] else s.log
  {
    hide SystemOk, CompactOnce;
    ApplyKeeps(cas, s, Go(pid, fault));
  }

  /** The read finds a head the plan fits, whatever publishers did before, and holds it. */
  lemma ReadHolds(cas: Cas, s: System, pid: nat, planned: Head, levels: seq<Option<Run>>, tries: nat, a: Attempt)
    requires Trying(s, pid, planned, levels, tries) && Others(pid, a.before)
    ensures
      var t := Reread(cas, s, pid, a);
      && AmongPublishers(t, pid) && Longer(s.log, t.log) && Fits(t.log, planned)
      && t.processes[pid] == Compactor(MergedSwap(planned, levels, Stored(t.log).value, tries))
  {
    hide SystemOk, Longer, Apply, Contention.From, PlanOk;
    AllAside(cas, pid, s, a.before);
    var t := Contention.From(cas, s, a.before);
    FitsLonger(s.log, t.log, planned);
    OwnStep(cas, t, pid, MergedRead(planned, levels, tries), Fine);
  }

  lemma Known(s: System, pid: nat)
    requires AmongPublishers(s, pid)
    ensures Log(s.log)
  {
  }

  /** A head that was replaced is matched by neither comparison. */
  lemma Replaced(cas: Cas, before: seq<Commit>, log: seq<Commit>)
    requires Log(log) && before != [] && Longer(before, log) && log != before
    ensures !Matches(cas, Stored(before), log)
  {
    hide Log;
    var held := Held(|before|, before[|before| - 1].head);
    assert log[|before| - 1] == before[|before| - 1];
    MatchesAgree(log, held);
  }

  /** A lost attempt leaves the compactor one attempt poorer and commits nothing. */
  lemma AttemptLost(cas: Cas, s: System, pid: nat, planned: Head, levels: seq<Option<Run>>, tries: nat, a: Attempt)
    requires Trying(s, pid, planned, levels, tries) && Others(pid, a.before) && Others(pid, a.between)
    requires Lost(cas, s, pid, a)
    ensures
      var t := Attempted(cas, s, pid, a);
      && AmongPublishers(t, pid) && t.processes[pid] == Compactor(Retry(planned, levels, tries))
      && Longer(s.log, t.log) && Fits(t.log, planned)
  {
    hide SystemOk, Longer, Apply, Contention.From, PlanOk, Reread, Fits, Log, Compact;
    ReadHolds(cas, s, pid, planned, levels, tries, a);
    var r := Reread(cas, s, pid, a);
    AllAside(cas, pid, r, a.between);
    var u := AtSwap(cas, s, pid, a);
    LongerTwice(s.log, r.log, u.log);
    FitsLonger(r.log, u.log, planned);
    Known(u, pid);
    assert r.log != [] by { FitsSome(r.log, planned); }
    if u.log != r.log { Replaced(cas, r.log, u.log); }
    OwnStep(cas, u, pid, MergedSwap(planned, levels, Stored(r.log).value, tries), a.fault);
  }

  lemma FitsSome(log: seq<Commit>, planned: Head)
    requires Fits(log, planned)
    ensures log != [] && |log[|log| - 1].head.l0| >= L0_TRIGGER
  {
  }

  /** Commit `n` is the one compaction after `before`: the planned levels, and every L0 run behind the first four. */
  ghost predicate CompactedAt(before: seq<Commit>, after: seq<Commit>, n: nat, levels: seq<Option<Run>>)
  {
    && before <= after && 0 < |before| <= n < |after| && after[n].Compacted?
    && (forall i :: |before| <= i < |after| && i != n ==> after[i].Appended?)
    && var first, found, made := before[|before| - 1].head, after[n - 1].head, after[n].head;
    && found.levels == first.levels && first.l0 <= found.l0 && |found.l0| >= 4
    && made.levels == levels && made.l0 == found.l0[4..]
    && made.genesis == found.genesis && made.number == found.number && made.hash == found.hash
  }

  lemma CommitsAt(before: seq<Commit>, log: seq<Commit>, levels: seq<Option<Run>>)
    requires before != [] && Longer(before, log) && |log[|log| - 1].head.l0| >= L0_TRIGGER
    ensures CompactedAt(before, log + [Compacted(Compact(log[|log| - 1].head, levels))], |log|, levels)
  {
    var c := Compacted(Compact(log[|log| - 1].head, levels));
    var after := log + [c];
    assert after[|log|] == c && after[|log| - 1] == log[|log| - 1];
    assert before <= after;
  }

  lemma CompactedAtLonger(before: seq<Commit>, log: seq<Commit>, after: seq<Commit>, n: nat,
                          levels: seq<Option<Run>>)
    requires CompactedAt(before, log, n, levels) && Longer(log, after)
    ensures CompactedAt(before, after, n, levels)
  {
    assert after[n] == log[n] && after[n - 1] == log[n - 1];
    forall i | |before| <= i < |after| && i != n ensures after[i].Appended? {
      if i < |log| { assert after[i] == log[i]; }
    }
  }

  lemma CompactedAtEarlier(before: seq<Commit>, log: seq<Commit>, after: seq<Commit>, n: nat,
                           levels: seq<Option<Run>>)
    requires Longer(before, log) && before != [] && CompactedAt(log, after, n, levels)
    ensures CompactedAt(before, after, n, levels)
  {
    forall i | |before| <= i < |after| && i != n ensures after[i].Appended? {
      if i < |log| { assert after[i] == log[i]; }
    }
  }

  /** A compaction changes the levels. */
  lemma LevelsMove(log: seq<Commit>, planned: Head, levels: seq<Option<Run>>)
    requires Log(log) && Fits(log, planned) && PlanOk(planned, levels)
    ensures levels != planned.levels
  {
    hide NewLevels, CascadeFrom;
    var head := log[|log| - 1].head;
    var c := Compacted(Compact(head, levels));
    assert head.l0[..L0_TRIGGER] == planned.l0[..L0_TRIGGER];
    assert Commits.Commits(Some(head), c);
    LogHeadOk(log);
    CompactedGrows(head, Packages(log), c);
  }

  /** An attempt that is not lost commits the planned compaction of the head it holds. */
  lemma AttemptWon(cas: Cas, s: System, pid: nat, planned: Head, levels: seq<Option<Run>>, tries: nat, a: Attempt)
    requires Trying(s, pid, planned, levels, tries) && Others(pid, a.before) && Others(pid, a.between)
    requires !Lost(cas, s, pid, a)
    ensures
      var t := Attempted(cas, s, pid, a);
      && AmongPublishers(t, pid)
      && t.processes[pid] == Compactor(if a.fault == Fine then CompactOk(true) else Retry(planned, levels, tries))
      && t.log != [] && CompactedAt(s.log, t.log, |t.log| - 1, levels)
      && t.log[|t.log| - 1].head.levels != planned.levels
  {
    hide SystemOk, Longer, Apply, Contention.From, PlanOk, Reread, Fits, Log, CompactedAt;
    ReadHolds(cas, s, pid, planned, levels, tries, a);
    var r := Reread(cas, s, pid, a);
    AllAside(cas, pid, r, a.between);
    var u := AtSwap(cas, s, pid, a);
    Known(u, pid);
    FitsSome(r.log, planned);
    FitsSome(s.log, planned);
    LevelsMove(r.log, planned, levels);
    CommitsAt(s.log, r.log, levels);
    OwnStep(cas, u, pid, MergedSwap(planned, levels, Stored(r.log).value, tries), a.fault);
  }

  // ---------------------------------------------------------------- all attempts

  /** The compactor is in the state `comp`, and nothing but publications happened since `log`. */
  ghost predicate Stands(log: seq<Commit>, s: System, pid: nat, comp: Compacting)
  {
    AmongPublishers(s, pid) && s.processes[pid] == Compactor(comp) && Longer(log, s.log)
  }

  /** One attempt of a compactor that commits nothing more. */
  lemma AttemptIdle(cas: Cas, log: seq<Commit>, s: System, pid: nat, comp: Compacting, a: Attempt)
    requires Stands(log, s, pid, comp) && Others(pid, a.before) && Others(pid, a.between)
    requires comp.CompactOk? || comp.CompactErr? || (
      && comp.MergedRead? && log != []
      && log[|log| - 1].head.levels != comp.planned.levels)
    ensures Stands(log, Attempted(cas, s, pid, a), pid, if comp.MergedRead? then CompactErr else comp)
  {
    hide SystemOk, Apply, Contention.From, Longer, CompactOnce;
    AllAside(cas, pid, s, a.before);
    var b := Contention.From(cas, s, a.before);
    LongerTwice(log, s.log, b.log);
    Settles(cas, log, b.log, comp, Fine);
    OwnStep(cas, b, pid, comp, Fine);
    var r := Reread(cas, s, pid, a);
    AllAside(cas, pid, r, a.between);
    var u := AtSwap(cas, s, pid, a);
    LongerTwice(log, r.log, u.log);
    var settled := if comp.MergedRead? then CompactErr else comp;
    Settles(cas, log, u.log, settled, a.fault);
    OwnStep(cas, u, pid, settled, a.fault);
  }

  /** A compactor that returned stays as it is; one whose plan was replaced gives up. */
  lemma Settles(cas: Cas, log: seq<Commit>, now: seq<Commit>, comp: Compacting, fault: Fault)
    requires Longer(log, now)
    requires comp.CompactOk? || comp.CompactErr? || (
      && comp.MergedRead? && log != []
      && log[|log| - 1].head.levels != comp.planned.levels)
    ensures CompactOnce(cas, now, comp, fault) == (if comp.MergedRead? then CompactErr else comp, None)
  {
  }

  lemma {:induction false} Idles(cas: Cas, log: seq<Commit>, s: System, pid: nat, comp: Compacting,
                                 attempts: seq<Attempt>)
    requires Stands(log, s, pid, comp) && AllOthers(pid, attempts)
    requires comp.CompactOk? || comp.CompactErr? || (
      && comp.MergedRead? && log != []
      && log[|log| - 1].head.levels != comp.planned.levels)
    ensures Stands(log, Contend(cas, s, pid, attempts), pid,
                   if comp.MergedRead? && attempts != [] then CompactErr else comp)
    decreases |attempts|
  {
    hide Stands, Attempted, Others;
    if attempts != [] {
      AttemptIdle(cas, log, s, pid, comp, attempts[0]);
      Idles(cas, log, Attempted(cas, s, pid, attempts[0]), pid, if comp.MergedRead? then CompactErr else comp,
            attempts[1..]);
    }
  }

  /** A compactor that won stands where the winning swap left it, or gives up on its next read. */
  function Winner(planned: Head, levels: seq<Option<Run>>, tries: nat, fault: Fault, more: nat): Compacting
  {
    if fault == Fine then CompactOk(true)
    else if tries + 1 < CAS_ATTEMPTS && more == 0 then MergedRead(planned, levels, tries + 1)
    else CompactErr
  }

  /** What `lost` losses before the first attempt that is not lost come to. */
  ghost predicate Decided(before: seq<Commit>, t: System, pid: nat, planned: Head, levels: seq<Option<Run>>,
                          tries: nat, lost: nat, attempts: seq<Attempt>)
  {
    && lost <= |attempts| && pid in t.processes
    && if tries + lost >= CAS_ATTEMPTS then
         t.processes[pid] == Compactor(CompactErr) && Longer(before, t.log)
       else if lost == |attempts| then
         t.processes[pid] == Compactor(MergedRead(planned, levels, tries + lost)) && Longer(before, t.log)
       else
         && t.processes[pid] == Compactor(Winner(planned, levels, tries + lost, attempts[lost].fault,
                                                 |attempts| - lost - 1))
         && exists n :: CompactedAt(before, t.log, n, levels)
  }

  lemma Wins(cas: Cas, s: System, pid: nat, planned: Head, levels: seq<Option<Run>>, tries: nat,
             attempts: seq<Attempt>)
    requires Trying(s, pid, planned, levels, tries) && AllOthers(pid, attempts) && tries < CAS_ATTEMPTS
    requires attempts != [] && !Lost(cas, s, pid, attempts[0])
    ensures Decided(s.log, Contend(cas, s, pid, attempts), pid, planned, levels, tries, 0, attempts)
  {
    hide SystemOk, Attempted, Lost, Others, Longer, CompactedAt, PlanOk, Fits;
    var t := Attempted(cas, s, pid, attempts[0]);
    AttemptWon(cas, s, pid, planned, levels, tries, attempts[0]);
    var comp := t.processes[pid].comp;
    LongerRefl(t.log);
    Idles(cas, t.log, t, pid, comp, attempts[1..]);
    var n: nat := |t.log| - 1;
    CompactedAtLonger(s.log, t.log, Contend(cas, s, pid, attempts).log, n, levels);
  }

  lemma DecidedEarlier(before: seq<Commit>, log: seq<Commit>, t: System, pid: nat, planned: Head,
                       levels: seq<Option<Run>>, tries: nat, lost: nat, attempts: seq<Attempt>)
    requires attempts != [] && before != [] && Longer(before, log)
    requires Decided(log, t, pid, planned, levels, tries + 1, lost, attempts[1..])
    ensures Decided(before, t, pid, planned, levels, tries, lost + 1, attempts)
  {
    hide Longer, CompactedAt, Winner;
    if tries + 1 + lost < CAS_ATTEMPTS && lost < |attempts[1..]| {
      var n :| CompactedAt(log, t.log, n, levels);
      CompactedAtEarlier(before, log, t.log, n, levels);
    } else {
      LongerTwice(before, log, t.log);
    }
  }

  lemma {:induction false} AttemptsDecide(cas: Cas, s: System, pid: nat, planned: Head, levels: seq<Option<Run>>,
                                          tries: nat, attempts: seq<Attempt>)
    requires Trying(s, pid, planned, levels, tries) && AllOthers(pid, attempts) && tries < CAS_ATTEMPTS
    ensures Decided(s.log, Contend(cas, s, pid, attempts), pid, planned, levels, tries,
                    Losses(cas, s, pid, attempts), attempts)
    decreases |attempts|
  {
    hide SystemOk, Attempted, Lost, Others, Longer, CompactedAt, PlanOk, Decided;
    if attempts == [] {
      LongerRefl(s.log);
      NotYet(s, pid, planned, levels, tries);
    } else if !Lost(cas, s, pid, attempts[0]) {
      Wins(cas, s, pid, planned, levels, tries, attempts);
    } else {
      var a, rest := attempts[0], attempts[1..];
      AttemptLost(cas, s, pid, planned, levels, tries, a);
      var t := Attempted(cas, s, pid, a);
      if tries + 1 < CAS_ATTEMPTS {
        AttemptsDecide(cas, t, pid, planned, levels, tries + 1, rest);
        DecidedEarlier(s.log, t.log, Contend(cas, t, pid, rest), pid, planned, levels, tries,
                       Losses(cas, t, pid, rest), attempts);
      } else {
        Idles(cas, s.log, t, pid, CompactErr, rest);
        OutOfTries(s.log, Contend(cas, t, pid, rest), pid, planned, levels, tries, Losses(cas, t, pid, rest), attempts);
      }
    }
  }

  lemma NotYet(s: System, pid: nat, planned: Head, levels: seq<Option<Run>>, tries: nat)
    requires pid in s.processes && s.processes[pid] == Compactor(MergedRead(planned, levels, tries))
    requires tries < CAS_ATTEMPTS && Longer(s.log, s.log)
    ensures Decided(s.log, s, pid, planned, levels, tries, 0, [])
  {
  }

  lemma OutOfTries(before: seq<Commit>, t: System, pid: nat, planned: Head, levels: seq<Option<Run>>,
                   tries: nat, lost: nat, attempts: seq<Attempt>)
    requires tries + 1 >= CAS_ATTEMPTS && lost + 1 <= |attempts| && Stands(before, t, pid, CompactErr)
    ensures Decided(before, t, pid, planned, levels, tries, lost + 1, attempts)
  {
  }

  /**
   A compactor that finds four L0 runs and levels to take them, among any publishers with
   any faults of its swaps. If one of its 32 attempts is not lost, exactly one compaction
   is committed: it has the planned levels and all L0 runs behind the first four, appended
   ones included. The compactor then returns success, or an error if the acknowledgement of
   that very swap was lost. If every attempt is lost it fails and nothing was compacted.
   */
  lemma {:induction false} CompactorContends(cas: Cas, s: System, pid: nat, levels: seq<Option<Run>>,
                                             attempts: seq<Attempt>)
    requires AmongPublishers(s, pid) && s.processes[pid] == Compactor(PlanRead)
    requires s.log != [] && PlanOk(s.log[|s.log| - 1].head, levels)
    requires AllOthers(pid, attempts) && |attempts| >= CAS_ATTEMPTS
    ensures
      var read := Apply(cas, s, Go(pid, Fine));
      var t := Contend(cas, read, pid, attempts);
      var lost := Losses(cas, read, pid, attempts);
      && read.log == s.log && s.log <= t.log && pid in t.processes
      && (lost < CAS_ATTEMPTS ==>
            && t.processes[pid] == Compactor(if attempts[lost].fault == Fine then CompactOk(true) else CompactErr)
            && exists n :: CompactedAt(s.log, t.log, n, levels))
      && (lost >= CAS_ATTEMPTS ==>
            && t.processes[pid] == Compactor(CompactErr)
            && forall i :: |s.log| <= i < |t.log| ==> t.log[i].Appended?)
  {
    hide SystemOk, Losses, Contend, CompactedAt, NewLevels;
    var planned := s.log[|s.log| - 1].head;
    OwnStep(cas, s, pid, PlanRead, Fine);
    var read := Apply(cas, s, Go(pid, Fine));
    AttemptsDecide(cas, read, pid, planned, levels, 0, attempts);
    var t, lost := Contend(cas, read, pid, attempts), Losses(cas, read, pid, attempts);
    if lost < CAS_ATTEMPTS {
      var n :| CompactedAt(s.log, t.log, n, levels);
      assert s.log <= t.log by { AtPrefix(s.log, t.log, n, levels); }
    }
  }

  lemma AtPrefix(before: seq<Commit>, after: seq<Commit>, n: nat, levels: seq<Option<Run>>)
    requires CompactedAt(before, after, n, levels)
    ensures before <= after
  {
  }
}
