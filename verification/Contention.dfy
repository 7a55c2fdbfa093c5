/**
 A publisher among compactors. Compactors may act before its swaps and between a swap and
 the check that follows it, and a swap may fail or lose its acknowledgement; the publisher
 commits exactly when one of its 32 attempts finds the head it read last, and only once.
 */
module Contention {
  import opened Bytes
  import opened Head
  import opened Ledger
  import opened Commits
  import opened Protocol

  /** The system after some actions, from `s` on. */
  ghost function From(cas: Cas, s: System, actions: seq<Action>): System
  {
    if actions == [] then s
    else Apply(cas, From(cas, s, actions[..|actions| - 1]), actions[|actions| - 1])
  }

  /** One round of the update loop: what others do before the swap, its fault, and what they do before the check. */
  datatype Attempt = Attempt(before: seq<Action>, fault: Fault, between: seq<Action>)

  /** Every process but `pid` is a compactor. */
  ghost predicate AmongCompactors(s: System, pid: nat)
  {
    && SystemOk(s) && pid in s.processes
    && forall q :: q in s.processes && q != pid ==> s.processes[q].Compactor?
  }

  /** Actions of other processes that start nothing but compactors. */
  ghost predicate Others(pid: nat, actions: seq<Action>)
  {
    forall a :: a in actions ==> a.pid != pid && (a.Spawn? ==> a.process.Compactor?)
  }

  ghost predicate AllOthers(pid: nat, attempts: seq<Attempt>)
  {
    forall k :: 0 <= k < |attempts| ==> Others(pid, attempts[k].before) && Others(pid, attempts[k].between)
  }

  ghost function Swapped(cas: Cas, s: System, pid: nat, a: Attempt): System
  {
    Apply(cas, From(cas, s, a.before), Go(pid, a.fault))
  }

  ghost function Attempted(cas: Cas, s: System, pid: nat, a: Attempt): System
  {
    Apply(cas, From(cas, Swapped(cas, s, pid, a), a.between), Go(pid, Fine))
  }

  ghost function Contend(cas: Cas, s: System, pid: nat, attempts: seq<Attempt>): System
    decreases |attempts|
  {
    if attempts == [] then s else Contend(cas, Attempted(cas, s, pid, attempts[0]), pid, attempts[1..])
  }

  /** The attempt fails: something was committed since the head was read, or the swap itself failed. */
  ghost predicate Lost(cas: Cas, s: System, a: Attempt)
  {
    From(cas, s, a.before).log != s.log || a.fault == Failed
  }

  /** How many attempts are lost before the first one that is not. */
  ghost function Losses(cas: Cas, s: System, pid: nat, attempts: seq<Attempt>): (n: nat)
    ensures n <= |attempts|
    decreases |attempts|
  {
    if attempts == [] || !Lost(cas, s, attempts[0]) then 0
    else 1 + Losses(cas, Attempted(cas, s, pid, attempts[0]), pid, attempts[1..])
  }

  // ---------------------------------------------------------------- what compactors leave alone

  predicate SameTip(g: Head, h: Head)
  {
    g.genesis == h.genesis && g.number == h.number && g.hash == h.hash && g.input == h.input
  }

  /** The history grew by compactions only. */
  ghost predicate Quieter(before: seq<Commit>, after: seq<Commit>)
  {
    && before <= after && Packages(after) == Packages(before) && (before == [] ==> after == [])
    && (before != [] ==> SameTip(before[|before| - 1].head, after[|after| - 1].head))
  }

  /** Nothing but compactions happened between `s` and `t`, and `pid` did not move. */
  ghost predicate Aside(pid: nat, s: System, t: System)
  {
    AmongCompactors(t, pid) && pid in s.processes && t.processes[pid] == s.processes[pid] && Quieter(s.log, t.log)
  }

  lemma QuietCommit(log: seq<Commit>, head: Head, levels: seq<Option<Run>>)
    requires log != [] && head == log[|log| - 1].head && |head.l0| >= L0_TRIGGER
    ensures Quieter(log, log + [Compacted(Compact(head, levels))])
  {
    var after := log + [Compacted(Compact(head, levels))];
    assert after[..|log|] == log;
  }

  /** A compactor's step commits a compaction of the stored head, or nothing. */
  lemma CompactorQuiet(cas: Cas, log: seq<Commit>, comp: Compacting, fault: Fault)
    requires Log(log) && CompactingOk(log, comp)
    ensures
      var (next, commit) := CompactOnce(cas, log, comp, fault);
      commit.Some? ==> Quieter(log, log + [commit.value])
  {
    hide Log, NewLevels, Quieter, Packages;
    match comp
    case MergedSwap(planned, levels, held, tries) =>
      if |held.head.l0| >= L0_TRIGGER && fault != Failed && Matches(cas, Some(held), log) {
        MatchMeansCurrent(cas, log, Some(held));
        QuietCommit(log, held.head, levels);
      }
    case _ =>
  }

  lemma QuietRefl(log: seq<Commit>)
    ensures Quieter(log, log)
  {
  }

  lemma QuietTwice(a: seq<Commit>, b: seq<Commit>, c: seq<Commit>)
    requires Quieter(a, b) && Quieter(b, c)
    ensures Quieter(a, c)
  {
  }

  lemma OneAside(cas: Cas, pid: nat, s: System, a: Action)
    requires AmongCompactors(s, pid) && a.pid != pid && (a.Spawn? ==> a.process.Compactor?)
    ensures Aside(pid, s, Apply(cas, s, a))
  {
    hide Log, Quieter, CompactOnce, Publish, CompactingOk, PublishingOk;
    ApplyKeeps(cas, s, a);
    QuietRefl(s.log);
    if a.Go? && a.pid in s.processes {
      assert ProcessOk(s.log, s.processes[a.pid]);
      CompactorQuiet(cas, s.log, s.processes[a.pid].comp, a.fault);
    }
  }

  lemma {:induction false} AllAside(cas: Cas, pid: nat, s: System, actions: seq<Action>)
    requires AmongCompactors(s, pid) && Others(pid, actions)
    ensures Aside(pid, s, From(cas, s, actions))
  {
    hide SystemOk, Quieter, Apply;
    if actions == [] {
      QuietRefl(s.log);
    } else {
      var init, a := actions[..|actions| - 1], actions[|actions| - 1];
      AllAside(cas, pid, s, init);
      var t := From(cas, s, init);
      OneAside(cas, pid, t, a);
      QuietTwice(s.log, t.log, Apply(cas, t, a).log);
    }
  }

  // ---------------------------------------------------------------- one attempt

  /** The publisher is about to try to swap the head that is stored. */
  ghost predicate Trying(s: System, pid: nat, p: Package, gate: Gate, tries: nat)
  {
    AmongCompactors(s, pid) && s.processes[pid] == Publisher(p, gate, PubSwap(Stored(s.log), tries))
  }

  /** The publisher is in the state `pub`, and the packages `more` were committed since `log`. */
  ghost predicate Stands(log: seq<Commit>, s: System, pid: nat, p: Package, gate: Gate, pub: Publishing,
                         more: seq<Package>)
  {
    && AmongCompactors(s, pid) && s.processes[pid] == Publisher(p, gate, pub)
    && Packages(s.log) == Packages(log) + more
  }

  /** How often a publication may try: without a stored head a failed creation is final. */
  function Allowed(log: seq<Commit>): nat { if log == [] then 1 else CAS_ATTEMPTS }

  /** A head the package continues does not name the package. */
  lemma NotPublished(log: seq<Commit>, previous: Held, head: Head, p: Package)
    requires MayAppend(log, Some(previous), p) && SameTip(previous.head, head)
    ensures !IsPublished(head, p)
  {
    hide HeldOk;
    History.StartToEnd(p);
  }

  /** A step of the publisher itself. */
  lemma OwnStep(cas: Cas, s: System, pid: nat, p: Package, gate: Gate, at: Publishing, fault: Fault)
    requires AmongCompactors(s, pid) && s.processes[pid] == Publisher(p, gate, at)
    ensures
      var (next, commit) := Publish(cas, s.log, p, gate, at, fault);
      var t := Apply(cas, s, Go(pid, fault));
      && AmongCompactors(t, pid) && t.processes[pid] == Publisher(p, gate, next)
      && t.log == if commit.Some? then s.log + [commit.value] else s.log
  {
    hide SystemOk, Publish;
    ApplyKeeps(cas, s, Go(pid, fault));
  }

  lemma MayTry(s: System, pid: nat, p: Package, gate: Gate, previous: Option<Held>, tries: nat)
    requires AmongCompactors(s, pid)
    requires s.processes[pid] in {Publisher(p, gate, PubSwap(previous, tries)),
                                  Publisher(p, gate, PubCheck(previous, tries))}
    ensures Log(s.log) && MayAppend(s.log, previous, p) && p.blocks != []
  {
    hide Log, MayAppend;
    assert ProcessOk(s.log, s.processes[pid]);
    assert MayAppend(s.log, previous, p);
    Continues(s.log, previous, p);
  }

  lemma Continues(log: seq<Commit>, previous: Option<Held>, p: Package)
    requires MayAppend(log, previous, p)
    ensures p.blocks != []
  {
  }

  /** A head that was replaced is matched by neither comparison. */
  lemma Replaced(cas: Cas, before: seq<Commit>, log: seq<Commit>)
    requires Log(log) && Quieter(before, log) && log != before
    ensures !Matches(cas, Stored(before), log)
  {
    hide Log, Packages;
    var held := Held(|before|, before[|before| - 1].head);
    assert log[|before| - 1] == before[|before| - 1];
    MatchesAgree(log, held);
  }

  lemma SwapLost(cas: Cas, s: System, pid: nat, p: Package, gate: Gate, tries: nat, a: Attempt)
    requires Trying(s, pid, p, gate, tries) && Others(pid, a.before) && Lost(cas, s, a)
    ensures
      var t := Swapped(cas, s, pid, a);
      && AmongCompactors(t, pid) && t.processes[pid] == Publisher(p, gate, PubCheck(Stored(s.log), tries))
      && Quieter(s.log, t.log)
  {
    hide SystemOk, Quieter, Publishable, Log, Apply, From;
    AllAside(cas, pid, s, a.before);
    var t := From(cas, s, a.before);
    var previous := Stored(s.log);
    Known(t, pid, p, gate, previous, tries);
    if t.log != s.log { Replaced(cas, s.log, t.log); }
    OwnStep(cas, t, pid, p, gate, PubSwap(previous, tries), a.fault);
  }

  lemma Known(s: System, pid: nat, p: Package, gate: Gate, previous: Option<Held>, tries: nat)
    requires AmongCompactors(s, pid) && s.processes[pid] == Publisher(p, gate, PubSwap(previous, tries))
    ensures Log(s.log)
  {
  }

  /** A lost attempt rebases the publisher on the stored head, or ends it. */
  lemma AttemptLost(cas: Cas, s: System, pid: nat, p: Package, gate: Gate, tries: nat, a: Attempt)
    requires Trying(s, pid, p, gate, tries) && Others(pid, a.before) && Others(pid, a.between) && Lost(cas, s, a)
    ensures
      var t := Attempted(cas, s, pid, a);
      && Quieter(s.log, t.log)
      && Stands(s.log, t, pid, p, gate,
                if tries + 1 < Allowed(s.log) then PubSwap(Stored(t.log), tries + 1) else PubErr, [])
  {
    hide SystemOk, MayAppend, From, Apply, Lost, Swapped, Log;
    SwapLost(cas, s, pid, p, gate, tries, a);
    var u := Swapped(cas, s, pid, a);
    AllAside(cas, pid, u, a.between);
    var v := From(cas, u, a.between);
    QuietTwice(s.log, u.log, v.log);
    var previous := Stored(s.log);
    MayTry(v, pid, p, gate, previous, tries);
    if s.log != [] { NotPublished(v.log, previous.value, v.log[|v.log| - 1].head, p); }
    OwnStep(cas, v, pid, p, gate, PubCheck(previous, tries), Fine);
  }

  lemma SwapWon(cas: Cas, s: System, pid: nat, p: Package, gate: Gate, tries: nat, a: Attempt)
    requires Trying(s, pid, p, gate, tries) && Others(pid, a.before) && !Lost(cas, s, a)
    ensures
      var t := Swapped(cas, s, pid, a);
      && AmongCompactors(t, pid) && t.log != [] && Packages(t.log) == Packages(s.log) + [p]
      && IsPublished(t.log[|t.log| - 1].head, p)
      && t.processes[pid] in {Publisher(p, gate, PubOk), Publisher(p, gate, PubCheck(Stored(s.log), tries))}
  {
    hide SystemOk, Quieter, MayAppend, Log, From, Apply, Append, IsPublished, Packages, Publish;
    AllAside(cas, pid, s, a.before);
    var t := From(cas, s, a.before);
    var previous := Stored(s.log);
    MayTry(t, pid, p, gate, previous, tries);
    var commit := Appended(Append(HeadOf(previous), p), p);
    Takes(cas, s.log, p, gate, tries, a.fault);
    NewHead(s.log, previous, p);
    OneMore(s.log, commit);
    OwnStep(cas, t, pid, p, gate, PubSwap(previous, tries), a.fault);
  }

  /** A swap of the stored head takes effect. */
  lemma Takes(cas: Cas, log: seq<Commit>, p: Package, gate: Gate, tries: nat, fault: Fault)
    requires p.blocks != [] && fault != Failed
    ensures Publish(cas, log, p, gate, PubSwap(Stored(log), tries), fault)
            == (if fault == AckLost then PubCheck(Stored(log), tries) else PubOk,
                Some(Appended(Append(HeadOf(Stored(log)), p), p)))
  {
  }

  lemma NewHead(log: seq<Commit>, previous: Option<Held>, p: Package)
    requires MayAppend(log, previous, p)
    ensures p.blocks != [] && IsPublished(Append(HeadOf(previous), p), p)
  {
  }

  lemma OneMore(log: seq<Commit>, c: Commit)
    requires c.Appended?
    ensures Packages(log + [c]) == Packages(log) + [c.package]
  {
    assert (log + [c])[..|log|] == log;
  }

  lemma PublishedStays(g: Head, h: Head, p: Package)
    requires IsPublished(g, p) && SameTip(g, h)
    ensures IsPublished(h, p)
  {
  }

  /** An attempt that is not lost commits the package, and the publisher learns of it. */
  lemma AttemptWon(cas: Cas, s: System, pid: nat, p: Package, gate: Gate, tries: nat, a: Attempt)
    requires Trying(s, pid, p, gate, tries) && Others(pid, a.before) && Others(pid, a.between) && !Lost(cas, s, a)
    ensures Stands(s.log, Attempted(cas, s, pid, a), pid, p, gate, PubOk, [p])
  {
    hide SystemOk, IsPublished, From, Apply, Lost, Swapped;
    SwapWon(cas, s, pid, p, gate, tries, a);
    var u := Swapped(cas, s, pid, a);
    AllAside(cas, pid, u, a.between);
    var v := From(cas, u, a.between);
    PublishedStays(u.log[|u.log| - 1].head, v.log[|v.log| - 1].head, p);
    OwnStep(cas, v, pid, p, gate, u.processes[pid].pub, Fine);
  }

  // ---------------------------------------------------------------- all attempts

  /** A publisher that has returned stays as it is. */
  lemma {:induction false} Returned(cas: Cas, log: seq<Commit>, s: System, pid: nat, p: Package, gate: Gate,
                                    pub: Publishing, more: seq<Package>, attempts: seq<Attempt>)
    requires Stands(log, s, pid, p, gate, pub, more) && (pub.PubOk? || pub.PubErr?) && AllOthers(pid, attempts)
    ensures Stands(log, Contend(cas, s, pid, attempts), pid, p, gate, pub, more)
    decreases |attempts|
  {
    hide SystemOk, From, Apply, Others;
    if attempts != [] {
      var a := attempts[0];
      AllAside(cas, pid, s, a.before);
      var t := From(cas, s, a.before);
      OwnStep(cas, t, pid, p, gate, pub, a.fault);
      var u := Swapped(cas, s, pid, a);
      AllAside(cas, pid, u, a.between);
      OwnStep(cas, From(cas, u, a.between), pid, p, gate, pub, Fine);
      Returned(cas, log, Attempted(cas, s, pid, a), pid, p, gate, pub, more, attempts[1..]);
    }
  }

  /** Where a publisher stands after `lost` of `n` further attempts were lost before the first that was not. */
  function Outcome(log: seq<Commit>, now: seq<Commit>, tries: nat, lost: nat, n: nat): Publishing
  {
    if tries + lost >= Allowed(log) then PubErr
    else if lost == n then PubSwap(Stored(now), tries + lost)
    else PubOk
  }

  lemma {:induction false} AttemptsDecide(cas: Cas, s: System, pid: nat, p: Package, gate: Gate, tries: nat,
                                          attempts: seq<Attempt>)
    requires Trying(s, pid, p, gate, tries) && AllOthers(pid, attempts) && tries < Allowed(s.log)
    ensures
      var t, lost := Contend(cas, s, pid, attempts), Losses(cas, s, pid, attempts);
      var pub := Outcome(s.log, t.log, tries, lost, |attempts|);
      Stands(s.log, t, pid, p, gate, pub, if pub == PubOk then [p] else [])
    decreases |attempts|
  {
    hide SystemOk, Attempted, Lost, Others;
    if attempts != [] {
      var a, rest := attempts[0], attempts[1..];
      var t := Attempted(cas, s, pid, a);
      if !Lost(cas, s, a) {
        AttemptWon(cas, s, pid, p, gate, tries, a);
        Returned(cas, s.log, t, pid, p, gate, PubOk, [p], rest);
      } else {
        AttemptLost(cas, s, pid, p, gate, tries, a);
        if tries + 1 < Allowed(s.log) {
          AttemptsDecide(cas, t, pid, p, gate, tries + 1, rest);
        } else {
          Returned(cas, s.log, t, pid, p, gate, PubErr, [], rest);
        }
      }
    }
  }

  /**
   A publication that finds a head it continues, among any compactors with any faults of
   its swaps: it succeeds exactly when one of its allowed attempts is not lost, and then
   the package is committed exactly once; otherwise it fails and the history is as it was.
   */
  lemma {:induction false} PublisherContends(cas: Cas, s: System, pid: nat, p: Package, gate: Gate,
                                             attempts: seq<Attempt>)
    requires AmongCompactors(s, pid) && s.processes[pid] == Publisher(p, gate, PubRead) && Ready(s.log, p, gate)
    requires AllOthers(pid, attempts) && |attempts| >= Allowed(s.log)
    ensures
      var read := Apply(cas, s, Go(pid, Fine));
      var t := Contend(cas, read, pid, attempts);
      var won := Losses(cas, read, pid, attempts) < Allowed(s.log);
      && read.log == s.log
      && pid in t.processes && t.processes[pid] == Publisher(p, gate, if won then PubOk else PubErr)
      && Packages(t.log) == Packages(s.log) + if won then [p] else []
  {
    hide SystemOk, Losses, Contend, Packages;
    PublisherSteps(cas, s.log, p, gate);
    OwnStep(cas, s, pid, p, gate, PubRead, Fine);
    AttemptsDecide(cas, Apply(cas, s, Go(pid, Fine)), pid, p, gate, 0, attempts);
  }
}
