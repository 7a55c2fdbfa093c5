/**
 What gets past the checks of a publication and what does not, written out field by field:
 in every run, an admitted package is gated on its own last block and the committed
 packages are one chain from genesis, while a published package and an idle compactor
 leave the store as it is.
 */
module Admission {
  import opened Bytes
  import opened Head
  import opened Ledger
  import opened Commits
  import opened Growth
  import opened Protocol

  // ---------------------------------------------------------------- gates

  /** The gate has seen this block, by number and hash, and is not behind it. */
  ghost predicate Names(gate: Gate, number: nat, hash: Hash)
  {
    gate == Finalized(number, hash) || gate == FixedOffset(number, hash, 0)
  }

  ghost predicate GatedOn(gate: Gate, p: Package)
  {
    p.blocks != [] && Names(gate, p.Last().number, p.Last().hash)
  }

  /** A publisher that has neither just started nor failed got past its gate. */
  ghost predicate Gated(process: Process)
  {
    process.Publisher? && !process.pub.PubRead? && !process.pub.PubErr? ==> GatedOn(process.gate, process.package)
  }

  /** Some publisher brought this package through its gate. */
  ghost predicate Brought(processes: map<nat, Process>, p: Package)
  {
    exists pid :: pid in processes && processes[pid].Publisher?
      && processes[pid].package == p && GatedOn(processes[pid].gate, p)
  }

  ghost predicate AllGated(s: System)
  {
    && (forall pid :: pid in s.processes ==> Gated(s.processes[pid]))
    && (forall c :: c in s.log && c.Appended? ==> Brought(s.processes, c.package))
  }

  lemma StepGated(cas: Cas, log: seq<Commit>, process: Process, fault: Fault)
    requires Gated(process)
    ensures
      var (next, commit) := Advance(cas, log, process, fault);
      && Gated(next) && (next.Publisher? <==> process.Publisher?)
      && (next.Publisher? ==> next.package == process.package && next.gate == process.gate)
      && (commit.Some? && commit.value.Appended? ==>
            process.Publisher? && commit.value.package == process.package && GatedOn(process.gate, process.package))
  {
    hide NewLevels, Append, Compact, Follows;
  }

  lemma BroughtMore(s: System, pid: nat, next: Process, p: Package)
    requires Brought(s.processes, p)
    requires pid !in s.processes || (
      && next.Publisher? == s.processes[pid].Publisher?
      && (next.Publisher? ==> next.package == s.processes[pid].package && next.gate == s.processes[pid].gate))
    ensures Brought(s.processes[pid := next], p)
  {
    var q :| q in s.processes && s.processes[q].Publisher?
      && s.processes[q].package == p && GatedOn(s.processes[q].gate, p);
    var more := s.processes[pid := next];
    assert q in more && more[q].Publisher? && more[q].package == p && GatedOn(more[q].gate, p);
  }

  lemma ApplyGated(cas: Cas, s: System, a: Action)
    requires AllGated(s)
    ensures AllGated(Apply(cas, s, a))
  {
    hide Advance, GatedOn, Brought;
    if a.Go? && a.pid in s.processes {
      StepGated(cas, s.log, s.processes[a.pid], a.fault);
      var (next, commit) := Advance(cas, s.log, s.processes[a.pid], a.fault);
      var t := Apply(cas, s, a);
      forall c | c in t.log && c.Appended? ensures Brought(t.processes, c.package) {
        if c in s.log { BroughtMore(s, a.pid, next, c.package); } else { BroughtBy(t, a.pid, c.package); }
      }
    } else if a.Spawn? && a.pid !in s.processes && Starting(a.process) {
      forall c | c in s.log && c.Appended? ensures Brought(s.processes[a.pid := a.process], c.package) {
        BroughtMore(s, a.pid, a.process, c.package);
      }
    }
  }

  lemma BroughtBy(s: System, pid: nat, p: Package)
    requires pid in s.processes && s.processes[pid].Publisher?
    requires s.processes[pid].package == p && GatedOn(s.processes[pid].gate, p)
    ensures Brought(s.processes, p)
  {
  }

  lemma {:induction false} RunGated(cas: Cas, actions: seq<Action>)
    ensures AllGated(After(cas, actions))
  {
    if actions != [] {
      hide AllGated, Apply;
      RunGated(cas, actions[..|actions| - 1]);
      ApplyGated(cas, After(cas, actions[..|actions| - 1]), actions[|actions| - 1]);
    }
  }

  /**
   In every run a publisher past its first read that has not failed, and the publisher of
   every committed package, has a gate that names the package's last block by number and
   hash, at no offset.
   */
  lemma EveryRunGated(cas: Cas, actions: seq<Action>)
    ensures var s := After(cas, actions);
      && (forall pid :: pid in s.processes && s.processes[pid].Publisher? ==>
            s.processes[pid].pub.PubRead? || s.processes[pid].pub.PubErr? ||
            var p, gate := s.processes[pid].package, s.processes[pid].gate;
            && p.blocks != []
            && match gate
               case Finalized(number, hash) => number == p.Last().number && hash == p.Last().hash
               case FixedOffset(number, hash, offset) =>
                 number == p.Last().number && hash == p.Last().hash && offset == 0)
      && (forall c :: c in s.log && c.Appended? ==> Brought(s.processes, c.package))
  {
    hide Brought;
    RunGated(cas, actions);
    var s := After(cas, actions);
    assert forall pid :: pid in s.processes ==> Gated(s.processes[pid]);
  }

  /** A gate that names anything else stops the publisher at once, whatever is stored. */
  lemma OtherGateStops(cas: Cas, s: System, pid: nat, p: Package, gate: Gate, fault: Fault)
    requires pid in s.processes && s.processes[pid] == Publisher(p, gate, PubRead) && p.blocks != []
    requires gate != Finalized(p.Last().number, p.Last().hash) && gate != FixedOffset(p.Last().number, p.Last().hash, 0)
    ensures Apply(cas, s, Go(pid, fault)) == System(s.log, s.processes[pid := Publisher(p, gate, PubErr)])
  {
  }

  /** A package that is the stored head's newest is published already: one read, and nothing is written. */
  lemma PublishedReturns(cas: Cas, s: System, pid: nat, p: Package, gate: Gate)
    requires pid in s.processes && s.processes[pid] == Publisher(p, gate, PubRead) && Publishable(p)
    requires gate == Finalized(p.Last().number, p.Last().hash) || gate == FixedOffset(p.Last().number, p.Last().hash, 0)
    requires s.log != []
    requires var head := s.log[|s.log| - 1].head;
      && head.genesis == p.genesis && head.input == p.input
      && head.number == p.Last().number && head.hash == p.Last().hash
    ensures Apply(cas, s, Go(pid, Fine)) == System(s.log, s.processes[pid := Publisher(p, gate, PubOk)])
  {
    hide Follows, Append;
  }

  // ---------------------------------------------------------------- the committed chain

  /** The packages are one chain of blocks: an anchor at genesis, then deltas, each naming the one before. */
  ghost predicate OneChain(ps: seq<Package>)
  {
    && (forall i :: 0 <= i < |ps| ==> 0 < |ps[i].blocks| <= MAX_BLOCKS && Linked(ps[i].blocks))
    && (ps != [] ==>
          && ps[0].mode == Anchor && ps[0].First().number == 0
          && ps[0].First().hash == ps[0].genesis && ps[0].First().parentHash == ZERO_HASH)
    && (forall i :: 0 < i < |ps| ==> Continues(ps[i - 1], ps[i]))
  }

  /** Each block follows the one before, by number and by hash. */
  ghost predicate Linked(blocks: seq<Block>)
  {
    forall i :: 0 < i < |blocks| ==>
      blocks[i].number == blocks[i - 1].number + 1 && blocks[i].parentHash == blocks[i - 1].hash
  }

  ghost predicate Continues(p: Package, q: Package)
  {
    && p.blocks != [] && q.blocks != []
    && q.mode == Delta && q.genesis == p.genesis
    && q.First().number == p.Last().number + 1 && q.First().parentHash == p.Last().hash
    && q.preceding == Some((p.Last().number, p.Last().hash))
  }

  lemma PublishableLinked(p: Package)
    requires Publishable(p)
    ensures 0 < |p.blocks| <= MAX_BLOCKS && Linked(p.blocks)
  {
    forall i | 0 < i < |p.blocks|
      ensures p.blocks[i].number == p.blocks[i - 1].number + 1 && p.blocks[i].parentHash == p.blocks[i - 1].hash
    {
      assert 0 <= i - 1 < i < |p.blocks| && i == (i - 1) + 1;
    }
  }

  lemma ChainGrows(ps: seq<Package>, p: Package)
    requires OneChain(ps) && Publishable(p)
    requires if ps == [] then Follows(None, p) else Continues(ps[|ps| - 1], p)
    ensures OneChain(ps + [p])
  {
    hide Publishable, Linked;
    PublishableLinked(p);
    var more := ps + [p];
    forall i | 0 < i < |more| ensures Continues(more[i - 1], more[i]) {
      if i < |ps| { assert more[i] == ps[i] && more[i - 1] == ps[i - 1]; }
    }
  }

  lemma TipFollowed(h: Head, p: Package, q: Package)
    requires Tip(h, p) && Follows(Some(h), q)
    ensures Continues(p, q)
  {
  }

  lemma {:induction false} LogChain(log: seq<Commit>)
    requires Log(log)
    ensures OneChain(Packages(log))
  {
    hide OneChain, Publishable, Continues, NewLevels;
    if log == [] {
      EmptyChain();
    } else {
      var init, c := log[..|log| - 1], log[|log| - 1];
      LogChain(init);
      if c.Appended? {
        assert Packages(log) == Packages(init) + [c.package];
        if init != [] {
          LogHeadOk(init);
          TipFollowed(init[|init| - 1].head, Packages(init)[|Packages(init)| - 1], c.package);
        }
        ChainGrows(Packages(init), c.package);
      } else {
        assert Packages(log) == Packages(init);
      }
    }
  }

  lemma EmptyChain()
    ensures OneChain([])
  {
  }

  /**
   In every run the committed packages are one hash-linked chain of blocks from genesis,
   and the stored head names its last block.
   */
  lemma EveryRunChained(cas: Cas, actions: seq<Action>)
    ensures var log := After(cas, actions).log;
      && OneChain(Packages(log))
      && (log != [] ==>
            var ps, head := Packages(log), log[|log| - 1].head;
            && ps != [] && ps[|ps| - 1].blocks != []
            && var last := ps[|ps| - 1].Last();
            && head.number == last.number && head.hash == last.hash && head.stateRoot == last.stateRoot
            && head.genesis == ps[|ps| - 1].genesis && head.input == ps[|ps| - 1].input)
  {
    hide OneChain;
    EveryRunOk(cas, actions);
    var log := After(cas, actions).log;
    LogChain(log);
    if log != [] { LogHeadOk(log); }
  }

  // ---------------------------------------------------------------- an idle compactor

  /** Without a head, or with fewer than four L0 runs, a compactor returns at once and nothing is written. */
  lemma CompactorIdle(cas: Cas, s: System, pid: nat)
    requires pid in s.processes && s.processes[pid] == Compactor(PlanRead)
    requires s.log == [] || |s.log[|s.log| - 1].head.l0| < 4
    ensures Apply(cas, s, Go(pid, Fine)) == System(s.log, s.processes[pid := Compactor(CompactOk(false))])
  {
    hide NewLevels;
  }
}
