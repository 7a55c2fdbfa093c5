/**
 Garbage collection beside writers, with time made explicit. Objects carry the time they
 were last written or re-stamped; the head, once there is one, is the set of objects its
 runs reach. A collection pass is refused while there is no head.
 */
module GarbageCollection {
  import opened Bytes
  import opened Head
  import opened Ledger
  import Commits
  import RunFormat
  import Summary

  /** An immutable object by the name it is stored under. */
  datatype Object = Blob(digest: RunFormat.Digest) | Shard(path: Summary.Path)

  /**
   `minAge` and `refresh` are the ages of the collector and of re-stamping. `deadline` is
   the longest time from a writer's first put to its swap. `conditional` says that the age
   test and the deletion of an object are one atomic step of the store.
   */
  datatype Config = Config(minAge: nat, refresh: nat, deadline: nat, conditional: bool)

  /** What a writer has uploaded, and since when. */
  datatype Writer = Writer(first: int, put: set<Object>)

  /** A collection pass: its start, the objects it found live, then the ones it may delete. */
  datatype Collector =
    | Marked(started: int, live: set<Object>)
    | Listed(started: int, live: set<Object>, listed: map<Object, int>)
    | Sweeping(started: int, doomed: set<Object>, checked: set<Object>)

  datatype System = System(
    now: int, objects: map<Object, int>, head: Option<set<Object>>,
    writers: map<nat, Writer>, collectors: map<nat, Collector>)

  datatype Action =
    | Tick(elapsed: nat)
    | Put(writer: nat, item: Object)
    | Swap(writer: nat, live: set<Object>)
    | Mark(collector: nat)
    | List(collector: nat)
    | Remark(collector: nat)
    | Check(collector: nat, item: Object)
    | Delete(collector: nat, item: Object)

  const INITIAL := System(0, map[], None, map[], map[])

  /** What the current head reaches. */
  function Live(s: System): set<Object> { if s.head.Some? then s.head.value else {} }

  /** `put_immutable`: create, or re-stamp an identical object that is older than `refresh`. */
  function Stamp(cfg: Config, objects: map<Object, int>, o: Object, now: int): map<Object, int>
  {
    if o !in objects || now - objects[o] > cfg.refresh then objects[o := now] else objects
  }

  function Cutoff(cfg: Config, started: int): int { started - cfg.minAge }

  predicate Old(cfg: Config, objects: map<Object, int>, o: Object, started: int)
  {
    o in objects && objects[o] <= Cutoff(cfg, started)
  }

  function PutStep(cfg: Config, s: System, w: nat, o: Object): System
  {
    var writer := if w in s.writers then s.writers[w] else Writer(s.now, {});
    s.(objects := Stamp(cfg, s.objects, o, s.now),
       writers := s.writers[w := writer.(put := writer.put + {o})])
  }

  /** A head swap keeps objects of the head it replaces and adds only objects its writer put. */
  predicate MaySwap(cfg: Config, s: System, w: nat, live: set<Object>)
  {
    && w in s.writers
    && live <= Live(s) + s.writers[w].put
    && s.now <= s.writers[w].first + cfg.deadline
  }

  /** The doomed objects: listed, live under neither head read, and old when listed. */
  function Doomed(cfg: Config, listed: map<Object, int>, live: set<Object>, started: int): set<Object>
  {
    set o | o in listed && o !in live && listed[o] <= Cutoff(cfg, started)
  }

  function CollectorStep(cfg: Config, s: System, a: Action): System
  {
    match a
    case Mark(g) =>
      if g in s.collectors || s.head.None? then s
      else s.(collectors := s.collectors[g := Marked(s.now, s.head.value)])
    case List(g) =>
      if g in s.collectors && s.collectors[g].Marked? then
        s.(collectors := s.collectors[g := Listed(s.collectors[g].started, s.collectors[g].live, s.objects)])
      else s
    case Remark(g) =>
      if g in s.collectors && s.collectors[g].Listed? && s.head.Some? then
        var c := s.collectors[g];
        var live := c.live + s.head.value;
        s.(collectors := s.collectors[g := Sweeping(c.started, Doomed(cfg, c.listed, live, c.started), {})])
      else s
    case Check(g, o) =>
      if && g in s.collectors && s.collectors[g].Sweeping? && o in s.collectors[g].doomed
         && Old(cfg, s.objects, o, s.collectors[g].started) then
        s.(collectors := s.collectors[g := s.collectors[g].(checked := s.collectors[g].checked + {o})])
      else s
    case Delete(g, o) =>
      if && g in s.collectors && s.collectors[g].Sweeping? && o in s.collectors[g].doomed
         && (if cfg.conditional then Old(cfg, s.objects, o, s.collectors[g].started)
             else o in s.collectors[g].checked) then
        s.(objects := s.objects - {o})
      else s
    case _ => s
  }

  function Apply(cfg: Config, s: System, a: Action): System
  {
    match a
    case Tick(elapsed) => s.(now := s.now + elapsed)
    case Put(w, o) => PutStep(cfg, s, w, o)
    case Swap(w, live) => if MaySwap(cfg, s, w, live) then s.(head := Some(live)) else s
    case _ => CollectorStep(cfg, s, a)
  }

  function After(cfg: Config, actions: seq<Action>): System
  {
    if actions == [] then INITIAL
    else Apply(cfg, After(cfg, actions[..|actions| - 1]), actions[|actions| - 1])
  }

  /** Every object reachable from the current head exists. */
  predicate Safe(s: System) { Live(s) <= s.objects.Keys }

  // ---------------------------------------------------------------- the age argument

  /** Until a writer's deadline, what it put exists and is stamped no earlier than `refresh` before. */
  ghost predicate WriterOk(cfg: Config, s: System, w: Writer)
  {
    && w.first <= s.now
    && (s.now <= w.first + cfg.deadline ==>
          forall o :: o in w.put ==> o in s.objects && s.objects[o] >= w.first - cfg.refresh)
  }

  /** A doomed object that became reachable again is too young to be deleted. */
  ghost predicate CollectorOk(cfg: Config, s: System, c: Collector)
  {
    && c.started <= s.now
    && (c.Sweeping? ==> forall o :: o in c.doomed && o in Live(s) ==> !Old(cfg, s.objects, o, c.started))
  }

  ghost predicate SystemOk(cfg: Config, s: System)
  {
    && Safe(s)
    && (forall o :: o in s.objects ==> s.objects[o] <= s.now)
    && (forall w :: w in s.writers ==> WriterOk(cfg, s, s.writers[w]))
    && (forall g :: g in s.collectors ==> CollectorOk(cfg, s, s.collectors[g]))
  }

  ghost predicate Enough(cfg: Config)
  {
    cfg.conditional && cfg.minAge > cfg.refresh + cfg.deadline
  }

  lemma SwapKeeps(cfg: Config, s: System, w: nat, live: set<Object>)
    requires SystemOk(cfg, s) && Enough(cfg) && MaySwap(cfg, s, w, live)
    ensures SystemOk(cfg, s.(head := Some(live)))
  {
    var next := s.(head := Some(live));
    var writer := s.writers[w];
    assert WriterOk(cfg, s, writer);
    forall o | o in live ensures o in s.objects {
      if o !in Live(s) { assert o in writer.put; }
    }
    forall g | g in s.collectors ensures CollectorOk(cfg, next, s.collectors[g]) {
      var c := s.collectors[g];
      assert CollectorOk(cfg, s, c);
      if c.Sweeping? {
        forall o | o in c.doomed && o in live ensures !Old(cfg, s.objects, o, c.started) {
          if o !in Live(s) {
            assert o in writer.put;
            assert s.objects[o] >= s.now - cfg.deadline - cfg.refresh > Cutoff(cfg, c.started);
          }
        }
      }
    }
    forall k | k in s.writers ensures WriterOk(cfg, next, s.writers[k]) {
      assert WriterOk(cfg, s, s.writers[k]);
    }
  }

  lemma DeleteKeeps(cfg: Config, s: System, g: nat, o: Object)
    requires SystemOk(cfg, s) && Enough(cfg)
    requires g in s.collectors && s.collectors[g].Sweeping? && o in s.collectors[g].doomed
    requires Old(cfg, s.objects, o, s.collectors[g].started)
    ensures SystemOk(cfg, s.(objects := s.objects - {o}))
  {
    var next := s.(objects := s.objects - {o});
    var c := s.collectors[g];
    assert CollectorOk(cfg, s, c);
    assert o !in Live(s);
    forall k | k in s.writers ensures WriterOk(cfg, next, s.writers[k]) {
      var w := s.writers[k];
      assert WriterOk(cfg, s, w);
      assert s.objects[o] <= s.now - cfg.minAge;
      assert s.now <= w.first + cfg.deadline ==> o !in w.put;
    }
    forall k | k in s.collectors ensures CollectorOk(cfg, next, s.collectors[k]) {
      assert CollectorOk(cfg, s, s.collectors[k]);
    }
  }

  lemma PutKeeps(cfg: Config, s: System, w: nat, o: Object)
    requires SystemOk(cfg, s)
    ensures SystemOk(cfg, PutStep(cfg, s, w, o))
  {
    var next := PutStep(cfg, s, w, o);
    assert next.objects[o] >= s.now - cfg.refresh;
    assert forall x :: x in s.objects ==> x in next.objects && s.objects[x] <= next.objects[x];
    forall k | k in next.writers ensures WriterOk(cfg, next, next.writers[k]) {
      if k in s.writers { assert WriterOk(cfg, s, s.writers[k]); }
    }
    forall k | k in s.collectors ensures CollectorOk(cfg, next, s.collectors[k]) {
      assert CollectorOk(cfg, s, s.collectors[k]);
    }
  }

  lemma TickKeeps(cfg: Config, s: System, elapsed: nat)
    requires SystemOk(cfg, s)
    ensures SystemOk(cfg, s.(now := s.now + elapsed))
  {
    var next := s.(now := s.now + elapsed);
    forall k | k in s.writers ensures WriterOk(cfg, next, s.writers[k]) {
      assert WriterOk(cfg, s, s.writers[k]);
    }
    forall k | k in s.collectors ensures CollectorOk(cfg, next, s.collectors[k]) {
      assert CollectorOk(cfg, s, s.collectors[k]);
    }
  }

  lemma CollectorKeeps(cfg: Config, s: System, g: nat, c: Collector)
    requires SystemOk(cfg, s) && CollectorOk(cfg, s, c)
    ensures SystemOk(cfg, s.(collectors := s.collectors[g := c]))
  {
    var next := s.(collectors := s.collectors[g := c]);
    forall k | k in s.writers ensures WriterOk(cfg, next, s.writers[k]) {
      assert WriterOk(cfg, s, s.writers[k]);
    }
    forall k | k in next.collectors ensures CollectorOk(cfg, next, next.collectors[k]) {
      if k != g { assert CollectorOk(cfg, s, s.collectors[k]); }
    }
  }

  lemma CollectorStepKeeps(cfg: Config, s: System, a: Action)
    requires SystemOk(cfg, s) && Enough(cfg) && !a.Tick? && !a.Put? && !a.Swap?
    ensures SystemOk(cfg, CollectorStep(cfg, s, a))
  {
    hide SystemOk;
    if CollectorStep(cfg, s, a) != s {
      if a.Delete? {
        DeleteKeeps(cfg, s, a.collector, a.item);
      } else {
        var c := CollectorStep(cfg, s, a).collectors[a.collector];
        NewCollectorOk(cfg, s, a, c);
        CollectorKeeps(cfg, s, a.collector, c);
      }
    }
  }

  lemma NewCollectorOk(cfg: Config, s: System, a: Action, c: Collector)
    requires SystemOk(cfg, s) && !a.Tick? && !a.Put? && !a.Swap? && !a.Delete?
    requires CollectorStep(cfg, s, a) != s && c == CollectorStep(cfg, s, a).collectors[a.collector]
    ensures CollectorOk(cfg, s, c)
  {
    if !a.Mark? { assert CollectorOk(cfg, s, s.collectors[a.collector]); }
  }

  lemma {:induction false} EveryRunOk(cfg: Config, actions: seq<Action>)
    requires Enough(cfg)
    ensures SystemOk(cfg, After(cfg, actions))
  {
    if actions != [] {
      var a, s := actions[|actions| - 1], After(cfg, actions[..|actions| - 1]);
      EveryRunOk(cfg, actions[..|actions| - 1]);
      match a
      case Tick(elapsed) => TickKeeps(cfg, s, elapsed);
      case Put(w, o) => PutKeeps(cfg, s, w, o);
      case Swap(w, live) => if MaySwap(cfg, s, w, live) { SwapKeeps(cfg, s, w, live); }
      case _ => CollectorStepKeeps(cfg, s, a);
    }
  }

  // ---------------------------------------------------------------- exactly when it is safe

  lemma Snoc(cfg: Config, actions: seq<Action>, a: Action)
    ensures After(cfg, actions + [a]) == Apply(cfg, After(cfg, actions), a)
  {
    assert (actions + [a])[..|actions|] == actions;
  }

  /** Two objects of a schedule. */
  function First(): Object { Blob(RunFormat.ZERO) }

  function Reused(): Object { Blob(RunFormat.ZERO[0 := 7]) }

  lemma TwoObjects()
    ensures First() != Reused()
  {
    assert First().digest[0] != Reused().digest[0];
  }

  /** Another writer has committed a head that reaches one object. */
  function Opening(): seq<Action> { [Put(2, First()), Swap(2, {First()})] }

  lemma Opened(cfg: Config)
    ensures After(cfg, Opening())
            == System(0, map[First() := 0], Some({First()}), map[2 := Writer(0, {First()})], map[])
  {
    var put := Put(2, First());
    Snoc(cfg, [], put);
    assert [] + [put] == [put];
    Snoc(cfg, [put], Swap(2, {First()}));
    assert [put] + [Swap(2, {First()})] == Opening();
  }

  /** A pass that finds one old object unreachable, up to its second look at the head. */
  lemma Pass(cfg: Config, actions: seq<Action>, o: Object) returns (more: seq<Action>)
    requires
      var s := After(cfg, actions);
      s.collectors == map[] && s.head.Some? && o in s.objects && o !in Live(s) && s.objects[o] <= Cutoff(cfg, s.now)
    ensures
      var s := After(cfg, actions);
      exists doomed :: o in doomed && After(cfg, more) == s.(collectors := map[0 := Sweeping(s.now, doomed, {})])
  {
    var s := After(cfg, actions);
    Snoc(cfg, actions, Mark(0));
    more := actions + [Mark(0)];
    assert After(cfg, more) == s.(collectors := map[0 := Marked(s.now, s.head.value)]);
    Snoc(cfg, more, List(0));
    more := more + [List(0)];
    assert After(cfg, more) == s.(collectors := map[0 := Listed(s.now, s.head.value, s.objects)]);
    Snoc(cfg, more, Remark(0));
    more := more + [Remark(0)];
    var doomed := Doomed(cfg, s.objects, s.head.value + s.head.value, s.now);
    assert After(cfg, more) == s.(collectors := map[0 := Sweeping(s.now, doomed, {})]);
  }

  /** Then a writer makes the object reachable, and the pass deletes it. */
  lemma Ruin(cfg: Config, actions: seq<Action>, w: nat, o: Object) returns (more: seq<Action>)
    requires
      var s := After(cfg, actions);
      && 0 in s.collectors && s.collectors[0].Sweeping? && o in s.collectors[0].doomed
      && (if cfg.conditional then Old(cfg, s.objects, o, s.collectors[0].started) else o in s.collectors[0].checked)
      && w in s.writers && o in s.writers[w].put && s.now <= s.writers[w].first + cfg.deadline
    ensures !Safe(After(cfg, more))
  {
    var s := After(cfg, actions);
    var live := Live(s) + {o};
    Snoc(cfg, actions, Swap(w, live));
    more := actions + [Swap(w, live)];
    assert After(cfg, more) == s.(head := Some(live));
    Snoc(cfg, more, Delete(0, o));
    more := more + [Delete(0, o)];
    assert o !in After(cfg, more).objects;
  }

  /** A schedule in which an object of the new head is deleted after its age was checked. */
  lemma UnconditionalDeleteIsUnsafe(cfg: Config) returns (actions: seq<Action>)
    requires !cfg.conditional
    ensures !Safe(After(cfg, actions))
  {
    hide First, Reused, Opening, After;
    TwoObjects();
    Opened(cfg);
    var o := Reused();
    actions := Opening();
    Snoc(cfg, actions, Put(0, o)); actions := actions + [Put(0, o)];
    Snoc(cfg, actions, Tick(cfg.minAge)); actions := actions + [Tick(cfg.minAge)];
    actions := Pass(cfg, actions, o);
    Snoc(cfg, actions, Check(0, o)); actions := actions + [Check(0, o)];
    Snoc(cfg, actions, Put(1, o)); actions := actions + [Put(1, o)];
    actions := Ruin(cfg, actions, 1, o);
  }

  /** A schedule in which a reused object is as old as the collector demands before its swap. */
  lemma ShortGraceIsUnsafe(cfg: Config) returns (actions: seq<Action>)
    requires cfg.conditional && cfg.minAge <= cfg.refresh + cfg.deadline
    ensures !Safe(After(cfg, actions))
  {
    hide First, Reused, Opening, After;
    TwoObjects();
    Opened(cfg);
    var o := Reused();
    actions := Opening();
    Snoc(cfg, actions, Put(0, o)); actions := actions + [Put(0, o)];
    Snoc(cfg, actions, Tick(cfg.refresh)); actions := actions + [Tick(cfg.refresh)];
    Snoc(cfg, actions, Put(1, o)); actions := actions + [Put(1, o)];
    Snoc(cfg, actions, Tick(cfg.deadline)); actions := actions + [Tick(cfg.deadline)];
    actions := Pass(cfg, actions, o);
    actions := Ruin(cfg, actions, 1, o);
  }

  /**
   Collection never deletes an object the current head reaches, in any interleaving with any
   number of writers and collectors, exactly when age test and deletion are one step and the
   collector's age strictly exceeds the re-stamping age plus the writers' deadline.
   */
  lemma CollectionIsSafeIff(cfg: Config)
    ensures (forall actions :: Safe(After(cfg, actions))) <==> Enough(cfg)
  {
    if Enough(cfg) {
      forall actions ensures Safe(After(cfg, actions)) { EveryRunOk(cfg, actions); }
    } else if !cfg.conditional {
      var actions := UnconditionalDeleteIsUnsafe(cfg);
    } else {
      var actions := ShortGraceIsUnsafe(cfg);
    }
  }

  /** The shipped ages, three hours, one hour and a two-hour merge, miss the bound by equality. */
  lemma ShippedAgesAreNotEnough(conditional: bool)
    ensures exists actions :: !Safe(After(Config(3 * 3600, 3600, 2 * 3600, conditional), actions))
  {
    CollectionIsSafeIff(Config(3 * 3600, 3600, 2 * 3600, conditional));
  }

  /** An undisturbed pass deletes what no head reaches once it is old enough, and nothing the head reaches. */
  lemma GarbageIsCollected(cfg: Config, s: System, g: nat, o: Object)
    requires g !in s.collectors && s.head.Some? && o in s.objects && o !in Live(s) && s.objects[o] <= Cutoff(cfg, s.now)
    ensures
      var swept := CollectorStep(cfg, CollectorStep(cfg, CollectorStep(cfg, s, Mark(g)), List(g)), Remark(g));
      var after := CollectorStep(cfg, CollectorStep(cfg, swept, Check(g, o)), Delete(g, o));
      after.head == s.head && after.objects == s.objects - {o}
  {
    var marked := CollectorStep(cfg, s, Mark(g));
    var listed := CollectorStep(cfg, marked, List(g));
    var swept := CollectorStep(cfg, listed, Remark(g));
    assert swept.collectors[g] == Sweeping(s.now, Doomed(cfg, s.objects, s.head.value + s.head.value, s.now), {});
    var checked := CollectorStep(cfg, swept, Check(g, o));
    assert checked.objects == s.objects && o in checked.collectors[g].checked;
  }

  // ---------------------------------------------------------------- the swaps of real writers

  /** A commit reaches only runs of the head it replaces and the one run its writer built. */
  lemma CommitReusesRuns(h: Head, c: Commits.Commit, run: Run)
    requires Commits.Commits(Some(h), c) && |h.levels| <= MAX_LEVELS && run in Runs(c.head)
    ensures run in Runs(h) || (c.Appended? && run == NewRun(c.package))
      || (c.Compacted? && CascadeOf(h.levels).Lands? && CascadeOf(h.levels).target < MAX_LEVELS
          && run == MergedRun(Commits.Inputs(h, CascadeOf(h.levels).target), CascadeOf(h.levels).weight))
  {
    if c.Compacted? {
      var t := CascadeOf(h.levels).target;
      var merged := MergedRun(Commits.Inputs(h, t), CascadeOf(h.levels).weight);
      Commits.CompactRuns(h, t, merged);
      Commits.RunsAround(h, t);
    }
  }
}
