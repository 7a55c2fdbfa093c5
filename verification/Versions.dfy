/**
 Versioned records and what it means to answer a historical read: the value of
 the newest version of a key at or before a block.
 */
module Versions {
  import opened Bytes

  /** One exact state version. Empty values are kept as explicit tombstones. */
  datatype Record = Record(key: Bytes, block: U64, value: Bytes)

  datatype Version = Version(key: Bytes, block: int)

  function At(r: Record): Version { Version(r.key, r.block) }

  // ---------------------------------------------------------------- order of versions

  predicate Before(v: Version, w: Version)
  {
    Less(v.key, w.key) || (v.key == w.key && v.block < w.block)
  }

  lemma BeforeIrreflexive(v: Version)
    ensures !Before(v, v)
  {
    LessIrreflexive(v.key);
  }

  lemma BeforeTransitive(u: Version, v: Version, w: Version)
    requires Before(u, v) && Before(v, w)
    ensures Before(u, w)
  {
    if Less(u.key, v.key) && Less(v.key, w.key) { LessTransitive(u.key, v.key, w.key); }
  }

  lemma BeforeTotal(v: Version, w: Version)
    ensures v == w || Before(v, w) || Before(w, v)
  {
    LessTotal(v.key, w.key);
  }

  lemma BeforeAsymmetric(v: Version, w: Version)
    requires Before(v, w)
    ensures !Before(w, v) && v != w
  {
    BeforeIrreflexive(v);
    if Before(w, v) { BeforeTransitive(v, w, v); }
  }

  /** Strictly sorted by `(key, block)`, as run records must be. */
  ghost predicate Sorted(rs: seq<Record>)
  {
    forall i, j :: 0 <= i < j < |rs| ==> Before(At(rs[i]), At(rs[j]))
  }

  lemma SortedAppend(rs: seq<Record>, r: Record)
    requires Sorted(rs)
    requires rs != [] ==> Before(At(rs[|rs| - 1]), At(r))
    ensures Sorted(rs + [r])
  {
    forall i | 0 <= i < |rs| ensures Before(At(rs[i]), At(r)) {
      if i < |rs| - 1 { BeforeTransitive(At(rs[i]), At(rs[|rs| - 1]), At(r)); }
    }
  }

  /** A strictly sorted sequence is determined by the set of its records. */
  lemma {:induction false} SortedUnique(a: seq<Record>, b: seq<Record>)
    requires Sorted(a) && Sorted(b)
    requires forall r :: r in a <==> r in b
    ensures a == b
  {
    assert a != [] ==> a[0] in b;
    assert b != [] ==> b[0] in a;
    if a != [] && b != [] {
      assert a[0] in b && b[0] in a;
      if a[0] != b[0] {
        BeforeAsymmetric(At(a[0]), At(b[0]));
        assert false;
      }
      forall r ensures r in a[1..] <==> r in b[1..] {
        TailMembers(a, r);
        TailMembers(b, r);
      }
      SortedUnique(a[1..], b[1..]);
      assert a == [a[0]] + a[1..] && b == [b[0]] + b[1..];
    }
  }

  lemma TailMembers(a: seq<Record>, r: Record)
    requires Sorted(a) && a != []
    ensures r in a[1..] <==> r in a && r != a[0]
  {
    BeforeIrreflexive(At(a[0]));
    if r in a[1..] {
      var i :| 0 <= i < |a[1..]| && a[1..][i] == r;
      assert Before(At(a[0]), At(a[i + 1]));
    }
  }

  // ---------------------------------------------------------------- answers

  /** `r` is a version of `key` visible at `block`. */
  predicate Visible(r: Record, key: Bytes, block: int)
  {
    r.key == key && r.block <= block
  }

  ghost predicate Newest(rs: set<Record>, key: Bytes, block: int, r: Record)
  {
    && r in rs && Visible(r, key, block)
    && forall q :: q in rs && Visible(q, key, block) ==> q.block <= r.block
  }

  /** `answer` is what a read of `key` at `block` must return over the records `rs`. */
  ghost predicate IsAnswer(rs: set<Record>, key: Bytes, block: int, answer: Option<Bytes>)
  {
    match answer
    case None => forall r :: r in rs ==> !Visible(r, key, block)
    case Some(value) => exists r :: Newest(rs, key, block, r) && r.value == value
  }

  /** No two different records share a version. */
  ghost predicate UniqueVersions(rs: set<Record>)
  {
    forall r, q :: r in rs && q in rs && At(r) == At(q) ==> r == q
  }

  lemma AnswerUnique(rs: set<Record>, key: Bytes, block: int, a: Option<Bytes>, b: Option<Bytes>)
    requires UniqueVersions(rs)
    requires IsAnswer(rs, key, block, a) && IsAnswer(rs, key, block, b)
    ensures a == b
  {
    if a.Some? && b.Some? {
      var r :| Newest(rs, key, block, r) && r.value == a.value;
      var q :| Newest(rs, key, block, q) && q.value == b.value;
      assert At(r) == At(q);
    }
  }

  ghost function Contents(rs: seq<Record>): set<Record> { set r | r in rs }

  /** Time-disjoint history: the newer part answers if it can, else the older part. */
  lemma AnswerLayers(older: set<Record>, newer: set<Record>, key: Bytes, block: int,
                     a: Option<Bytes>, b: Option<Bytes>)
    requires forall r, q :: r in older && q in newer ==> r.block < q.block
    requires IsAnswer(older, key, block, a) && IsAnswer(newer, key, block, b)
    ensures IsAnswer(older + newer, key, block, if b.Some? then b else a)
  {
    if b.Some? {
      var r :| Newest(newer, key, block, r) && r.value == b.value;
      assert Newest(older + newer, key, block, r);
    } else if a.Some? {
      var r :| Newest(older, key, block, r) && r.value == a.value;
      assert Newest(older + newer, key, block, r);
    }
  }

  /** Records newer than `block` cannot change an answer at `block`. */
  lemma AnswerStable(rs: set<Record>, later: set<Record>, key: Bytes, block: int, a: Option<Bytes>)
    requires forall r :: r in later ==> r.block > block
    ensures IsAnswer(rs + later, key, block, a) <==> IsAnswer(rs, key, block, a)
  {
    if a.Some? {
      forall r ensures Newest(rs + later, key, block, r) <==> Newest(rs, key, block, r) {}
    }
  }

  /** A block past the last record of `rs` may be lowered to that bound. */
  lemma AnswerClamped(rs: set<Record>, end: int, key: Bytes, block: int, a: Option<Bytes>)
    requires forall r :: r in rs ==> r.block <= end
    ensures IsAnswer(rs, key, block, a) <==> IsAnswer(rs, key, if block < end then block else end, a)
  {
    var clamped := if block < end then block else end;
    forall r | r in rs ensures Visible(r, key, block) <==> Visible(r, key, clamped) {}
    if a.Some? {
      forall r ensures Newest(rs, key, block, r) <==> Newest(rs, key, clamped, r) {}
    }
  }

  // ---------------------------------------------------------------- search in a sorted run

  /** How many leading entries are at or before `target`, as `partition_point` counts them. */
  function PartitionPoint(vs: seq<Version>, target: Version): (n: nat)
    ensures n <= |vs|
    ensures n < |vs| ==> Before(target, vs[n])
    ensures forall i :: 0 <= i < n ==> !Before(target, vs[i])
  {
    if vs == [] || Before(target, vs[0]) then 0
    else
      var n := PartitionPoint(vs[1..], target);
      assert forall i :: 0 < i < n + 1 ==> vs[i] == vs[1..][i - 1];
      n + 1
  }

  function Stamps(rs: seq<Record>): (vs: seq<Version>)
    ensures |vs| == |rs|
    ensures forall i :: 0 <= i < |rs| ==> vs[i] == At(rs[i])
  {
    seq(|rs|, i requires 0 <= i < |rs| => At(rs[i]))
  }

  /** The record before the partition point answers when it is a version of `key`. */
  function Search(rs: seq<Record>, key: Bytes, block: int): (v: Option<Bytes>)
  {
    var n := PartitionPoint(Stamps(rs), Version(key, block));
    if n == 0 || rs[n - 1].key != key then None else Some(rs[n - 1].value)
  }

  /** A predecessor search in a sorted run finds the newest visible version of the key. */
  lemma SearchIsAnswer(rs: seq<Record>, key: Bytes, block: int)
    requires Sorted(rs)
    ensures IsAnswer(Contents(rs), key, block, Search(rs, key, block))
  {
    var target := Version(key, block);
    var n := PartitionPoint(Stamps(rs), target);
    forall i | 0 <= i < |rs| && Visible(rs[i], key, block) ensures i < n && rs[n - 1].key == key {
      VisibleBelow(rs, target, n, i);
    }
    if n > 0 && rs[n - 1].key == key {
      var r := rs[n - 1];
      LessIrreflexive(key);
      forall q | q in Contents(rs) && Visible(q, key, block) ensures q.block <= r.block {
        var i :| 0 <= i < |rs| && rs[i] == q;
        if i < n - 1 { assert Before(At(rs[i]), At(r)); }
      }
      assert Newest(Contents(rs), key, block, r);
    }
  }

  lemma VisibleBelow(rs: seq<Record>, target: Version, n: nat, i: nat)
    requires Sorted(rs) && i < |rs| && Visible(rs[i], target.key, target.block)
    requires n == PartitionPoint(Stamps(rs), target)
    ensures i < n && rs[n - 1].key == target.key
  {
    LessIrreflexive(target.key);
    assert !Before(target, At(rs[i]));
    if n <= i {
      if n < i { BeforeTransitive(target, At(rs[n]), At(rs[i])); }
    } else if i < n - 1 {
      assert Before(At(rs[i]), At(rs[n - 1])) && !Before(target, At(rs[n - 1]));
      LessTotal(target.key, rs[n - 1].key);
    }
  }

  // ---------------------------------------------------------------- flat history

  /** The flat state after `block`: replay every write up to `block` into one map. */
  function Replay(events: seq<Record>, block: int): (state: map<Bytes, Bytes>)
  {
    if events == [] then map[]
    else
      var e := events[|events| - 1];
      var before := Replay(events[..|events| - 1], block);
      if e.block <= block then before[e.key := e.value] else before
  }

  function Flat(events: seq<Record>, key: Bytes, block: int): (v: Option<Bytes>)
  {
    var state := Replay(events, block);
    if key in state then Some(state[key]) else None
  }

  /** Writes of one key appear in block order. */
  ghost predicate Chronological(events: seq<Record>)
  {
    forall i, j :: 0 <= i < j < |events| && events[i].key == events[j].key
      ==> events[i].block < events[j].block
  }

  /** Replaying writes in order leaves, for every key, its newest visible version. */
  lemma {:induction false} FlatIsAnswer(events: seq<Record>, key: Bytes, block: int)
    requires Chronological(events)
    ensures IsAnswer(Contents(events), key, block, Flat(events, key, block))
  {
    if events != [] {
      var last := |events| - 1;
      var e := events[last];
      FlatIsAnswer(events[..last], key, block);
      assert Contents(events) == Contents(events[..last]) + {e} by {
        assert events == events[..last] + [e];
      }
      if Visible(e, key, block) {
        forall q | q in Contents(events) && Visible(q, key, block) ensures q.block <= e.block {
          var i :| 0 <= i < |events| && events[i] == q;
        }
        assert Newest(Contents(events), key, block, e);
      } else if Flat(events, key, block).Some? {
        var r :| Newest(Contents(events[..last]), key, block, r)
          && r.value == Flat(events[..last], key, block).value;
        assert Newest(Contents(events), key, block, r);
      }
    }
  }
}
