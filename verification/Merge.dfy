/**
 The k-way merge that compaction streams its inputs through, against the sorted
 union it must produce.
 */
module Merge {
  import opened Bytes
  import opened Versions

  /** No two inputs hold a version of the same key and block. */
  ghost predicate Disjoint(inputs: seq<seq<Record>>)
  {
    forall i, j :: 0 <= i < j < |inputs| ==> Apart(inputs[i], inputs[j])
  }

  ghost predicate Apart(a: seq<Record>, b: seq<Record>)
  {
    forall r, q :: r in a && q in b ==> At(r) != At(q)
  }

  ghost predicate AllSorted(inputs: seq<seq<Record>>)
  {
    forall i :: 0 <= i < |inputs| ==> Sorted(inputs[i])
  }

  ghost function Union(inputs: seq<seq<Record>>): set<Record>
  {
    set i, r | 0 <= i < |inputs| && r in inputs[i] :: r
  }

  /** The keys of a sorted run, each once, in order: what the summary is given. */
  function DistinctKeys(rs: seq<Record>): (keys: seq<Bytes>)
  {
    if rs == [] then []
    else
      var before := DistinctKeys(rs[..|rs| - 1]);
      var key := rs[|rs| - 1].key;
      if |rs| > 1 && rs[|rs| - 2].key == key then before else before + [key]
  }

  lemma {:induction false} DistinctKeysCover(rs: seq<Record>)
    ensures forall key :: key in DistinctKeys(rs) <==> exists r :: r in rs && r.key == key
  {
    if rs != [] {
      var init := rs[..|rs| - 1];
      var last := rs[|rs| - 1];
      DistinctKeysCover(init);
      assert rs == init + [last];
      if |rs| > 1 && rs[|rs| - 2].key == last.key { assert rs[|rs| - 2] in init; }
      forall key ensures key in DistinctKeys(rs) <==> exists r :: r in rs && r.key == key {
        if key == last.key { assert last in rs; }
      }
    }
  }

  // ---------------------------------------------------------------- the sorted union

  function Merge2(a: seq<Record>, b: seq<Record>): (m: seq<Record>)
    ensures forall r :: r in m <==> r in a || r in b
  {
    if a == [] then b
    else if b == [] then a
    else if Before(At(a[0]), At(b[0])) then
      assert a == [a[0]] + a[1..];
      [a[0]] + Merge2(a[1..], b)
    else
      assert b == [b[0]] + b[1..];
      [b[0]] + Merge2(a, b[1..])
  }

  lemma {:induction false} Merge2Sorted(a: seq<Record>, b: seq<Record>)
    requires Sorted(a) && Sorted(b)
    requires Apart(a, b)
    ensures Sorted(Merge2(a, b))
  {
    if a == [] || b == [] {
    } else if Before(At(a[0]), At(b[0])) {
      assert a[0] in a && forall r :: r in a[1..] ==> r in a;
      Merge2Sorted(a[1..], b);
      SortedPrepend(a, b, Merge2(a[1..], b));
    } else {
      assert a[0] in a && b[0] in b && forall r :: r in b[1..] ==> r in b;
      BeforeTotal(At(a[0]), At(b[0]));
      Merge2Sorted(a, b[1..]);
      SortedPrepend(b, a, Merge2(a, b[1..]));
    }
  }

  lemma SortedPrepend(a: seq<Record>, b: seq<Record>, rest: seq<Record>)
    requires Sorted(a) && Sorted(b) && Sorted(rest) && a != [] && b != []
    requires Before(At(a[0]), At(b[0]))
    requires forall r :: r in rest <==> r in a[1..] || r in b
    ensures Sorted([a[0]] + rest)
  {
    forall r | r in rest ensures Before(At(a[0]), At(r)) {
      if r in a[1..] {
        var i :| 0 <= i < |a[1..]| && a[1..][i] == r;
        assert a[i + 1] == r;
      } else {
        var i :| 0 <= i < |b| && b[i] == r;
        if i > 0 { BeforeTransitive(At(a[0]), At(b[0]), At(r)); }
      }
    }
  }

  /** The sorted union of all inputs. */
  function MergeAll(inputs: seq<seq<Record>>): (m: seq<Record>)
    ensures forall r :: r in m <==> r in Union(inputs)
  {
    if inputs == [] then []
    else
      assert Union(inputs) == Union(inputs[1..]) + (set r | r in inputs[0]) by {
        assert inputs == [inputs[0]] + inputs[1..];
        forall r | r in Union(inputs) ensures r in inputs[0] || r in Union(inputs[1..]) {
          var i :| 0 <= i < |inputs| && r in inputs[i];
          if i > 0 { assert r in inputs[1..][i - 1]; }
        }
        forall r | r in Union(inputs[1..]) ensures r in Union(inputs) {
          var i :| 0 <= i < |inputs[1..]| && r in inputs[1..][i];
          assert r in inputs[i + 1];
        }
      }
      Merge2(inputs[0], MergeAll(inputs[1..]))
  }

  lemma {:induction false} MergeAllSorted(inputs: seq<seq<Record>>)
    requires AllSorted(inputs) && Disjoint(inputs)
    ensures Sorted(MergeAll(inputs))
  {
    if inputs != [] {
      var rest := inputs[1..];
      assert forall i :: 0 <= i < |rest| ==> rest[i] == inputs[i + 1];
      MergeAllSorted(rest);
      forall r, q | r in inputs[0] && q in MergeAll(rest) ensures At(r) != At(q) {
        assert q in Union(rest);
        var i :| 0 <= i < |rest| && q in rest[i];
        assert Apart(inputs[0], inputs[i + 1]);
      }
      Merge2Sorted(inputs[0], MergeAll(rest));
    }
  }

  // ---------------------------------------------------------------- the streaming merge

  /** Heads `i` and `j` hold one version, and no head before `j` is smaller. */
  ghost predicate Clash(heads: seq<Option<Record>>, i: nat, j: nat)
  {
    && i < j < |heads| && heads[i].Some? && heads[j].Some? && At(heads[i].value) == At(heads[j].value)
    && forall k :: 0 <= k < j && heads[k].Some? ==> !Before(At(heads[k].value), At(heads[i].value))
  }

  /**
   One pass over the stream heads: the index of the smallest head, or an error exactly
   when two heads hold the same version and none seen so far is smaller.
   */
  method ChooseHead(heads: seq<Option<Record>>) returns (chosen: Result<Option<nat>>)
    ensures chosen.Err? <==> exists i: nat, j: nat :: Clash(heads, i, j)
    ensures chosen == Ok(None) ==> forall i :: 0 <= i < |heads| ==> heads[i].None?
    ensures chosen.Ok? && chosen.value.Some? ==>
      && var best := chosen.value.value;
      && best < |heads| && heads[best].Some?
      && forall i :: 0 <= i < |heads| && i != best && heads[i].Some?
          ==> Before(At(heads[best].value), At(heads[i].value))
  {
    var best: Option<nat> := None;
    for index := 0 to |heads|
      invariant best.None? ==> forall i :: 0 <= i < index ==> heads[i].None?
      invariant best.Some? ==>
        && best.value < index && heads[best.value].Some?
        && forall i :: 0 <= i < index && i != best.value && heads[i].Some?
            ==> Before(At(heads[best.value].value), At(heads[i].value))
      invariant forall i: nat, j: nat :: j < index ==> !Clash(heads, i, j)
    {
      if heads[index].Some? {
        if best.Some? {
          var current := At(heads[best.value].value);
          var candidate := At(heads[index].value);
          BeforeIrreflexive(current);
          if candidate == current {
            forall k | 0 <= k < index && heads[k].Some? ensures !Before(At(heads[k].value), current) {
              if k != best.value { BeforeAsymmetric(current, At(heads[k].value)); }
            }
            assert Clash(heads, best.value, index);
            return Err;
          }
          BeforeTotal(candidate, current);
          if Before(candidate, current) {
            forall i | 0 <= i < index && heads[i].Some? ensures Before(candidate, At(heads[i].value)) {
              if i != best.value { BeforeTransitive(candidate, current, At(heads[i].value)); }
            }
            best := Some(index);
          }
        } else {
          best := Some(index);
        }
      }
    }
    return Ok(best);
  }

  function Total(streams: seq<seq<Record>>): nat
  {
    if streams == [] then 0 else |streams[0]| + Total(streams[1..])
  }

  lemma {:induction false} TotalUpdate(streams: seq<seq<Record>>, index: nat, s: seq<Record>)
    requires index < |streams|
    ensures Total(streams[index := s]) == Total(streams) - |streams[index]| + |s|
  {
    if index > 0 {
      TotalUpdate(streams[1..], index - 1, s);
      assert streams[index := s][1..] == streams[1..][index - 1 := s];
    } else {
      assert streams[0 := s][1..] == streams[1..];
    }
  }

  /** The head of every stream is kept beside the stream; together they are what is left. */
  ghost predicate Heads(heads: seq<Option<Record>>, streams: seq<seq<Record>>, left: seq<seq<Record>>)
  {
    && |heads| == |streams| == |left|
    && forall i :: 0 <= i < |left| ==> (heads[i], streams[i]) == Pull(left[i])
  }

  function Pull(stream: seq<Record>): (Option<Record>, seq<Record>)
  {
    if stream == [] then (None, []) else (Some(stream[0]), stream[1..])
  }

  /** What the loop knows of its inputs, its output and the records still left. */
  ghost predicate MergeState(inputs: seq<seq<Record>>, left: seq<seq<Record>>, out: seq<Record>)
  {
    && AllSorted(left) && Sorted(out)
    && (Disjoint(left) <==> Disjoint(inputs))
    && Union(inputs) == Contents(out) + Union(left)
    && forall r :: r in Union(left) && out != [] ==> Before(At(out[|out| - 1]), At(r))
  }

  /** The head of stream `index` is strictly smaller than every other head. */
  ghost predicate Smallest(left: seq<seq<Record>>, index: nat)
  {
    && index < |left| && left[index] != []
    && forall i :: 0 <= i < |left| && i != index && left[i] != [] ==>
        Before(At(left[index][0]), At(left[i][0]))
  }

  lemma SmallestIsFirst(left: seq<seq<Record>>, index: nat, i: nat, q: Record)
    requires AllSorted(left) && Smallest(left, index) && i < |left|
    requires if i == index then q in left[i][1..] else q in left[i]
    ensures Before(At(left[index][0]), At(q))
  {
    var k :| 0 <= k < |left[i]| && left[i][k] == q && (i == index ==> k > 0);
    assert Sorted(left[i]);
    if i != index && k > 0 { BeforeTransitive(At(left[index][0]), At(left[i][0]), At(q)); }
  }

  lemma RestAfter(left: seq<seq<Record>>, index: nat)
    requires AllSorted(left) && Smallest(left, index)
    ensures forall q :: q in Union(left[index := left[index][1..]]) ==> Before(At(left[index][0]), At(q))
  {
    var rest := left[index := left[index][1..]];
    forall q | q in Union(rest) ensures Before(At(left[index][0]), At(q)) {
      var i :| 0 <= i < |rest| && q in rest[i];
      SmallestIsFirst(left, index, i, q);
    }
  }

  lemma RestUnion(left: seq<seq<Record>>, index: nat)
    requires index < |left| && left[index] != []
    ensures Union(left) == Union(left[index := left[index][1..]]) + {left[index][0]}
  {
    var rest := left[index := left[index][1..]];
    assert left[index] == [left[index][0]] + left[index][1..];
    assert left[index][0] in left[index];
    forall r | r in Union(left) ensures r in Union(rest) + {left[index][0]} {
      var i :| 0 <= i < |left| && r in left[i];
      if r != left[index][0] { assert r in rest[i]; }
    }
    forall r | r in Union(rest) ensures r in Union(left) {
      var i :| 0 <= i < |rest| && r in rest[i];
      assert r in left[i];
    }
  }

  lemma RestDisjoint(left: seq<seq<Record>>, index: nat)
    requires AllSorted(left) && Smallest(left, index)
    ensures Disjoint(left[index := left[index][1..]]) <==> Disjoint(left)
  {
    var rest := left[index := left[index][1..]];
    assert left[index] == [left[index][0]] + left[index][1..];
    assert forall i, r :: 0 <= i < |left| && r in rest[i] ==> r in left[i];
    if Disjoint(rest) {
      forall i, j, r, q | 0 <= i < j < |left| && r in left[i] && q in left[j] ensures At(r) != At(q) {
        assert Apart(rest[i], rest[j]);
        if i == index && r == left[index][0] {
          SmallestIsFirst(left, index, j, q);
          BeforeAsymmetric(At(r), At(q));
        } else if j == index && q == left[index][0] {
          SmallestIsFirst(left, index, i, r);
          BeforeAsymmetric(At(q), At(r));
        } else {
          assert r in rest[i] && q in rest[j];
        }
      }
    }
  }

  lemma RestSorted(left: seq<seq<Record>>, index: nat)
    requires AllSorted(left) && index < |left| && left[index] != []
    ensures AllSorted(left[index := left[index][1..]])
  {
    assert Sorted(left[index]);
  }

  /** Emitting the smallest head keeps the merge state. */
  lemma MergeStep(inputs: seq<seq<Record>>, left: seq<seq<Record>>, out: seq<Record>, index: nat)
    requires MergeState(inputs, left, out) && Smallest(left, index)
    ensures MergeState(inputs, left[index := left[index][1..]], out + [left[index][0]])
  {
    hide Before, Disjoint, AllSorted;
    var r, rest := left[index][0], left[index := left[index][1..]];
    var emitted := out + [r];
    assert AllSorted(rest) by { RestSorted(left, index); }
    assert Disjoint(rest) <==> Disjoint(inputs) by { RestDisjoint(left, index); }
    assert Union(left) == Union(rest) + {r} by { RestUnion(left, index); }
    assert Sorted(emitted) by { SortedAppend(out, r); }
    assert Contents(emitted) == Contents(out) + {r};
    assert forall q :: q in Union(rest) ==> Before(At(r), At(q)) by { RestAfter(left, index); }
  }

  /** The state of the producer loop between two records. */
  datatype Producer = Producer(
    heads: seq<Option<Record>>, streams: seq<seq<Record>>, out: seq<Record>,
    keys: seq<Bytes>, lastKey: Option<Bytes>)

  ghost predicate Running(inputs: seq<seq<Record>>, left: seq<seq<Record>>, p: Producer)
  {
    && Heads(p.heads, p.streams, left)
    && MergeState(inputs, left, p.out)
    && p.keys == DistinctKeys(p.out)
    && p.lastKey == if p.out == [] then None else Some(p.out[|p.out| - 1].key)
  }

  method Start(inputs: seq<seq<Record>>) returns (p: Producer)
    requires AllSorted(inputs)
    ensures Running(inputs, inputs, p)
  {
    var heads: seq<Option<Record>>, streams := [], [];
    for i := 0 to |inputs|
      invariant |heads| == |streams| == i
      invariant forall k :: 0 <= k < i ==> (heads[k], streams[k]) == Pull(inputs[k])
    {
      var (head, rest) := Pull(inputs[i]);
      heads, streams := heads + [head], streams + [rest];
    }
    p := Producer(heads, streams, [], [], None);
  }

  /** The producer after sending the chosen record on and pulling the next one from its stream. */
  function Advance(p: Producer, index: nat): Producer
    requires index < |p.heads| == |p.streams| && p.heads[index].Some?
  {
    var record := p.heads[index].value;
    var (head, tail) := Pull(p.streams[index]);
    Producer(p.heads[index := head], p.streams[index := tail], p.out + [record],
             if p.lastKey != Some(record.key) then p.keys + [record.key] else p.keys, Some(record.key))
  }

  lemma Advanced(inputs: seq<seq<Record>>, left: seq<seq<Record>>, p: Producer, index: nat)
    requires Running(inputs, left, p) && Smallest(left, index)
    ensures index < |p.heads| == |p.streams| && p.heads[index].Some?
    ensures
      var rest := left[index := left[index][1..]];
      Running(inputs, rest, Advance(p, index)) && Total(rest) < Total(left)
  {
    hide MergeState, Smallest;
    SmallestIndex(left, index);
    var record := p.heads[index].value;
    MergeStep(inputs, left, p.out, index);
    TotalUpdate(left, index, left[index][1..]);
    assert (p.out + [record])[..|p.out|] == p.out;
  }

  lemma SmallestIndex(left: seq<seq<Record>>, index: nat)
    requires Smallest(left, index)
    ensures index < |left| && left[index] != []
  {
  }

  /** Send the chosen record on and pull the next one from its stream. */
  method Emit(ghost inputs: seq<seq<Record>>, ghost left: seq<seq<Record>>, p: Producer, index: nat)
    returns (next: Producer, ghost rest: seq<seq<Record>>)
    requires Running(inputs, left, p) && Smallest(left, index)
    ensures rest == left[index := left[index][1..]]
    ensures Running(inputs, rest, next) && Total(rest) < Total(left)
  {
    hide MergeState, Smallest, DistinctKeys;
    SmallestIndex(left, index);
    Advanced(inputs, left, p, index);
    hide Running;
    var record := p.heads[index].value;
    rest := left[index := left[index][1..]];
    var (head, tail) := Pull(p.streams[index]);
    var keys, lastKey := p.keys, p.lastKey;
    if lastKey != Some(record.key) {
      keys := keys + [record.key];
      lastKey := Some(record.key);
    }
    next := Producer(p.heads[index := head], p.streams[index := tail], p.out + [record], keys, lastKey);
  }

  /**
   Merge sorted streams. Succeeds exactly when no version occurs in two inputs, and
   then yields their sorted union and each key once for the summary.
   */
  method MergeRuns(inputs: seq<seq<Record>>) returns (merged: Result<seq<Record>>, keys: seq<Bytes>)
    requires AllSorted(inputs)
    ensures merged.Ok? <==> Disjoint(inputs)
    ensures merged.Ok? ==> merged.value == MergeAll(inputs)
    ensures merged.Ok? ==> keys == DistinctKeys(merged.value)
  {
    hide Disjoint, Union, Sorted, DistinctKeys, MergeAll;
    ghost var left := inputs;
    var p := Start(inputs);
    while true
      invariant Running(inputs, left, p)
      decreases Total(left)
    {
      var chosen := ChooseHead(p.heads);
      if chosen.Err? {
        DuplicateHeads(p.heads, p.streams, left);
        return Err, [];
      }
      if chosen.value.None? {
        break;
      }
      p, left := Emit(inputs, left, p, chosen.value.value);
    }
    Finished(inputs, left, p.out);
    return Ok(p.out), p.keys;
  }

  lemma DuplicateHeads(heads: seq<Option<Record>>, streams: seq<seq<Record>>, left: seq<seq<Record>>)
    requires Heads(heads, streams, left)
    requires exists i: nat, j: nat :: Clash(heads, i, j)
    ensures !Disjoint(left)
  {
    var i: nat, j: nat :| Clash(heads, i, j);
    assert left[i][0] in left[i] && left[j][0] in left[j];
    assert !Apart(left[i], left[j]);
  }

  lemma Finished(inputs: seq<seq<Record>>, left: seq<seq<Record>>, out: seq<Record>)
    requires AllSorted(inputs) && MergeState(inputs, left, out)
    requires forall k :: 0 <= k < |left| ==> left[k] == []
    ensures Disjoint(inputs) && out == MergeAll(inputs)
  {
    assert Union(left) == {};
    MergeAllSorted(inputs);
    assert forall r :: r in out <==> r in Contents(out);
    SortedUnique(out, MergeAll(inputs));
  }

  /** Over disjoint sorted inputs, an answer from the merged run is an answer from their union. */
  lemma MergedAnswer(inputs: seq<seq<Record>>, key: Bytes, block: int, a: Option<Bytes>)
    ensures IsAnswer(Contents(MergeAll(inputs)), key, block, a) <==> IsAnswer(Union(inputs), key, block, a)
  {
    assert Contents(MergeAll(inputs)) == Union(inputs);
  }
}
