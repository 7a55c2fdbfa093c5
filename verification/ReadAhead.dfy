/**
 Batched page reads of a merge. A page that is asked for is fetched together with up to
 seven successors of its list; those wait in `ready` until they are asked for in turn.
 */
module ReadAhead {
  import opened Bytes
  import opened RunFormat
  import opened FenceIndex

  const BATCH := 8

  /** No page appears twice in the lists. */
  ghost predicate DistinctPages(lists: seq<seq<Ref>>)
  {
    forall l, k, m, n ::
      0 <= l < |lists| && 0 <= k < |lists[l]| && 0 <= m < |lists| && 0 <= n < |lists[m]| ==>
        lists[l][k].digest == lists[m][n].digest ==> l == m && k == n
  }

  ghost predicate InSomeList(lists: seq<seq<Ref>>, d: Digest)
  {
    exists l, k :: 0 <= l < |lists| && 0 <= k < |lists[l]| && lists[l][k].digest == d
  }

  /** Of list `l`, whose first `asked` pages were taken, only the next seven may be waiting. */
  ghost predicate WindowOf(list: seq<Ref>, ready: map<Digest, Bytes>, asked: nat)
  {
    forall k :: 0 <= k < |list| && list[k].digest in ready ==> asked <= k < asked + BATCH - 1
  }

  /** Every list obeys its window. */
  ghost predicate AllWindows(lists: seq<seq<Ref>>, ready: map<Digest, Bytes>, asked: seq<nat>)
  {
    |asked| == |lists| && forall l :: 0 <= l < |lists| ==> WindowOf(lists[l], ready, asked[l])
  }

  /** How many pages of each list are taken once an object of list `l`, if any, is taken. */
  function Taken(asked: seq<nat>, l: nat): seq<nat>
  {
    if l < |asked| then asked[l := asked[l] + 1] else asked
  }

  /** `ref` is the next page of list `l`, or no page at all when there is no such list. */
  ghost predicate Next(lists: seq<seq<Ref>>, asked: seq<nat>, ref: Ref, l: nat)
  {
    && |asked| == |lists|
    && (l < |lists| ==> asked[l] < |lists[l]| && lists[l][asked[l]] == ref)
    && (l >= |lists| ==> !InSomeList(lists, ref.digest))
  }

  ghost predicate OrderOk(lists: seq<seq<Ref>>, order: map<Digest, (nat, nat)>)
  {
    && (forall d :: d in order ==>
          && order[d].0 < |lists| && order[d].1 < |lists[order[d].0]|
          && lists[order[d].0][order[d].1].digest == d)
    && (forall d :: InSomeList(lists, d) ==> d in order)
  }

  /** What waits at some moment, and how many pages of each list were taken by then. */
  datatype Waiting = Waiting(ready: map<Digest, Bytes>, asked: seq<nat>)

  /** At every moment every list obeyed its window. */
  ghost predicate Within(lists: seq<seq<Ref>>, history: seq<Waiting>)
  {
    forall w :: w in history ==> AllWindows(lists, w.ready, w.asked)
  }

  lemma WithinMore(lists: seq<seq<Ref>>, history: seq<Waiting>, w: Waiting)
    ensures Within(lists, history) && AllWindows(lists, w.ready, w.asked) ==> Within(lists, history + [w])
  {
    hide AllWindows;
  }

  lemma WithinLast(lists: seq<seq<Ref>>, history: seq<Waiting>)
    requires history != []
    ensures
      var w := history[|history| - 1];
      Within(lists, history) ==> AllWindows(lists, w.ready, w.asked)
  {
    hide AllWindows;
  }

  class Ahead {
    const c: Codec
    /** What the store answers at each point of time. */
    const store: (nat, Ref) -> Option<Bytes>
    const lists: seq<seq<Ref>>
    const order: map<Digest, (nat, nat)>
    var clock: nat
    var ready: map<Digest, Bytes>
    /** How many pages of each list were taken. */
    ghost var asked: seq<nat>
    /** Every state the read-ahead was in, the present one last. */
    ghost var history: seq<Waiting>

    ghost predicate Valid()
      reads this
    {
      && |asked| == |lists| && OrderOk(lists, order) && (forall d :: d in ready ==> c.sha(ready[d]) == d)
      && history != [] && history[|history| - 1] == Waiting(ready, asked)
    }

    /** The store always returns exactly the object a page reference names. */
    ghost predicate Serves(ref: Ref)
    {
      RefOk(ref, MAX_PAGE) && forall t :: store(t, ref).Some? && Matches(c, ref, store(t, ref).value)
    }

    constructor (c: Codec, store: (nat, Ref) -> Option<Bytes>, lists: seq<seq<Ref>>)
      ensures Valid() && AllWindows(lists, ready, asked)
      ensures this.c == c && this.store == store && this.lists == lists
      ensures asked == seq(|lists|, _ => 0) && history == [Waiting(ready, asked)] && Within(lists, history)
    {
      var o: map<Digest, (nat, nat)> := map[];
      for l := 0 to |lists|
        invariant forall d :: d in o ==>
          o[d].0 < |lists| && o[d].1 < |lists[o[d].0]| && lists[o[d].0][o[d].1].digest == d
        invariant forall m, k :: 0 <= m < l && 0 <= k < |lists[m]| ==> lists[m][k].digest in o
      {
        for k := 0 to |lists[l]|
          invariant forall d :: d in o ==>
            o[d].0 < |lists| && o[d].1 < |lists[o[d].0]| && lists[o[d].0][o[d].1].digest == d
          invariant forall m, n :: 0 <= m < l && 0 <= n < |lists[m]| ==> lists[m][n].digest in o
          invariant forall n :: 0 <= n < k ==> lists[l][n].digest in o
        {
          if lists[l][k].digest !in o {
            o := o[lists[l][k].digest := (l, k)];
          }
        }
      }
      this.c, this.store, this.lists, order := c, store, lists, o;
      clock, ready, asked := 0, map[], seq(|lists|, _ => 0);
      history := [Waiting(map[], seq(|lists|, _ => 0))];
    }

    /** Read one object and verify it against its reference. */
    method Fetch(ref: Ref) returns (r: Option<Bytes>)
      modifies this`clock
      ensures r.Some? ==> Matches(c, ref, r.value)
      ensures Serves(ref) ==> r.Some?
    {
      if !RefOk(ref, MAX_PAGE) {
        return None;
      }
      var bytes := store(clock, ref);
      clock := clock + 1;
      if bytes.None? || !Matches(c, ref, bytes.value) {
        return None;
      }
      return bytes;
    }

    /** Fetch a whole batch; one failure fails it. */
    method FetchBatch(batch: seq<Ref>) returns (r: Option<seq<Bytes>>)
      modifies this`clock
      ensures r.Some? ==> |r.value| == |batch| && forall i :: 0 <= i < |batch| ==> Matches(c, batch[i], r.value[i])
      ensures (forall ref :: ref in batch ==> Serves(ref)) ==> r.Some?
    {
      var out: seq<Bytes> := [];
      for i := 0 to |batch|
        invariant |out| == i && forall k :: 0 <= k < i ==> Matches(c, batch[k], out[k])
      {
        var bytes := Fetch(batch[i]);
        if bytes.None? {
          assert batch[i] in batch;
          return None;
        }
        out := out + [bytes.value];
      }
      return Some(out);
    }

    /** Keep all but the first object of a batch. */
    method Store(batch: seq<Ref>, bytes: seq<Bytes>)
      requires batch != [] && |bytes| == |batch| && forall i :: 0 <= i < |batch| ==> Matches(c, batch[i], bytes[i])
      requires forall d :: d in ready ==> c.sha(ready[d]) == d
      modifies this`ready
      ensures forall d :: d in ready ==> c.sha(ready[d]) == d
      ensures forall d :: d in ready <==> d in old(ready) || Among(batch, |batch|, d)
    {
      for i := 1 to |batch|
        invariant forall d :: d in ready ==> c.sha(ready[d]) == d
        invariant forall d :: d in ready <==> d in old(ready) || Among(batch, i, d)
      {
        ghost var before := ready;
        ready := ready[batch[i].digest := bytes[i]];
        forall d ensures Among(batch, i + 1, d) <==> Among(batch, i, d) || d == batch[i].digest {}
      }
    }

    ghost predicate ServesAll()
    {
      forall m, k :: 0 <= m < |lists| && 0 <= k < |lists[m]| ==> Serves(lists[m][k])
    }

    /** The batch that starts with the page named `d`. */
    method Batch(d: Digest) returns (batch: seq<Ref>, ghost list: nat, ghost position: nat)
      requires Valid() && d in order
      ensures list < |lists| && position < |lists[list]| && lists[list][position].digest == d
      ensures 0 < |batch| <= BATCH && position + |batch| <= |lists[list]|
      ensures batch == lists[list][position..position + |batch|]
      ensures ServesAll() ==> forall page :: page in batch ==> Serves(page)
    {
      var (l, k) := order[d];
      list, position := l, k;
      var upto := if k + BATCH <= |lists[l]| then k + BATCH else |lists[l]|;
      batch := lists[l][k..upto];
    }

    /**
     Take an object. Bytes always carry the digest asked for, and the state that results is
     recorded. When the next page of list `l` is taken, or an object that is no page, every
     list still obeys its window.
     */
    method Get(ref: Ref, ghost l: nat) returns (r: Option<Bytes>)
      requires Valid()
      modifies this`clock, this`ready, this`asked, this`history
      ensures Valid()
      ensures r.Some? ==> c.sha(r.value) == ref.digest
      ensures r.None? ==> ready == old(ready) && asked == old(asked) && history == old(history)
      ensures r.Some? ==> asked == Taken(old(asked), l) && history == old(history) + [Waiting(ready, asked)]
      ensures (r.Some? && DistinctPages(lists) && Next(lists, old(asked), ref, l)
               && AllWindows(lists, old(ready), old(asked))) ==>
                AllWindows(lists, ready, asked)
      ensures DistinctPages(lists) && Next(lists, old(asked), ref, l) && Within(lists, old(history)) ==>
                Within(lists, history)
      ensures Serves(ref) && ServesAll() ==> r.Some?
    {
      hide DistinctPages, AllWindows, Next, OrderOk, InSomeList, Within;
      WithinLast(lists, history);
      if ref.digest in ready {
        r := Some(ready[ref.digest]);
        ready := ready - {ref.digest};
        asked := Taken(asked, l);
        WindowsTaken(lists, old(ready), ready, old(asked), ref, l);
        Record();
        return;
      }
      if ref.digest !in order {
        r := Fetch(ref);
        if r.Some? {
          asked := Taken(asked, l);
          WindowsTaken(lists, old(ready), ready, old(asked), ref, l);
          Record();
        }
        return;
      }
      var batch, list, position := Batch(ref.digest);
      var fetched := FetchBatch(batch);
      if fetched.None? {
        return None;
      }
      Store(batch, fetched.value);
      r := Some(fetched.value[0]);
      asked := Taken(asked, l);
      WindowsFilled(lists, old(ready), ready, old(asked), ref, l, list, position, batch);
      Record();
    }

    /** Enter the present state in the history. */
    ghost method Record()
      modifies this`history
      ensures history == old(history) + [Waiting(ready, asked)]
      ensures Within(lists, old(history)) && AllWindows(lists, ready, asked) ==> Within(lists, history)
    {
      hide AllWindows, Within;
      WithinMore(lists, history, Waiting(ready, asked));
      history := history + [Waiting(ready, asked)];
    }
  }

  lemma WindowsTaken(lists: seq<seq<Ref>>, before: map<Digest, Bytes>, after: map<Digest, Bytes>, asked: seq<nat>,
                     ref: Ref, l: nat)
    requires after.Keys == before.Keys - {ref.digest}
    ensures DistinctPages(lists) && Next(lists, asked, ref, l) && AllWindows(lists, before, asked) ==>
              AllWindows(lists, after, Taken(asked, l))
  {
    hide DistinctPages, WindowOf;
    if DistinctPages(lists) && Next(lists, asked, ref, l) && AllWindows(lists, before, asked) {
      forall m | 0 <= m < |lists| ensures WindowOf(lists[m], after, Taken(asked, l)[m]) {
        WindowTaken(lists, before, after, asked, ref, l, m);
      }
    }
  }

  lemma WindowsFilled(lists: seq<seq<Ref>>, before: map<Digest, Bytes>, after: map<Digest, Bytes>, asked: seq<nat>,
                      ref: Ref, l: nat, list: nat, position: nat, batch: seq<Ref>)
    requires list < |lists| && position < |lists[list]| && lists[list][position].digest == ref.digest
    requires ref.digest !in before && |batch| <= BATCH && position + |batch| <= |lists[list]|
    requires batch == lists[list][position..position + |batch|]
    requires forall d :: d in after <==> d in before || Among(batch, |batch|, d)
    ensures DistinctPages(lists) && Next(lists, asked, ref, l) && AllWindows(lists, before, asked) ==>
              AllWindows(lists, after, Taken(asked, l))
  {
    hide DistinctPages, WindowOf, Among;
    if DistinctPages(lists) && Next(lists, asked, ref, l) && AllWindows(lists, before, asked) {
      assert InSomeList(lists, ref.digest);
      forall m | 0 <= m < |lists| ensures WindowOf(lists[m], after, Taken(asked, l)[m]) {
        WindowFilled(lists, before, after, asked, ref, l, m, list, position, batch);
      }
    }
  }

  /** `d` names one of the batch entries `1..i`. */
  ghost predicate Among(batch: seq<Ref>, i: nat, d: Digest)
  {
    exists k :: 1 <= k < i && k < |batch| && batch[k].digest == d
  }

  /** Taking a page moves its window up by one. */
  lemma WindowTaken(lists: seq<seq<Ref>>, before: map<Digest, Bytes>, after: map<Digest, Bytes>, asked: seq<nat>,
                    ref: Ref, l: nat, m: nat)
    requires DistinctPages(lists) && |asked| == |lists| && m < |lists|
    requires WindowOf(lists[m], before, asked[m])
    requires after.Keys == before.Keys - {ref.digest}
    requires l < |lists| ==> asked[l] < |lists[l]| && lists[l][asked[l]] == ref
    ensures WindowOf(lists[m], after, if l == m then asked[m] + 1 else asked[m])
  {
  }

  /** A fetched batch fills the window of its own list only. */
  lemma WindowFilled(lists: seq<seq<Ref>>, before: map<Digest, Bytes>, after: map<Digest, Bytes>, asked: seq<nat>,
                     ref: Ref, l: nat, m: nat, list: nat, position: nat, batch: seq<Ref>)
    requires DistinctPages(lists) && |asked| == |lists| && m < |lists| && list < |lists| && position < |lists[list]|
    requires WindowOf(lists[m], before, asked[m]) && ref.digest !in before
    requires lists[list][position].digest == ref.digest
    requires l < |lists| && asked[l] < |lists[l]| && lists[l][asked[l]] == ref
    requires |batch| <= BATCH && position + |batch| <= |lists[list]|
    requires batch == lists[list][position..position + |batch|]
    requires forall d :: d in after <==> d in before || Among(batch, |batch|, d)
    ensures WindowOf(lists[m], after, if l == m then asked[m] + 1 else asked[m])
  {
    assert l == list && position == asked[l];
    forall k | 0 <= k < |lists[m]| && lists[m][k].digest in after && lists[m][k].digest !in before
      ensures m == l && position < k < position + BATCH
    {
      var i :| 1 <= i < |batch| && batch[i].digest == lists[m][k].digest;
      assert batch[i] == lists[list][position + i];
    }
  }

  /** At most seven pages of a list wait in memory: `ks` are positions of waiting pages, in order. */
  lemma AtMostSeven(list: seq<Ref>, ready: map<Digest, Bytes>, asked: nat, ks: seq<nat>)
    requires WindowOf(list, ready, asked)
    requires forall i :: 0 <= i < |ks| ==> ks[i] < |list| && list[ks[i]].digest in ready
    requires forall i, j :: 0 <= i < j < |ks| ==> ks[i] < ks[j]
    ensures |ks| <= BATCH - 1
  {
    if ks != [] {
      Spread(ks, |ks| - 1);
      assert asked <= ks[0] && ks[|ks| - 1] < asked + BATCH - 1;
    }
  }

  lemma {:induction false} Spread(ks: seq<nat>, i: nat)
    requires i < |ks| && forall i, j :: 0 <= i < j < |ks| ==> ks[i] < ks[j]
    ensures ks[i] >= ks[0] + i
  {
    if i > 0 { Spread(ks, i - 1); }
  }
}
