/** The batch entry points of the aggregate-function helper. Each is written
    with the loop the helper uses, and each is proved against the sequence
    of primitive calls that specifies it (module BatchSpec, SparseSpec):
    the log of the caller's memory grows by exactly those calls, and the
    live states are what replaying them gives. */
module AggregateFunctionHelper {
  import opened Contract
  import opened StateMemory
  import opened BatchSpec
  import opened SparseSpec
  import opened SerdeSpec
  import opened Buffers
  import opened LookupSpec
  import opened LookupRun

  lemma AppendAssoc<T>(a: seq<T>, b: seq<T>, c: seq<T>)
    ensures (a + b) + c == a + (b + c)
  {
  }

  /** One more add on top of a replayed run of adds. */
  lemma ReplayOneMore<S, V, R>(fn: AggregateFunction<S, V, R>, m: map<nat, S>, es: seq<Event<S, V>>, p: nat, r: nat, v: V)
    requires p in Replay(fn, m, es)
    ensures Replay(fn, m, es + [Added(p, r, v)]) == Replay(fn, m, es)[p := fn.add(Replay(fn, m, es)[p], v)]
  {
    ReplaySnoc(fn, m, es, Added(p, r, v));
  }

  /** The memory is `m0` with the events `es` applied, and the log is `log0`
      with `es` appended. */
  ghost predicate Logged<S, V, R>(fn: AggregateFunction<S, V, R>, mem: Memory<S, V>, m0: map<nat, S>, log0: seq<Event<S, V>>,
                                  es: seq<Event<S, V>>)
    reads mem
  {
    mem.log == log0 + es && mem.states == Replay(fn, m0, es)
  }

  /** The add of one row, if the row is routed to a place: the log grows by
      that add, to `es'`, and the replayed states follow. */
  method AddRoutedRow<S, V, R>(fn: AggregateFunction<S, V, R>, mem: Memory<S, V>, t: Option<nat>, col: seq<V>, r: nat,
                               ghost m0: map<nat, S>, ghost log0: seq<Event<S, V>>, ghost es: seq<Event<S, V>>,
                               ghost es': seq<Event<S, V>>)
    requires r < |col| && (t.Some? ==> t.value in m0)
    requires Logged(fn, mem, m0, log0, es) && mem.states.Keys == m0.Keys
    requires es' == es + if t.Some? then [Added(t.value, r, col[r])] else []
    modifies mem
    ensures Logged(fn, mem, m0, log0, es') && mem.states.Keys == m0.Keys
  {
    if t.Some? {
      ReplayOneMore(fn, m0, es, t.value, r, col[r]);
      mem.Add(fn, t.value, col, r);
    } else {
      assert es' == es;
    }
  }

  /** addManyDefaults: `length` adds of row 0 to one place. */
  method AddManyDefaults<S, V, R>(fn: AggregateFunction<S, V, R>, mem: Memory<S, V>, place: nat, col: seq<V>, length: nat)
    requires place in mem.states && 0 < |col|
    modifies mem
    ensures mem.log == old(mem.log) + DefaultAdds(place, col, length)
    ensures mem.states == Replay(fn, old(mem.states), DefaultAdds(place, col, length))
  {
    var i := 0;
    while i < length
      invariant i <= length
      invariant Logged(fn, mem, old(mem.states), old(mem.log), DefaultAdds(place, col, i))
      invariant mem.states.Keys == old(mem.states).Keys
    {
      assert DefaultAdds<S, V>(place, col, i + 1) == DefaultAdds(place, col, i) + [Added(place, 0, col[0])];
      ReplayOneMore(fn, old(mem.states), DefaultAdds(place, col, i), place, 0, col[0]);
      mem.Add(fn, place, col, 0);
      i := i + 1;
    }
  }

  /** addBatch: every row of `[lo, hi)` that is flagged (when there is a
      filter column) and has a non-null place is added to `places[r] + offset`. */
  method AddBatch<S, V, R>(fn: AggregateFunction<S, V, R>, mem: Memory<S, V>, lo: nat, hi: nat,
                           places: seq<Ptr>, offset: nat, col: seq<V>, filter: Option<seq<bool>>)
    requires lo <= hi <= |places| && hi <= |col|
    requires filter.Some? ==> hi <= |filter.value|
    requires forall r :: lo <= r < hi && BatchTargets(places, offset, filter)[r].Some? ==>
      BatchTargets(places, offset, filter)[r].value in mem.states
    modifies mem
    ensures mem.log == old(mem.log) + RowAdds(BatchTargets(places, offset, filter), col, lo, hi)
    ensures mem.states == Replay(fn, old(mem.states), RowAdds(BatchTargets(places, offset, filter), col, lo, hi))
  {
    ghost var tgt := BatchTargets(places, offset, filter);
    var i := lo;
    while i < hi
      invariant lo <= i <= hi
      invariant Logged(fn, mem, old(mem.states), old(mem.log), RowAdds(tgt, col, lo, i))
      invariant mem.states.Keys == old(mem.states).Keys
    {
      var t := if Flagged(filter, i) && places[i].At? then Some(places[i].addr + offset) else None;
      assert t == tgt[i];
      var next := i + 1;
      RowAddsNext<S, V>(tgt, col, lo, i, next);
      AddRoutedRow(fn, mem, t, col, i, old(mem.states), old(mem.log), RowAdds(tgt, col, lo, i), RowAdds(tgt, col, lo, next));
      i := next;
    }
  }

  /** addBatchSinglePlace: every flagged row of `[lo, hi)` is added to the one place. */
  method AddBatchSinglePlace<S, V, R>(fn: AggregateFunction<S, V, R>, mem: Memory<S, V>, lo: nat, hi: nat,
                                      place: nat, col: seq<V>, filter: Option<seq<bool>>)
    requires lo <= hi <= |col| && place in mem.states
    requires filter.Some? ==> hi <= |filter.value|
    modifies mem
    ensures mem.log == old(mem.log) + RowAdds(SinglePlaceTargets(place, |col|, filter), col, lo, hi)
    ensures mem.states == Replay(fn, old(mem.states), RowAdds(SinglePlaceTargets(place, |col|, filter), col, lo, hi))
  {
    ghost var tgt := SinglePlaceTargets(place, |col|, filter);
    var i := lo;
    while i < hi
      invariant lo <= i <= hi
      invariant Logged(fn, mem, old(mem.states), old(mem.log), RowAdds(tgt, col, lo, i))
      invariant mem.states.Keys == old(mem.states).Keys
    {
      var t := if Flagged(filter, i) then Some(place) else None;
      var next := i + 1;
      RowAddsNext<S, V>(tgt, col, lo, i, next);
      AddRoutedRow(fn, mem, t, col, i, old(mem.states), old(mem.log), RowAdds(tgt, col, lo, i), RowAdds(tgt, col, lo, next));
      i := next;
    }
  }

  /** addBatchSinglePlaceNotNull: every flagged row of `[lo, hi)` whose
      null-map entry is zero is added to the one place. */
  method AddBatchSinglePlaceNotNull<S, V, R>(fn: AggregateFunction<S, V, R>, mem: Memory<S, V>, lo: nat, hi: nat,
                                             place: nat, col: seq<V>, nullMap: seq<bool>, filter: Option<seq<bool>>)
    requires lo <= hi <= |col| && hi <= |nullMap| && place in mem.states
    requires filter.Some? ==> hi <= |filter.value|
    modifies mem
    ensures mem.log == old(mem.log) + RowAdds(NotNullTargets(place, nullMap, filter), col, lo, hi)
    ensures mem.states == Replay(fn, old(mem.states), RowAdds(NotNullTargets(place, nullMap, filter), col, lo, hi))
  {
    ghost var tgt := NotNullTargets(place, nullMap, filter);
    var i := lo;
    while i < hi
      invariant lo <= i <= hi
      invariant Logged(fn, mem, old(mem.states), old(mem.log), RowAdds(tgt, col, lo, i))
      invariant mem.states.Keys == old(mem.states).Keys
    {
      var t := if !nullMap[i] && Flagged(filter, i) then Some(place) else None;
      var next := i + 1;
      RowAddsNext<S, V>(tgt, col, lo, i, next);
      AddRoutedRow(fn, mem, t, col, i, old(mem.states), old(mem.log), RowAdds(tgt, col, lo, i), RowAdds(tgt, col, lo, next));
      i := next;
    }
  }

  /** std::lower_bound by binary search over a sorted sequence. */
  method LowerBoundSearch(s: seq<nat>, x: nat) returns (k: nat)
    requires forall i, j :: 0 <= i < j < |s| ==> s[i] <= s[j]
    ensures k == LowerBound(s, x)
  {
    var a, b := 0, |s|;
    while a < b
      invariant 0 <= a <= b <= |s|
      invariant forall j :: 0 <= j < a ==> s[j] < x
      invariant forall j :: b <= j < |s| ==> s[j] >= x
    {
      var mid := (a + b) / 2;
      if s[mid] < x {
        a := mid + 1;
      } else {
        b := mid;
      }
    }
    LowerBoundUnique(s, x, a);
    k := a;
  }

  /** addBatchSparse: the sparse column's iterator walks rows `[lo, hi)`,
      and each row's value (the stored one, or the default at index 0) is
      added to that row's place, passing the value index as the row. The
      places must not be null: there is no null check on this path. */
  method AddBatchSparse<S, V, R>(fn: AggregateFunction<S, V, R>, mem: Memory<S, V>, lo: nat, hi: nat,
                                 places: seq<Ptr>, offset: nat, offsets: seq<nat>, values: seq<V>, n: nat)
    requires ValidSparse(offsets, values, n) && lo <= hi <= n && hi <= |places|
    requires forall r :: lo <= r < hi ==> places[r].At? && places[r].addr + offset in mem.states
    modifies mem
    ensures mem.log == old(mem.log) + SparseAdds(BatchTargets(places, offset, None), offsets, values, lo, hi)
    ensures mem.states == Replay(fn, old(mem.states), SparseAdds(BatchTargets(places, offset, None), offsets, values, lo, hi))
  {
    ghost var tgt := BatchTargets(places, offset, None);
    var k := LowerBoundSearch(offsets, lo);  // the iterator positioned at row `lo`
    var i := lo;
    while i < hi
      invariant lo <= i <= hi && k == LowerBound(offsets, i)
      invariant Logged(fn, mem, old(mem.states), old(mem.log), SparseAdds(tgt, offsets, values, lo, i))
      invariant mem.states.Keys == old(mem.states).Keys
    {
      var next := i + 1;
      k := AddSparseRow(fn, mem, places, offset, offsets, values, n, lo, i, next, k, tgt, old(mem.states), old(mem.log));
      i := next;
    }
  }

  /** One row of addBatchSparse: the value the iterator reads at row `i` is
      added to the row's place, and the iterator moves past the row. */
  method AddSparseRow<S, V, R>(fn: AggregateFunction<S, V, R>, mem: Memory<S, V>, places: seq<Ptr>, offset: nat,
                               offsets: seq<nat>, values: seq<V>, n: nat, lo: nat, i: nat, next: nat, k: nat,
                               ghost tgt: seq<Option<nat>>, ghost m0: map<nat, S>, ghost log0: seq<Event<S, V>>)
      returns (k': nat)
    requires ValidSparse(offsets, values, n) && lo <= i && next == i + 1 && next <= |places| && k == LowerBound(offsets, i)
    requires tgt == BatchTargets(places, offset, None) && places[i].At? && places[i].addr + offset in m0
    requires Logged(fn, mem, m0, log0, SparseAdds(tgt, offsets, values, lo, i)) && mem.states.Keys == m0.Keys
    modifies mem
    ensures k' == LowerBound(offsets, next)
    ensures Logged(fn, mem, m0, log0, SparseAdds(tgt, offsets, values, lo, next)) && mem.states.Keys == m0.Keys
  {
    var valueIndex := if k < |offsets| && offsets[k] == i then k + 1 else 0;
    IteratorAdvance(offsets, values, n, k, i, next);
    assert Some(places[i].addr + offset) == tgt[i];
    SparseAddsNext<S, V>(tgt, offsets, values, lo, i, next);
    AddRoutedRow(fn, mem, Some(places[i].addr + offset), values, valueIndex, m0, log0,
                 SparseAdds(tgt, offsets, values, lo, i), SparseAdds(tgt, offsets, values, lo, next));
    k' := if valueIndex != 0 then k + 1 else k;
  }

  /** addBatchSparseSinglePlace: the stored values of rows `[lo, hi)` go
      through addBatchSinglePlace over the values column, then the rows not
      stored through addManyDefaults. */
  method AddBatchSparseSinglePlace<S, V, R>(fn: AggregateFunction<S, V, R>, mem: Memory<S, V>, lo: nat, hi: nat,
                                            place: nat, offsets: seq<nat>, values: seq<V>, n: nat)
    requires ValidSparse(offsets, values, n) && lo <= hi && place in mem.states
    modifies mem
    ensures mem.log == old(mem.log) + SparseSinglePlaceAdds(place, offsets, values, n, lo, hi)
    ensures mem.states == Replay(fn, old(mem.states), SparseSinglePlaceAdds(place, offsets, values, n, lo, hi))
  {
    var first := LowerBoundSearch(offsets, lo);
    var last := LowerBoundSearch(offsets, hi);
    SparseRunCount(offsets, values, n, lo, hi);
    var from, to := first + 1, last + 1;
    var numDefaults := (hi - lo) - (to - from);
    ghost var present := RowAdds<S, V>(SinglePlaceTargets(place, |values|, None), values, from, to);
    ghost var defaults := DefaultAdds<S, V>(place, values, numDefaults);
    SparseSinglePlaceParts(fn, old(mem.states), place, offsets, values, n, lo, hi, from, to, numDefaults, present, defaults);
    if from < to {
      AddBatchSinglePlace(fn, mem, from, to, place, values, None);
    } else {
      assert present == [];
      assert mem.log == old(mem.log) + present;
    }
    if numDefaults > 0 {
      AddManyDefaults(fn, mem, place, values, numDefaults);
      AppendAssoc(old(mem.log), present, defaults);
    } else {
      assert present + defaults == present;
    }
  }

  /** The inner loop of addBatchArray: the nested elements `[jLo, jHi)` of
      one row, each added to the row's place when that place is not null. */
  method AddElements<S, V, R>(fn: AggregateFunction<S, V, R>, mem: Memory<S, V>, place: nat, col: seq<V>, jLo: nat, jHi: nat,
                              ghost m0: map<nat, S>, ghost log0: seq<Event<S, V>>, ghost es: seq<Event<S, V>>)
    requires jLo <= jHi <= |col| && place in m0
    requires Logged(fn, mem, m0, log0, es) && mem.states.Keys == m0.Keys
    modifies mem
    ensures Logged(fn, mem, m0, log0, es + ElementAdds(place, col, jLo, jHi))
    ensures mem.states.Keys == m0.Keys
  {
    assert es + [] == es;
    var j := jLo;
    while j < jHi
      invariant jLo <= j <= jHi
      invariant Logged(fn, mem, m0, log0, es + ElementAdds(place, col, jLo, j))
      invariant mem.states.Keys == m0.Keys
    {
      ghost var part := ElementAdds<S, V>(place, col, jLo, j);
      var next := j + 1;
      assert ElementAdds<S, V>(place, col, jLo, next) == part + [Added(place, j, col[j])];
      AppendAssoc(es, part, [Added(place, j, col[j])]);
      AddRoutedRow(fn, mem, Some(place), col, j, m0, log0, es + part, es + ElementAdds(place, col, jLo, next));
      j := next;
    }
  }

  /** One row of addBatchArray: the nested elements `[current, offsets[i])`
      of row `i` are added to its place, if not null. */
  method AddArrayRow<S, V, R>(fn: AggregateFunction<S, V, R>, mem: Memory<S, V>, places: seq<Ptr>, offset: nat,
                              col: seq<V>, offsets: seq<nat>, lo: nat, i: nat, current: nat, ghost m0: map<nat, S>, ghost log0: seq<Event<S, V>>)
    requires lo <= i && ArrayInRange(places, offsets, |col|, lo, i + 1) && current == OffsetBefore(offsets, i) <= offsets[i]
    requires places[i].At? ==> places[i].addr + offset in m0
    requires Logged(fn, mem, m0, log0, ArrayAdds(places, offset, offsets, col, lo, i)) && mem.states.Keys == m0.Keys
    modifies mem
    ensures Logged(fn, mem, m0, log0, ArrayAdds(places, offset, offsets, col, lo, i + 1)) && mem.states.Keys == m0.Keys
  {
    ArrayAddsSnoc<S, V>(places, offset, offsets, col, lo, i);
    ghost var before := ArrayAdds<S, V>(places, offset, offsets, col, lo, i);
    if places[i].At? {
      var next := offsets[i];
      AddElements(fn, mem, places[i].addr + offset, col, current, next, m0, log0, before);
    } else {
      assert before + [] == before;
    }
  }

  /** addBatchArray: row `r` of `[lo, hi)` owns the nested elements
      `[offsets[r - 1], offsets[r])` of the argument column, and each of them
      is added to `places[r] + offset` when that place is not null. The
      offsets array is padded, so `offsets[lo - 1]` is 0 for `lo` = 0. */
  method AddBatchArray<S, V, R>(fn: AggregateFunction<S, V, R>, mem: Memory<S, V>, lo: nat, hi: nat,
                                places: seq<Ptr>, offset: nat, col: seq<V>, offsets: seq<nat>)
    requires lo <= hi <= |places| && hi <= |offsets| && Monotone(offsets) && OffsetBefore(offsets, hi) <= |col|
    requires forall r :: lo <= r < hi && places[r].At? ==> places[r].addr + offset in mem.states
    modifies mem
    ensures ArrayInRange(places, offsets, |col|, lo, hi)
    ensures mem.log == old(mem.log) + ArrayAdds(places, offset, offsets, col, lo, hi)
    ensures mem.states == Replay(fn, old(mem.states), ArrayAdds(places, offset, offsets, col, lo, hi))
  {
    ArrayInRangeOfEnd(places, offsets, |col|, lo, hi);
    assert mem.log == old(mem.log) + [];
    var current := OffsetBefore(offsets, lo);
    var i := lo;
    while i < hi
      invariant lo <= i <= hi && current == OffsetBefore(offsets, i)
      invariant ArrayInRange(places, offsets, |col|, lo, i)
      invariant Logged(fn, mem, old(mem.states), old(mem.log), ArrayAdds(places, offset, offsets, col, lo, i))
      invariant mem.states.Keys == old(mem.states).Keys
    {
      ArrayInRangeOfEnd(places, offsets, |col|, lo, i + 1);
      AddArrayRow(fn, mem, places, offset, col, offsets, lo, i, current, old(mem.states), old(mem.log));
      current := offsets[i];
      i := i + 1;
    }
  }

  /** One merge of mergeBatch, if the row is routed to a place: the log grows
      by that merge and the replayed states follow. */
  method MergeRoutedRow<S, V, R>(fn: AggregateFunction<S, V, R>, mem: Memory<S, V>, t: Option<nat>, rhs: S,
                                 ghost m0: map<nat, S>, ghost log0: seq<Event<S, V>>, ghost es: seq<Event<S, V>>)
    requires t.Some? ==> t.value in m0
    requires Logged(fn, mem, m0, log0, es) && mem.states.Keys == m0.Keys
    modifies mem
    ensures Logged(fn, mem, m0, log0, es + if t.Some? then [Merged(t.value, rhs)] else [])
    ensures mem.states.Keys == m0.Keys
    ensures forall a :: a in m0 && t != Some(a) ==> mem.states[a] == old(mem.states)[a]
  {
    if t.Some? {
      ReplaySnoc(fn, m0, es, Merged(t.value, rhs));
      mem.Merge(fn, t.value, rhs);
    } else {
      assert es + [] == es;
    }
  }

  /** mergeBatch: the state at `rhs[r]` is merged into `places[r] + offset`
      for every row of `[lo, hi)` whose place is not null, rows in order.
      The right-hand states live in the same memory but are none of the
      destination places. */
  method MergeBatch<S, V, R>(fn: AggregateFunction<S, V, R>, mem: Memory<S, V>, lo: nat, hi: nat,
                             places: seq<Ptr>, offset: nat, rhs: seq<nat>)
    requires lo <= hi <= |places| && hi <= |rhs|
    requires forall r :: lo <= r < hi && places[r].At? ==> places[r].addr + offset in mem.states && rhs[r] in mem.states
    requires forall r, q :: lo <= r < hi && lo <= q < hi && places[r].At? && places[q].At? ==> places[r].addr + offset != rhs[q]
    modifies mem
    ensures forall r :: lo <= r < hi && BatchTargets(places, offset, None)[r].Some? ==> rhs[r] in old(mem.states)
    ensures mem.log == old(mem.log) + RowMerges(BatchTargets(places, offset, None), old(mem.states), rhs, lo, hi)
    ensures mem.states == Replay(fn, old(mem.states), RowMerges(BatchTargets(places, offset, None), old(mem.states), rhs, lo, hi))
  {
    ghost var tgt, m0 := BatchTargets(places, offset, None), mem.states;
    var i := lo;
    while i < hi
      invariant lo <= i <= hi
      invariant Logged(fn, mem, m0, old(mem.log), RowMerges(tgt, m0, rhs, lo, i))
      invariant mem.states.Keys == m0.Keys
      invariant RhsIntact(mem.states, m0, places, rhs, i, hi)
    {
      var next := i + 1;
      MergeRow(fn, mem, lo, hi, places, offset, rhs, i, next, tgt, m0, old(mem.log));
      i := next;
    }
  }

  /** The right-hand states of rows `[i, hi)` are still those the batch started with. */
  ghost predicate RhsIntact<S>(states: map<nat, S>, m0: map<nat, S>, places: seq<Ptr>, rhs: seq<nat>, i: nat, hi: nat)
    requires hi <= |places| && hi <= |rhs|
    requires forall r :: i <= r < hi && places[r].At? ==> rhs[r] in states && rhs[r] in m0
  {
    forall r :: i <= r < hi && places[r].At? ==> states[rhs[r]] == m0[rhs[r]]
  }

  /** One row of mergeBatch: the state at `rhs[i]` is merged into the row's
      place, if not null. */
  method MergeRow<S, V, R>(fn: AggregateFunction<S, V, R>, mem: Memory<S, V>, lo: nat, hi: nat,
                           places: seq<Ptr>, offset: nat, rhs: seq<nat>, i: nat, next: nat,
                           ghost tgt: seq<Option<nat>>, ghost m0: map<nat, S>, ghost log0: seq<Event<S, V>>)
    requires lo <= i < hi && next == i + 1 && hi <= |places| && hi <= |rhs| && tgt == BatchTargets(places, offset, None)
    requires forall r :: lo <= r < hi && places[r].At? ==> places[r].addr + offset in m0 && rhs[r] in m0
    requires forall r, q :: lo <= r < hi && lo <= q < hi && places[r].At? && places[q].At? ==> places[r].addr + offset != rhs[q]
    requires Logged(fn, mem, m0, log0, RowMerges(tgt, m0, rhs, lo, i)) && mem.states.Keys == m0.Keys
    requires RhsIntact(mem.states, m0, places, rhs, i, hi)
    modifies mem
    ensures Logged(fn, mem, m0, log0, RowMerges(tgt, m0, rhs, lo, next)) && mem.states.Keys == m0.Keys
    ensures RhsIntact(mem.states, m0, places, rhs, next, hi)
  {
    var t := if places[i].At? then Some(places[i].addr + offset) else None;
    assert t == tgt[i];
    RowMergesNext<S, V>(tgt, m0, rhs, lo, i, next);
    if t.Some? {
      assert mem.states[rhs[i]] == m0[rhs[i]];
      MergeRoutedRow(fn, mem, t, mem.states[rhs[i]], m0, log0, RowMerges(tgt, m0, rhs, lo, i));
    } else {
      assert RowMerges<S, V>(tgt, m0, rhs, lo, i) + [] == RowMerges(tgt, m0, rhs, lo, i);
    }
  }

  /** One pair of mergeAndDestroyBatch: merge the state at `src` into `d`,
      then destroy `src`; `next` is the log of the batch so far extended by
      these two calls. */
  method MergeDestroyPair<S, V, R>(fn: AggregateFunction<S, V, R>, mem: Memory<S, V>, d: nat, src: nat,
                                   ghost m0: map<nat, S>, ghost log0: seq<Event<S, V>>, ghost es: seq<Event<S, V>>, ghost next: seq<Event<S, V>>)
    requires d != src && d in mem.states && src in mem.states
    requires Logged(fn, mem, m0, log0, es)
    requires next == es + [Merged(d, mem.states[src]), Destroyed(src)]
    modifies mem
    ensures Logged(fn, mem, m0, log0, next)
    ensures mem.states == old(mem.states)[d := fn.merge(old(mem.states)[d], old(mem.states)[src])] - {src}
  {
    ghost var e1: Event<S, V>, e2: Event<S, V> := Merged(d, mem.states[src]), Destroyed(src);
    ReplaySnoc(fn, m0, es, e1);
    ReplaySnoc(fn, m0, es + [e1], e2);
    assert es + [e1] + [e2] == next;
    AppendAssoc(log0, es, [e1, e2]);
    mem.Merge(fn, d, mem.states[src]);
    mem.Destroy(src);
  }

  /** The pairs `[i, size)` of mergeAndDestroyBatch are still to come: both
      their places are live, and each source still holds its state from the start. */
  ghost predicate PairsAhead<S>(dst: seq<nat>, src: seq<nat>, offset: nat, m0: map<nat, S>, st: map<nat, S>, i: nat, size: nat)
    requires size <= |dst| && size <= |src|
  {
    forall k :: i <= k < size ==> dst[k] + offset in st && src[k] + offset in st && src[k] + offset in m0 && st[src[k] + offset] == m0[src[k] + offset]
  }

  /** Merging pair `i` and destroying its source leaves the later pairs to come. */
  lemma PairsAheadStep<S>(dst: seq<nat>, src: seq<nat>, offset: nat, m0: map<nat, S>, st: map<nat, S>, st': map<nat, S>,
                          i: nat, next: nat, size: nat, x: S)
    requires next == i + 1 && next <= size <= |dst| && size <= |src|
    requires forall a, b :: 0 <= a < b < size ==> src[a] != src[b]
    requires forall a, b :: 0 <= a < size && 0 <= b < size ==> dst[a] != src[b]
    requires PairsAhead(dst, src, offset, m0, st, i, size)
    requires st' == st[dst[i] + offset := x] - {src[i] + offset}
    ensures PairsAhead(dst, src, offset, m0, st', next, size)
  {
    forall k | next <= k < size
      ensures dst[k] + offset in st' && src[k] + offset in st' && st'[src[k] + offset] == m0[src[k] + offset]
    {
      assert dst[k] != src[i] && src[k] != src[i] && src[k] != dst[i];
    }
  }

  /** mergeAndDestroyBatch: for each `i` in `[0, size)`, in order, the state
      at `src[i] + offset` is merged into `dst[i] + offset` and then destroyed.
      The source places are distinct and none of them is a destination. */
  method MergeAndDestroyBatch<S, V, R>(fn: AggregateFunction<S, V, R>, mem: Memory<S, V>,
                                       dst: seq<nat>, src: seq<nat>, size: nat, offset: nat)
    requires size <= |dst| && size <= |src|
    requires forall i, j :: 0 <= i < j < size ==> src[i] != src[j]
    requires forall i, j :: 0 <= i < size && 0 <= j < size ==> dst[i] != src[j]
    requires forall i :: 0 <= i < size ==> dst[i] + offset in mem.states && src[i] + offset in mem.states
    modifies mem
    ensures mem.log == old(mem.log) + MergeDestroyEvents(dst, src, offset, old(mem.states), size)
    ensures mem.states == Replay(fn, old(mem.states), MergeDestroyEvents(dst, src, offset, old(mem.states), size))
  {
    ghost var m0 := mem.states;
    var i := 0;
    while i < size
      invariant i <= size
      invariant Logged(fn, mem, m0, old(mem.log), MergeDestroyEvents(dst, src, offset, m0, i))
      invariant PairsAhead(dst, src, offset, m0, mem.states, i, size)
    {
      var p, q := dst[i] + offset, src[i] + offset;
      var next := i + 1;
      MergeDestroyEventsNext<S, V>(dst, src, offset, m0, i, next);
      ghost var before := mem.states;
      MergeDestroyPair(fn, mem, p, q, m0, old(mem.log), MergeDestroyEvents(dst, src, offset, m0, i),
                       MergeDestroyEvents(dst, src, offset, m0, next));
      PairsAheadStep(dst, src, offset, m0, before, mem.states, i, next, size, fn.merge(before[p], before[q]));
      i := next;
    }
  }

  /** destroyBatch: the state at `places[i] + offset` is destroyed for every
      `i` in `[lo, hi)`, in order; the places are distinct and live. */
  method DestroyBatch<S, V>(mem: Memory<S, V>, lo: nat, hi: nat, places: seq<nat>, offset: nat)
    requires lo <= hi <= |places|
    requires Distinct(Shifted(places, offset, lo, hi))
    requires forall p :: p in Shifted(places, offset, lo, hi) ==> p in mem.states
    modifies mem
    ensures mem.log == old(mem.log) + DestroyAll(Shifted(places, offset, lo, hi))
    ensures mem.states == old(mem.states) - Elems(Shifted(places, offset, lo, hi))
  {
    ghost var ps := Shifted(places, offset, lo, hi);
    var i := lo;
    while i < hi
      invariant lo <= i <= hi
      invariant mem.log == old(mem.log) + DestroyAll(ps[..i - lo])
      invariant mem.states == old(mem.states) - Elems(ps[..i - lo])
    {
      ghost var k := i - lo;
      assert ps[..k + 1] == ps[..k] + [ps[k]];
      assert DestroyAll<S, V>(ps[..k + 1]) == DestroyAll<S, V>(ps[..k]) + [Destroyed(ps[k])];
      assert Elems(ps[..k + 1]) == Elems(ps[..k]) + {ps[k]};
      assert ps[k] !in ps[..k];
      mem.Destroy(places[i] + offset);
      i := i + 1;
    }
    assert ps[..hi - lo] == ps;
  }

  /** One row of insertResultIntoBatch: finalize the state at `ps[k]`;
      when that succeeds, release the place with destroyUpToState. */
  method FinalizeRow<S, V, R>(fn: AggregateFunction<S, V, R>, mem: Memory<S, V>, p: nat,
                              ghost ps: seq<nat>, ghost k: nat, ghost next: nat, ghost m0: map<nat, S>, ghost log0: seq<Event<S, V>>)
    returns (r: Option<R>)
    requires k < |ps| && next == k + 1 && ps[k] == p && Distinct(ps) && forall q :: q in ps ==> q in m0
    requires mem.log == log0 + ReleaseAll(ps[..k]) && mem.states == m0 - Elems(ps[..k])
    modifies mem
    ensures r == fn.insertResult(m0[p])
    ensures r.None? ==> mem.log == old(mem.log) && mem.states == old(mem.states)
    ensures r.Some? ==> mem.log == log0 + ReleaseAll(ps[..next]) && mem.states == m0 - Elems(ps[..next])
  {
    assert p !in ps[..k];
    r := fn.insertResult(mem.states[p]);
    if r.Some? {
      assert ps[..next] == ps[..k] + [p];
      assert ReleaseAll<S, V>(ps[..next]) == ReleaseAll<S, V>(ps[..k]) + [DestroyedUpToState(p)];
      assert Elems(ps[..next]) == Elems(ps[..k]) + {p};
      mem.DestroyUpToState(p);
    }
  }

  /** The try block of insertResultIntoBatch: finalize and release the
      places in order until the end of the batch or the first failure. On
      return, `failed` says whether finalizing the place at index `i` failed. */
  method FinalizeRows<S, V, R>(fn: AggregateFunction<S, V, R>, mem: Memory<S, V>, lo: nat, hi: nat,
                               places: seq<nat>, offset: nat, ghost ps: seq<nat>) returns (results: seq<R>, i: nat, failed: bool)
    requires lo <= hi <= |places| && ps == Shifted(places, offset, lo, hi)
    requires Distinct(ps) && forall p :: p in ps ==> p in mem.states
    modifies mem
    ensures lo <= i <= hi && i - lo == FirstFailure(fn, old(mem.states), ps) && failed == (i < hi)
    ensures results == Results(fn, old(mem.states), ps, i - lo)
    ensures mem.log == old(mem.log) + ReleaseAll(ps[..i - lo])
    ensures mem.states == old(mem.states) - Elems(ps[..i - lo])
  {
    ghost var m0 := mem.states;
    ghost var b := FirstFailure(fn, m0, ps);
    ghost var n := 0;
    results := [];
    i := lo;
    failed := false;
    while i < hi && !failed
      invariant lo <= i <= hi && n == i - lo && n <= b
      invariant failed ==> i < hi && n == b
      invariant results == Results(fn, m0, ps, n)
      invariant mem.log == old(mem.log) + ReleaseAll(ps[..n])
      invariant mem.states == m0 - Elems(ps[..n])
      decreases hi - i, if failed then 0 else 1
    {
      ghost var next := n + 1;
      var r := FinalizeRow(fn, mem, places[i] + offset, ps, n, next, m0, old(mem.log));
      if r.None? {
        failed := true;
      } else {
        ResultsNext(fn, m0, ps, n, next);
        results := results + [r.value];
        i := i + 1;
        n := next;
      }
    }
  }

  /** The places from row `i` on are the rest of the batch's places, and
      the two parts together are all of them. */
  lemma ShiftedRest(places: seq<nat>, offset: nat, lo: nat, i: nat, hi: nat, ps: seq<nat>, b: nat)
    requires lo <= i <= hi <= |places| && ps == Shifted(places, offset, lo, hi) && b == i - lo
    ensures Shifted(places, offset, i, hi) == ps[b..]
    ensures Elems(ps) == Elems(ps[..b]) + Elems(ps[b..])
  {
    assert ps == ps[..b] + ps[b..];
  }

  /** insertResultIntoBatch: for each `i` of `[lo, hi)` in order, the state at
      `places[i] + offset` is finalized into the result column and then
      released with destroyUpToState. When finalizing fails at some row, the
      states of that row and of every later row are destroyed instead and the
      failure is reported (`ok` false; an exception in the source). Either way
      every place is disposed of exactly once (lemma DestroyedExactlyOnce). */
  method InsertResultIntoBatch<S, V, R>(fn: AggregateFunction<S, V, R>, mem: Memory<S, V>, lo: nat, hi: nat,
                                        places: seq<nat>, offset: nat) returns (results: seq<R>, ok: bool)
    requires lo <= hi <= |places|
    requires Distinct(Shifted(places, offset, lo, hi))
    requires forall p :: p in Shifted(places, offset, lo, hi) ==> p in mem.states
    modifies mem
    ensures ok == (FirstFailure(fn, old(mem.states), Shifted(places, offset, lo, hi)) == hi - lo)
    ensures results == Results(fn, old(mem.states), Shifted(places, offset, lo, hi), FirstFailure(fn, old(mem.states), Shifted(places, offset, lo, hi)))
    ensures mem.log == old(mem.log) + Disposal(Shifted(places, offset, lo, hi), FirstFailure(fn, old(mem.states), Shifted(places, offset, lo, hi)))
    ensures mem.states == old(mem.states) - Elems(Shifted(places, offset, lo, hi))
  {
    ghost var ps := Shifted(places, offset, lo, hi);
    var i, failed;
    results, i, failed := FinalizeRows(fn, mem, lo, hi, places, offset, ps);
    ghost var b := i - lo;
    ok := !failed;
    if failed {
      ShiftedRest(places, offset, lo, i, hi, ps, b);
      DestroyBatch(mem, i, hi, places, offset);
      AppendAssoc(old(mem.log), ReleaseAll<S, V>(ps[..b]), DestroyAll<S, V>(ps[b..]));
    } else {
      assert ps[..b] == ps && ps[b..] == [];
      assert Disposal<S, V>(ps, b) == ReleaseAll(ps[..b]);
    }
  }

  /** serializeBatch: the states at `data[i]`, for `i` from `start` up to (not
      including) `size`, are serialized into the buffer one after the other.
      `size` is an end index, not a count. */
  method SerializeBatch<S, V, R>(fn: AggregateFunction<S, V, R>, mem: Memory<S, V>, data: seq<nat>, start: nat, size: nat, buf: WriteBuffer)
    requires size <= start || (size <= |data| && forall i :: start <= i < size ==> data[i] in mem.states)
    modifies buf
    ensures buf.bytes == old(buf.bytes) + SerializeAll(fn, StatesAt(mem.states, data, start, size))
  {
    var i := start;
    while i < size
      invariant i == start || start <= i <= size
      invariant buf.bytes == old(buf.bytes) + SerializeAll(fn, StatesAt(mem.states, data, start, i))
    {
      StatesAtSnoc(mem.states, data, start, i);
      SerializeAllSnoc(fn, StatesAt(mem.states, data, start, i), mem.states[data[i]]);
      buf.Write(fn.serialize(mem.states[data[i]]));
      i := i + 1;
    }
  }

  /** One state of createAndDeserializeBatch: create it at `cur`, then read
      it from the buffer. On a failed read the state is destroyed again and
      `r` is `None`; otherwise `r` is the state read and the bytes it took. */
  method CreateAndDeserialize<S, V, R>(fn: AggregateFunction<S, V, R>, mem: Memory<S, V>, cur: nat, buf: ReadBuffer) returns (r: Option<(S, nat)>)
    requires buf.Valid() && cur !in mem.states
    modifies mem, buf
    ensures buf.Valid() && r == ReadState(fn, old(buf.Remaining()))
    ensures r.None? ==> buf.pos == old(buf.pos) && mem.states == old(mem.states)
                        && mem.log == old(mem.log) + [Created(cur), Destroyed(cur)]
    ensures r.Some? ==> buf.pos == old(buf.pos) + r.value.1 && mem.states == old(mem.states)[cur := r.value.0]
                        && mem.log == old(mem.log) + [Created(cur), Restored(cur, r.value.0)]
  {
    mem.Create(fn, cur);
    r := ReadState(fn, buf.Remaining());
    if r.None? {
      mem.Destroy(cur);
      assert mem.states == old(mem.states);
    } else {
      buf.Skip(r.value.1);
      mem.Restore(cur, r.value.0);
    }
  }

  /** Where the loop of createAndDeserializeBatch stands after reading the
      states `got` of the run `run` (started at position `pos0`, on memory
      `m0` and log `log0`): they sit at the first `|got|` strided places, the
      rest of the run is still to be read, and the memory from the next place
      upward is free. */
  ghost predicate Progress<S, V, R>(fn: AggregateFunction<S, V, R>, mem: Memory<S, V>, buf: ReadBuffer, run: ReadRun<S>,
                                    m0: map<nat, S>, log0: seq<Event<S, V>>, pos0: nat, place: nat, stride: nat, limit: nat, got: seq<S>)
    reads mem, buf
  {
    buf.Valid() && pos0 <= buf.pos && |got| <= limit
    && ReadSoFar(fn, run, got, buf.data, pos0, buf.pos, limit - |got|)
    && mem.log == log0 + RestoreEvents(Strided(place, stride, |got|), got)
    && mem.states == Replay(fn, m0, RestoreEvents(Strided(place, stride, |got|), got))
  }

  /** A state `s` read at position `pos1` and restored at the next strided
      place moves the loop of createAndDeserializeBatch one state on. */
  lemma ProgressStep<S, V, R>(fn: AggregateFunction<S, V, R>, mem: Memory<S, V>, buf: ReadBuffer, run: ReadRun<S>,
                              m0: map<nat, S>, log0: seq<Event<S, V>>, pos0: nat, place: nat, stride: nat, limit: nat, got: seq<S>,
                              s: S, pos1: nat)
    requires buf.Valid() && pos0 <= pos1 < |buf.data| && |got| < limit
    requires ReadSoFar(fn, run, got, buf.data, pos0, pos1, limit - |got|)
    requires pos1 <= buf.pos && ReadState(fn, buf.data[pos1..]) == Some((s, buf.pos - pos1))
    requires mem.log == log0 + RestoreEvents(Strided(place, stride, |got|), got)
                        + [Created(NthPlace(place, stride, |got|)), Restored(NthPlace(place, stride, |got|), s)]
    requires mem.states == Replay(fn, m0, RestoreEvents(Strided(place, stride, |got|), got))[NthPlace(place, stride, |got|) := s]
    ensures Progress(fn, mem, buf, run, m0, log0, pos0, place, stride, limit, got + [s])
  {
    var got' := got + [s];
    assert |got'| == |got| + 1;
    ReadSoFarStep(fn, run, got, buf.data, pos0, pos1, limit - |got|, s, buf.pos - pos1, got', buf.pos, limit - |got'|);
    RestoreNext(fn, m0, log0, mem.log, mem.states, place, stride, got, s, got');
  }

  /** Restoring `s` at the next strided place extends the restored run by `s`. */
  lemma RestoreNext<S, V, R>(fn: AggregateFunction<S, V, R>, m0: map<nat, S>, log0: seq<Event<S, V>>, log: seq<Event<S, V>>,
                             states: map<nat, S>, place: nat, stride: nat, got: seq<S>, s: S, got': seq<S>)
    requires got' == got + [s]
    requires log == log0 + RestoreEvents(Strided(place, stride, |got|), got)
                    + [Created(NthPlace(place, stride, |got|)), Restored(NthPlace(place, stride, |got|), s)]
    requires states == Replay(fn, m0, RestoreEvents(Strided(place, stride, |got|), got))[NthPlace(place, stride, |got|) := s]
    ensures log == log0 + RestoreEvents(Strided(place, stride, |got'|), got')
    ensures states == Replay(fn, m0, RestoreEvents(Strided(place, stride, |got'|), got'))
  {
    var ps, cur := Strided(place, stride, |got|), NthPlace(place, stride, |got|);
    var ps' := Strided(place, stride, |got'|);
    StridedNext(place, stride, |got|, |got'|);
    assert RestoreEvents<S, V>(ps', got') == RestoreEvents(ps, got) + [Created(cur), Restored(cur, s)] by {
      RestoreEventsSnoc<S, V>(ps, got, cur, s);
    }
    AppendAssoc(log0, RestoreEvents(ps, got), [Created(cur), Restored(cur, s)]);
    RestoreStep(fn, m0, RestoreEvents(ps, got), cur, s);
  }

  /** The loop of createAndDeserializeBatch has stopped at a failed read:
      the run failed after the states `got`, the buffer stands where the run
      says, and the state created at `cur` for the failed read is gone again. */
  ghost predicate Failed<S, V, R>(fn: AggregateFunction<S, V, R>, mem: Memory<S, V>, buf: ReadBuffer, run: ReadRun<S>,
                                  m0: map<nat, S>, log0: seq<Event<S, V>>, pos0: nat, place: nat, stride: nat, got: seq<S>, cur: nat)
    reads mem, buf
  {
    buf.Valid() && run.states == got && run.failed && buf.pos == pos0 + run.consumed
    && mem.log == log0 + RestoreEvents(Strided(place, stride, |got|), got) + RolledBack(true, cur)
    && mem.states == Replay(fn, m0, RestoreEvents(Strided(place, stride, |got|), got))
  }

  /** One iteration of createAndDeserializeBatch that reads a state at
      `cur`: either the run goes on with that state, or the run fails here and
      the state created for it is destroyed again. */
  method LoadOne<S, V, R>(fn: AggregateFunction<S, V, R>, mem: Memory<S, V>, cur: nat, buf: ReadBuffer,
                          ghost run: ReadRun<S>, ghost m0: map<nat, S>, ghost log0: seq<Event<S, V>>, ghost pos0: nat,
                          ghost place: nat, ghost stride: nat, ghost limit: nat, ghost got: seq<S>) returns (r: Option<(S, nat)>)
    requires Progress(fn, mem, buf, run, m0, log0, pos0, place, stride, limit, got)
    requires cur == NthPlace(place, stride, |got|) && cur !in mem.states && |got| < limit && !buf.Eof()
    modifies mem, buf
    ensures buf.Valid()
    ensures r.None? ==> Failed(fn, mem, buf, run, m0, log0, pos0, place, stride, got, cur)
    ensures r.Some? ==> Progress(fn, mem, buf, run, m0, log0, pos0, place, stride, limit, got + [r.value.0])
  {
    r := CreateAndDeserialize(fn, mem, cur, buf);
    if r.None? {
      ReadSoFarFail(fn, run, got, buf.data, pos0, buf.pos, limit - |got|);
    } else {
      ProgressStep(fn, mem, buf, run, m0, log0, pos0, place, stride, limit, got, r.value.0, old(buf.pos));
    }
  }

  /** createAndDeserializeBatch: up to `limit` states are created at `place`,
      `place + stride`, ... and read from the buffer, stopping early at the
      end of the input. Each state read is appended to `data`. When a read
      fails, the state just created is destroyed and the failure is reported
      (`ok` false; an exception in the source); the states read before it
      stay live and listed. The memory from `place` upward is free. */
  method CreateAndDeserializeBatch<S, V, R>(fn: AggregateFunction<S, V, R>, mem: Memory<S, V>, data: seq<nat>,
                                            place: nat, stride: nat, limit: nat, buf: ReadBuffer) returns (out: seq<nat>, ok: bool)
    requires buf.Valid() && 0 < stride
    requires forall a :: place <= a ==> a !in mem.states
    modifies mem, buf
    ensures buf.Valid()
    ensures ok == !DeserializeRun(fn, buf.data[old(buf.pos)..], limit).failed
    ensures buf.pos == old(buf.pos) + DeserializeRun(fn, buf.data[old(buf.pos)..], limit).consumed
    ensures out == data + Strided(place, stride, |DeserializeRun(fn, buf.data[old(buf.pos)..], limit).states|)
    ensures mem.log == old(mem.log)
      + RestoreEvents(Strided(place, stride, |DeserializeRun(fn, buf.data[old(buf.pos)..], limit).states|), DeserializeRun(fn, buf.data[old(buf.pos)..], limit).states)
      + RolledBack(!ok, NthPlace(place, stride, |DeserializeRun(fn, buf.data[old(buf.pos)..], limit).states|))
    ensures mem.states == Replay(fn, old(mem.states),
      RestoreEvents(Strided(place, stride, |DeserializeRun(fn, buf.data[old(buf.pos)..], limit).states|), DeserializeRun(fn, buf.data[old(buf.pos)..], limit).states))
  {
    ghost var run := DeserializeRun(fn, buf.data[buf.pos..], limit);
    ghost var got, ps;
    out, ok, got, ps := LoadStates(fn, mem, data, place, stride, limit, buf, run);
  }

  /** The loop of createAndDeserializeBatch, reading the run `run`. */
  method LoadStates<S, V, R>(fn: AggregateFunction<S, V, R>, mem: Memory<S, V>, data: seq<nat>,
                             place: nat, stride: nat, limit: nat, buf: ReadBuffer, ghost run: ReadRun<S>)
    returns (out: seq<nat>, ok: bool, ghost got: seq<S>, ghost ps: seq<nat>)
    requires buf.Valid() && 0 < stride && run == DeserializeRun(fn, buf.data[buf.pos..], limit)
    requires forall a :: place <= a ==> a !in mem.states
    modifies mem, buf
    ensures buf.Valid() && got == run.states && ok == !run.failed && buf.pos == old(buf.pos) + run.consumed
    ensures ps == Strided(place, stride, |got|) && out == data + ps
    ensures mem.log == old(mem.log) + RestoreEvents(ps, got) + RolledBack(!ok, NthPlace(place, stride, |got|))
    ensures mem.states == Replay(fn, old(mem.states), RestoreEvents(ps, got))
  {
    ghost var m0, log0, pos0 := mem.states, mem.log, buf.pos;
    got := [];
    out := data;
    var failed := false;
    var cur: nat := place;
    var i: nat := 0;
    LoadStart(fn, mem, buf, run, place, stride, limit, data);
    while i < limit && !buf.Eof() && !failed
      invariant i <= limit
      invariant LoadInv(fn, mem, buf, run, m0, log0, pos0, place, stride, limit, data, got, out, cur, i, failed)
      decreases limit - i, if failed then 0 else 1
    {
      failed, got, out, cur, i := LoadNext(fn, mem, buf, run, m0, log0, pos0, place, stride, limit, data, got, out, cur, i);
    }
    ok := !failed;
    ps := Strided(place, stride, i);
    LoadDone(fn, mem, buf, run, m0, log0, pos0, place, stride, limit, data, got, out, cur, i, failed);
  }

  /** The loop of createAndDeserializeBatch starts with nothing read. */
  lemma LoadStart<S, V, R>(fn: AggregateFunction<S, V, R>, mem: Memory<S, V>, buf: ReadBuffer, run: ReadRun<S>,
                           place: nat, stride: nat, limit: nat, data: seq<nat>)
    requires buf.Valid() && 0 < stride && run == DeserializeRun(fn, buf.data[buf.pos..], limit)
    requires forall a :: place <= a ==> a !in mem.states
    ensures LoadInv(fn, mem, buf, run, mem.states, mem.log, buf.pos, place, stride, limit, data, [], data, place, 0, false)
  {
    assert [] + run.states == run.states;
    assert data + [] == data;
    assert mem.log + [] == mem.log;
  }

  /** Where the loop of createAndDeserializeBatch stops: at a failed read,
      after `limit` states, or at the end of the input. */
  lemma LoadDone<S, V, R>(fn: AggregateFunction<S, V, R>, mem: Memory<S, V>, buf: ReadBuffer, run: ReadRun<S>,
                          m0: map<nat, S>, log0: seq<Event<S, V>>, pos0: nat, place: nat, stride: nat, limit: nat,
                          data: seq<nat>, got: seq<S>, out: seq<nat>, cur: nat, i: nat, failed: bool)
    requires i <= limit && LoadInv(fn, mem, buf, run, m0, log0, pos0, place, stride, limit, data, got, out, cur, i, failed)
    requires !(i < limit && !buf.Eof() && !failed)
    ensures buf.Valid() && got == run.states && failed == run.failed && buf.pos == pos0 + run.consumed
    ensures out == data + Strided(place, stride, |got|)
    ensures mem.log == log0 + RestoreEvents(Strided(place, stride, |got|), got) + RolledBack(failed, NthPlace(place, stride, |got|))
    ensures mem.states == Replay(fn, m0, RestoreEvents(Strided(place, stride, |got|), got))
  {
    if !failed {
      ReadSoFarDone(fn, run, got, buf.data, pos0, buf.pos, limit - i);
      assert mem.log == log0 + RestoreEvents(Strided(place, stride, |got|), got) + [];
    }
  }

  /** What the loop of createAndDeserializeBatch keeps: `i` states read
      into the places listed in `out`, and either the run goes on or it has
      stopped at a failed read. */
  ghost predicate LoadInv<S, V, R>(fn: AggregateFunction<S, V, R>, mem: Memory<S, V>, buf: ReadBuffer, run: ReadRun<S>,
                                   m0: map<nat, S>, log0: seq<Event<S, V>>, pos0: nat, place: nat, stride: nat, limit: nat,
                                   data: seq<nat>, got: seq<S>, out: seq<nat>, cur: nat, i: nat, failed: bool)
    reads mem, buf
  {
    i == |got| && cur == NthPlace(place, stride, i) && out == data + Strided(place, stride, i)
    && 0 < stride && (forall a :: place <= a ==> a !in m0)
    && (!failed ==> Progress(fn, mem, buf, run, m0, log0, pos0, place, stride, limit, got))
    && (failed ==> Failed(fn, mem, buf, run, m0, log0, pos0, place, stride, got, cur))
  }

  /** One turn of the loop of createAndDeserializeBatch. */
  method LoadNext<S, V, R>(fn: AggregateFunction<S, V, R>, mem: Memory<S, V>, buf: ReadBuffer, ghost run: ReadRun<S>,
                           ghost m0: map<nat, S>, ghost log0: seq<Event<S, V>>, ghost pos0: nat, place: nat, stride: nat,
                           limit: nat, data: seq<nat>, ghost got: seq<S>, out: seq<nat>, cur: nat, i: nat)
    returns (failed: bool, ghost got': seq<S>, out': seq<nat>, cur': nat, i': nat)
    requires LoadInv(fn, mem, buf, run, m0, log0, pos0, place, stride, limit, data, got, out, cur, i, false)
    requires i < limit && !buf.Eof()
    modifies mem, buf
    ensures LoadInv(fn, mem, buf, run, m0, log0, pos0, place, stride, limit, data, got', out', cur', i', failed)
    ensures if failed then i' == i else i' == i + 1
  {
    assert cur !in mem.states by {
      NthPlaceAtLeast(place, stride, i);
      FreshAbove(fn, m0, place, stride, got, cur);
    }
    var r := LoadOne(fn, mem, cur, buf, run, m0, log0, pos0, place, stride, limit, got);
    if r.None? {
      failed, got', out', cur', i' := true, got, out, cur, i;
    } else {
      var next := i + 1;
      StridedNext(place, stride, i, next);
      failed, got', out', cur', i' := false, got + [r.value.0], out + [cur], cur + stride, next;
      AppendAssoc(data, Strided(place, stride, i), [cur]);
    }
  }

  /** The memory and its log are where the run `c` (started on the log
      `log0`) has brought them. */
  ghost predicate MemAtCursor<S, V>(mem: Memory<S, V>, c: Cursor<S, V>, log0: seq<Event<S, V>>)
    reads mem
  {
    mem.states == c.st && mem.log == log0 + c.es
  }

  /** ... and so is the table. */
  ghost predicate AtCursor<S, V>(mem: Memory<S, V>, table: array<Ptr>, c: Cursor<S, V>, log0: seq<Event<S, V>>)
    reads mem, table
  {
    table[..] == c.t && MemAtCursor(mem, c, log0)
  }

  /** The entry `map[k]`, initialized first when it is null: the
      arena hands out a block above every live state, an empty state is
      created in it at the function's offset, and the entry points to the
      block. The run so far is `c`; `bases` records the arena's answers. */
  method FindOrInit<S, V, R>(fn: AggregateFunction<S, V, R>, mem: Memory<S, V>, table: array<Ptr>, offset: nat,
                             k: nat, ghost c: Cursor<S, V>, ghost bases: seq<nat>, ghost log0: seq<Event<S, V>>)
    returns (place: Ptr, ghost c': Cursor<S, V>, ghost bases': seq<nat>)
    requires table.Length == KeyCount && k < KeyCount && c.used == |bases|
    requires AtCursor(mem, table, c, log0) && TableLive(c.t, c.st, offset)
    modifies mem, table
    ensures c' == FindRow(fn, c, k, bases', offset) && c'.used == |bases'| && c'.aboveLive == c.aboveLive
    ensures bases <= bases'
    ensures AtCursor(mem, table, c', log0) && TableLive(c'.t, c'.st, offset)
    ensures place == c'.t[k] && place.At?
  {
    bases' := bases;
    if table[k].Null? {
      var base := mem.FreshBlock();
      mem.Create(fn, base + offset);
      table[k] := At(base);
      bases' := bases + [base];
    }
    place := table[k];
    c' := FindRow(fn, c, k, bases', offset);
    FindRowLive(fn, c, k, bases', offset);
  }

  /** add(place + place_offset, row r) for the entry `place` found for row
      `r`'s key. */
  method AddLookupRow<S, V, R>(fn: AggregateFunction<S, V, R>, mem: Memory<S, V>, place: Ptr, offset: nat,
                               key: seq<UInt8>, col: seq<V>, r: nat, ghost c: Cursor<S, V>, ghost log0: seq<Event<S, V>>)
    returns (ghost c': Cursor<S, V>)
    requires |c.t| == KeyCount && r < |key| && r < |col| && place == c.t[key[r]] && place.At?
    requires MemAtCursor(mem, c, log0) && place.addr + offset in c.st
    modifies mem
    ensures c' == AddRow(fn, c, key, col, r, offset) && MemAtCursor(mem, c', log0)
  {
    mem.Add(fn, place.addr + offset, col, r);
    c' := AddRow(fn, c, key, col, r, offset);
  }

  /** The first `n` places of `ps`, found for rows `[i, i + n)`: the set
      entries of their keys. */
  predicate PlacesFound(ps: seq<Ptr>, n: nat, t: seq<Ptr>, key: seq<UInt8>, i: nat)
    requires n <= |ps| && |t| == KeyCount && i + n <= |key|
  {
    forall j :: 0 <= j < n ==> ps[j] == t[key[i + j]] && ps[j].At?
  }

  /** Finding one more entry keeps the places found so far, since set entries stay. */
  lemma PlacesFoundMore(ps: seq<Ptr>, n: nat, t: seq<Ptr>, t': seq<Ptr>, key: seq<UInt8>, i: nat, p: Ptr)
    requires n < |ps| && |t| == KeyCount && |t'| == KeyCount && i + n < |key| && PlacesFound(ps, n, t, key, i)
    requires forall k :: 0 <= k < KeyCount && t[k].At? ==> t'[k] == t[k]
    requires p == t'[key[i + n]] && p.At?
    ensures PlacesFound(ps[n := p], n + 1, t', key, i)
  {
  }

  /** The first loop of an unrolled block of addBatchLookupTable8: the
      entries of the keys of rows `[i, i + 8)`, each initialized first when it
      is null. */
  method FindBlock<S, V, R>(fn: AggregateFunction<S, V, R>, mem: Memory<S, V>, table: array<Ptr>, offset: nat,
                            key: seq<UInt8>, i: nat, ghost c: Cursor<S, V>, ghost bases: seq<nat>, ghost log0: seq<Event<S, V>>)
    returns (places: array<Ptr>, ghost c': Cursor<S, V>, ghost bases': seq<nat>)
    requires table.Length == KeyCount && i + UnrollCount <= |key| && c.used == |bases|
    requires AtCursor(mem, table, c, log0) && TableLive(c.t, c.st, offset)
    modifies mem, table
    ensures fresh(places) && places.Length == UnrollCount
    ensures c' == FindRows(fn, c, key, i, i + UnrollCount, bases', offset) && c'.used == |bases'| && c'.aboveLive == c.aboveLive
    ensures bases <= bases'
    ensures AtCursor(mem, table, c', log0) && TableLive(c'.t, c'.st, offset)
    ensures PlacesFound(places[..], UnrollCount, c'.t, key, i)
  {
    places := new Ptr[UnrollCount](_ => Null);
    c', bases' := c, bases;
    var r := i;
    while r < i + UnrollCount
      invariant i <= r <= i + UnrollCount && c'.used == |bases'| && c'.aboveLive == c.aboveLive
      invariant c' == FindRows(fn, c, key, i, r, bases', offset)
      invariant bases <= bases'
      invariant AtCursor(mem, table, c', log0) && TableLive(c'.t, c'.st, offset)
      invariant PlacesFound(places[..], r - i, c'.t, key, i)
    {
      var next := r + 1;
      c', bases' := FindNext(fn, mem, table, places, offset, key, i, r, next, c, c', bases, bases', log0);
      r := next;
    }
  }

  /** One round of the first loop of an unrolled block: the entry of row
      `r`'s key, initialized first when it is null, is the place of lane `r - i`. */
  method FindNext<S, V, R>(fn: AggregateFunction<S, V, R>, mem: Memory<S, V>, table: array<Ptr>, places: array<Ptr>, offset: nat,
                           key: seq<UInt8>, i: nat, r: nat, next: nat, ghost c: Cursor<S, V>, ghost c1: Cursor<S, V>,
                           ghost bases: seq<nat>, ghost bases1: seq<nat>, ghost log0: seq<Event<S, V>>)
    returns (ghost c2: Cursor<S, V>, ghost bases2: seq<nat>)
    requires table.Length == KeyCount && places.Length == UnrollCount && places != table && |c.t| == KeyCount
    requires i <= r < i + UnrollCount && next == r + 1 && i + UnrollCount <= |key|
    requires c1 == FindRows(fn, c, key, i, r, bases1, offset) && c1.used == |bases1| && c1.aboveLive == c.aboveLive && bases <= bases1
    requires AtCursor(mem, table, c1, log0) && TableLive(c1.t, c1.st, offset)
    requires PlacesFound(places[..], r - i, c1.t, key, i)
    modifies mem, table, places
    ensures c2 == FindRows(fn, c, key, i, next, bases2, offset) && c2.used == |bases2| && c2.aboveLive == c.aboveLive && bases <= bases2
    ensures AtCursor(mem, table, c2, log0) && TableLive(c2.t, c2.st, offset)
    ensures PlacesFound(places[..], next - i, c2.t, key, i)
  {
    var place;
    place, c2, bases2 := FindOrInit(fn, mem, table, offset, key[r] as nat, c1, bases1, log0);
    FindRowsStable(fn, c, key, i, r, bases1, bases2, offset);
    FindRowsNext(fn, c, key, i, r, next, bases2, offset);
    FindRowKeeps(fn, c1, key[r] as nat, bases2, offset);
    PlacesFoundMore(places[..], r - i, c1.t, c2.t, key, i, place);
    places[r - i] := place;
  }

  /** The second loop of an unrolled block: rows `[i, i + 8)` are added to
      the places found for them. */
  method AddBlock<S, V, R>(fn: AggregateFunction<S, V, R>, mem: Memory<S, V>, places: array<Ptr>, offset: nat,
                           key: seq<UInt8>, col: seq<V>, i: nat, ghost c: Cursor<S, V>, ghost log0: seq<Event<S, V>>)
    returns (ghost c': Cursor<S, V>)
    requires |c.t| == KeyCount && i + UnrollCount <= |key| && i + UnrollCount <= |col| && TableLive(c.t, c.st, offset)
    requires places.Length == UnrollCount && PlacesFound(places[..], UnrollCount, c.t, key, i)
    requires MemAtCursor(mem, c, log0)
    modifies mem
    ensures c' == AddRows(fn, c, key, col, i, i + UnrollCount, offset) && MemAtCursor(mem, c', log0)
  {
    c' := c;
    var r := i;
    while r < i + UnrollCount
      invariant i <= r <= i + UnrollCount
      invariant c' == AddRows(fn, c, key, col, i, r, offset) && MemAtCursor(mem, c', log0)
    {
      var place := places[r - i];
      assert place == places[..][r - i] && place.addr + offset in c'.st;
      c' := AddLookupRow(fn, mem, place, offset, key, col, r, c', log0);
      r := r + 1;
    }
  }

  /** addBatchLookupTable8 of the helper: each row of `[lo, hi)` is added to
      the place of the table entry of its one-byte key, shifted by `offset`;
      a null entry is initialized with a fresh block, holding an empty state
      at `offset`, the first time a row needs it. The rows go in blocks of
      eight while the row number is below the block count times eight, and
      one by one after that. The call is the run `Run` of its inputs and of
      the blocks `bases` the arena handed out, each above every live state;
      what that means is `LookupState`. */
  method AddBatchLookupTable8<S, V, R>(fn: AggregateFunction<S, V, R>, mem: Memory<S, V>, lo: nat, hi: nat,
                                       table: array<Ptr>, offset: nat, key: seq<UInt8>, col: seq<V>)
    returns (ghost bases: seq<nat>)
    requires table.Length == KeyCount && lo <= hi <= |key| && hi <= |col|
    requires TableLive(table[..], mem.states, offset) && Injective(table[..])
    modifies mem, table
    ensures var run := Run(fn, Cursor(old(table[..]), old(mem.states), [], 0, true), key, col, lo, hi, bases, offset);
            table[..] == run.t && mem.states == run.st && mem.log == old(mem.log) + run.es && run.aboveLive
    ensures var run := Run(fn, Cursor(old(table[..]), old(mem.states), [], 0, true), key, col, lo, hi, bases, offset);
            LookupState(fn, run, old(table[..]), old(mem.states), offset, key, col, lo, hi, hi)
  {
    ghost var log0 := mem.log;
    ghost var c0: Cursor<S, V> := Cursor(table[..], mem.states, [], 0, true);
    var e, cE, b1 := LookupBlocks(fn, mem, lo, hi, table, offset, key, col, c0, log0);
    var c, b2 := LookupTail(fn, mem, e, hi, table, offset, key, col, cE, b1, log0);
    BlocksStable(fn, c0, key, col, lo, e, b1, b2, offset);
    bases := b2;
    RunMeaning(fn, c0.t, c0.st, offset, key, col, lo, hi, bases, c);
  }

  /** The unrolled loop of addBatchLookupTable8: blocks of eight rows from
      `lo` while the row number is below the block count times eight. */
  method LookupBlocks<S, V, R>(fn: AggregateFunction<S, V, R>, mem: Memory<S, V>, lo: nat, hi: nat,
                               table: array<Ptr>, offset: nat, key: seq<UInt8>, col: seq<V>, ghost c0: Cursor<S, V>, ghost log0: seq<Event<S, V>>)
    returns (e: nat, ghost c: Cursor<S, V>, ghost bases: seq<nat>)
    requires table.Length == KeyCount && lo <= hi <= |key| && hi <= |col|
    requires c0 == Cursor(table[..], mem.states, [], 0, true) && log0 == mem.log && TableLive(c0.t, c0.st, offset)
    modifies mem, table
    ensures e == BlocksEnd(lo, hi) && c == Blocks(fn, c0, key, col, lo, e, bases, offset) && c.used == |bases| && c.aboveLive
    ensures AtCursor(mem, table, c, log0) && TableLive(c.t, c.st, offset)
  {
    c := c0;
    bases := [];
    e := lo;
    var sizeUnrolled := (hi - lo) / UnrollCount * UnrollCount;
    while e < sizeUnrolled
      invariant lo <= e <= hi && Aligned(lo, e)
      invariant e == lo || e - UnrollCount < sizeUnrolled
      invariant c == Blocks(fn, c0, key, col, lo, e, bases, offset) && c.used == |bases| && c.aboveLive
      invariant AtCursor(mem, table, c, log0) && TableLive(c.t, c.st, offset)
    {
      UnrolledInRange(lo, hi, UnrollCount, e);
      e, c, bases := NextBlock(fn, mem, table, offset, key, col, lo, e, c0, c, bases, log0);
    }
    UnrolledEndAt(lo, sizeUnrolled, UnrollCount, e);
  }

  /** The unrolled blocks up to row `e` followed by one more. */
  method NextBlock<S, V, R>(fn: AggregateFunction<S, V, R>, mem: Memory<S, V>, table: array<Ptr>, offset: nat,
                            key: seq<UInt8>, col: seq<V>, lo: nat, e: nat, ghost c0: Cursor<S, V>,
                            ghost c: Cursor<S, V>, ghost bases: seq<nat>, ghost log0: seq<Event<S, V>>)
    returns (next: nat, ghost c': Cursor<S, V>, ghost bases': seq<nat>)
    requires table.Length == KeyCount && |c0.t| == KeyCount && lo <= e && e + UnrollCount <= |key| && e + UnrollCount <= |col|
    requires Aligned(lo, e) && c == Blocks(fn, c0, key, col, lo, e, bases, offset) && c.used == |bases|
    requires AtCursor(mem, table, c, log0) && TableLive(c.t, c.st, offset)
    modifies mem, table
    ensures next == e + UnrollCount && Aligned(lo, next)
    ensures c' == Blocks(fn, c0, key, col, lo, next, bases', offset) && c'.used == |bases'| && c'.aboveLive == c.aboveLive
    ensures AtCursor(mem, table, c', log0) && TableLive(c'.t, c'.st, offset)
  {
    next := e + UnrollCount;
    NextBlockAligned(lo, e, UnrollCount, next);
    c', bases' := LookupBlock(fn, mem, table, offset, key, col, e, c, bases, log0);
    BlocksStable(fn, c0, key, col, lo, e, bases, bases', offset);
  }

  /** One unrolled block from row `i`: the eight entries, then the eight adds. */
  method LookupBlock<S, V, R>(fn: AggregateFunction<S, V, R>, mem: Memory<S, V>, table: array<Ptr>, offset: nat,
                              key: seq<UInt8>, col: seq<V>, i: nat, ghost c: Cursor<S, V>, ghost bases: seq<nat>, ghost log0: seq<Event<S, V>>)
    returns (ghost c': Cursor<S, V>, ghost bases': seq<nat>)
    requires table.Length == KeyCount && i + UnrollCount <= |key| && i + UnrollCount <= |col| && c.used == |bases|
    requires AtCursor(mem, table, c, log0) && TableLive(c.t, c.st, offset)
    modifies mem, table
    ensures c' == Block(fn, c, key, col, i, i + UnrollCount, bases', offset) && c'.used == |bases'| && c'.aboveLive == c.aboveLive
    ensures bases <= bases'
    ensures AtCursor(mem, table, c', log0) && TableLive(c'.t, c'.st, offset)
  {
    var places;
    ghost var c1;
    places, c1, bases' := FindBlock(fn, mem, table, offset, key, i, c, bases, log0);
    c' := AddBlock(fn, mem, places, offset, key, col, i, c1, log0);
    TableLiveSameKeys(c1.t, c1.st, c'.st, offset);
  }

  /** The remaining rows `[e, hi)` of addBatchLookupTable8, one at a time. */
  method LookupTail<S, V, R>(fn: AggregateFunction<S, V, R>, mem: Memory<S, V>, e: nat, hi: nat,
                             table: array<Ptr>, offset: nat, key: seq<UInt8>, col: seq<V>,
                             ghost cE: Cursor<S, V>, ghost bases: seq<nat>, ghost log0: seq<Event<S, V>>)
    returns (ghost c: Cursor<S, V>, ghost bases': seq<nat>)
    requires table.Length == KeyCount && e <= hi <= |key| && hi <= |col| && cE.used == |bases| && cE.aboveLive
    requires AtCursor(mem, table, cE, log0) && TableLive(cE.t, cE.st, offset)
    modifies mem, table
    ensures c == Tail(fn, cE, key, col, e, hi, bases', offset) && c.used == |bases'| && c.aboveLive && bases <= bases'
    ensures AtCursor(mem, table, c, log0)
  {
    c, bases' := cE, bases;
    var i := e;
    while i < hi
      invariant e <= i <= hi && c.used == |bases'| && c.aboveLive && bases <= bases'
      invariant c == Tail(fn, cE, key, col, e, i, bases', offset)
      invariant AtCursor(mem, table, c, log0) && TableLive(c.t, c.st, offset)
    {
      var place, c1, b1 := FindOrInit(fn, mem, table, offset, key[i] as nat, c, bases', log0);
      var c2 := AddLookupRow(fn, mem, place, offset, key, col, i, c1, log0);
      TailStable(fn, cE, key, col, e, i, bases', b1, offset);
      TableLiveSameKeys(c1.t, c1.st, c2.st, offset);
      c, bases' := c2, b1;
      i := i + 1;
    }
  }
}
