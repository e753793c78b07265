/** Sparse argument columns, and what the sparse batch entry points do with them.

    A sparse column of `n` rows stores only its non-default rows: `offsets`
    holds their row numbers, strictly increasing, and `values[k + 1]` is the
    value of row `offsets[k]`; `values[0]` is the default that every other
    row holds. */
module SparseSpec {
  import opened Contract
  import opened StateMemory
  import opened BatchSpec

  /** The shape of a well-formed sparse column of `n` rows. */
  predicate ValidSparse<V>(offsets: seq<nat>, values: seq<V>, n: nat)
  {
    && |values| == |offsets| + 1
    && (forall i, j :: 0 <= i < j < |offsets| ==> offsets[i] < offsets[j])
    && (forall i :: 0 <= i < |offsets| ==> offsets[i] < n)
  }

  /** The position of the first occurrence of `x` in `s` at or after `i`. */
  function IndexOf(s: seq<nat>, x: nat, i: nat): (k: nat)
    requires i <= |s| && x in s[i..]
    ensures i <= k < |s| && s[k] == x
    ensures forall j :: i <= j < k ==> s[j] != x
    decreases |s| - i
  {
    assert s[i..][0] == s[i];
    if s[i] == x then i else
      assert s[i + 1..] == s[i..][1..];
      IndexOf(s, x, i + 1)
  }

  /** The column materialized densely: row `r` holds its stored value, or the default. */
  function Densify<V>(offsets: seq<nat>, values: seq<V>, n: nat): (d: seq<V>)
    requires ValidSparse(offsets, values, n)
    ensures |d| == n
  {
    seq(n, r requires 0 <= r < n => if r in offsets then values[IndexOf(offsets, r, 0) + 1] else values[0])
  }

  /** std::lower_bound from position `i`: the first position of `s` at or
      after `i` holding a value not below `x`. */
  function LowerBoundFrom(s: seq<nat>, x: nat, i: nat): (k: nat)
    requires i <= |s|
    ensures i <= k <= |s|
    ensures forall j :: i <= j < k ==> s[j] < x
    ensures k < |s| ==> s[k] >= x
    decreases |s| - i
  {
    if i == |s| || s[i] >= x then i else LowerBoundFrom(s, x, i + 1)
  }

  /** std::lower_bound: the first position of `s` holding a value not below `x`. */
  function LowerBound(s: seq<nat>, x: nat): (k: nat)
    ensures k <= |s|
    ensures forall j :: 0 <= j < k ==> s[j] < x
    ensures k < |s| ==> s[k] >= x
  {
    LowerBoundFrom(s, x, 0)
  }

  /** Where the sparse column's iterator stands at row `r`: the index into
      `values` of row `r`'s value (0, the default, for a row not stored). */
  function ValueIndex(offsets: seq<nat>, r: nat): nat
  {
    var k := LowerBound(offsets, r);
    if k < |offsets| && offsets[k] == r then k + 1 else 0
  }

  /** lower_bound is the only position with everything before it below `x`
      and, unless it is the end, a value not below `x` at it. */
  lemma LowerBoundUnique(s: seq<nat>, x: nat, k: nat)
    requires k <= |s|
    requires forall j :: 0 <= j < k ==> s[j] < x
    requires k < |s| ==> s[k] >= x
    ensures LowerBound(s, x) == k
  {
  }

  /** The iterator reads exactly the dense value of every row. */
  lemma ValueIndexReadsDense<V>(offsets: seq<nat>, values: seq<V>, n: nat, r: nat)
    requires ValidSparse(offsets, values, n) && r < n
    ensures ValueIndex(offsets, r) < |values|
    ensures values[ValueIndex(offsets, r)] == Densify(offsets, values, n)[r]
  {
    if r in offsets {
      var i := IndexOf(offsets, r, 0);
      LowerBoundUnique(offsets, r, i);
    } else {
      var k := LowerBound(offsets, r);
      assert !(k < |offsets| && offsets[k] == r);
    }
  }

  /** One step of the column's iterator from row `i`, where it stands at
      position `k` = lower_bound: the value index it reads, and where it
      stands at the next row. */
  lemma IteratorAdvance<V>(offsets: seq<nat>, values: seq<V>, n: nat, k: nat, i: nat, next: nat)
    requires ValidSparse(offsets, values, n) && k == LowerBound(offsets, i) && next == i + 1
    ensures ValueIndex(offsets, i) == if k < |offsets| && offsets[k] == i then k + 1 else 0
    ensures LowerBound(offsets, next) == if k < |offsets| && offsets[k] == i then k + 1 else k
  {
    LowerBoundNext(offsets, values, n, i);
  }

  /** Advancing one row moves lower_bound past that row exactly when the row is stored. */
  lemma LowerBoundNext<V>(offsets: seq<nat>, values: seq<V>, n: nat, x: nat)
    requires ValidSparse(offsets, values, n)
    ensures LowerBound(offsets, x + 1) == LowerBound(offsets, x) + (if ValueIndex(offsets, x) == 0 then 0 else 1)
  {
    var k := LowerBound(offsets, x);
    if k < |offsets| && offsets[k] == x {
      if k + 1 < |offsets| {
        assert offsets[k] < offsets[k + 1];
      }
      LowerBoundUnique(offsets, x + 1, k + 1);
    } else {
      LowerBoundUnique(offsets, x + 1, k);
    }
  }

  // ---------------------------------------------------------------------------------------------
  // addBatchSparse

  /** lower_bound of each of the rows `[0, n)`. */
  function LowerBounds(offsets: seq<nat>, n: nat): (lbs: seq<nat>)
    ensures |lbs| == n
    ensures forall r :: 0 <= r < n ==> lbs[r] == LowerBound(offsets, r)
  {
    if n == 0 then [] else LowerBounds(offsets, n - 1) + [LowerBound(offsets, n - 1)]
  }

  /** The value index the iterator reads at each of the `n` rows. */
  function ValueIndices(offsets: seq<nat>, n: nat): (vis: seq<nat>)
    ensures |vis| == n
    ensures forall r :: 0 <= r < n ==> vis[r] == ValueIndex(offsets, r) && vis[r] <= |offsets|
  {
    seq(n, r requires 0 <= r < n => ValueIndex(offsets, r))
  }

  /** The add of addBatchSparse at row `r`, routed to the row's place
      `tgt[r]`: the value the iterator reads there, passing its value index
      as the row number. */
  function SparseRowAdd<S, V>(tgt: seq<Option<nat>>, offsets: seq<nat>, values: seq<V>, r: nat): seq<Event<S, V>>
    requires r < |tgt| && |values| == |offsets| + 1
  {
    var vi := ValueIndex(offsets, r);
    if tgt[r].Some? then [Added(tgt[r].value, vi, values[vi])] else []
  }

  /** The adds of addBatchSparse over rows `[lo, hi)`, in row order. */
  function SparseAdds<S, V>(tgt: seq<Option<nat>>, offsets: seq<nat>, values: seq<V>, lo: nat, hi: nat): seq<Event<S, V>>
    requires hi <= |tgt| && |values| == |offsets| + 1
    decreases hi
  {
    if hi <= lo then [] else SparseAdds(tgt, offsets, values, lo, hi - 1) + SparseRowAdd(tgt, offsets, values, hi - 1)
  }

  /** One row more of addBatchSparse's adds. */
  lemma SparseAddsNext<S, V>(tgt: seq<Option<nat>>, offsets: seq<nat>, values: seq<V>, lo: nat, r: nat, next: nat)
    requires lo <= r && next == r + 1 && next <= |tgt| && |values| == |offsets| + 1
    ensures SparseAdds<S, V>(tgt, offsets, values, lo, next) == SparseAdds<S, V>(tgt, offsets, values, lo, r) + SparseRowAdd(tgt, offsets, values, r)
  {
  }

  /** One more row: the run of values routed to its place grows by the value read. */
  lemma ReplayRoutedStep<S, V, R>(fn: AggregateFunction<S, V, R>, m: map<nat, S>, es: seq<Event<S, V>>,
                                  tgt: seq<Option<nat>>, d: seq<V>, lo: nat, r: nat, next: nat, vi: nat)
    requires lo <= r && next == r + 1 && next <= |tgt| && next <= |d|
    requires Replay(fn, m, es).Keys == m.Keys
    requires forall a :: a in m ==> Replay(fn, m, es)[a] == Fold(fn.add, m[a], RoutedValues(tgt, d, a, lo, r))
    ensures Replay(fn, m, es + if tgt[r].Some? then [Added(tgt[r].value, vi, d[r])] else []).Keys == m.Keys
    ensures forall a :: a in m ==>
      Replay(fn, m, es + if tgt[r].Some? then [Added(tgt[r].value, vi, d[r])] else [])[a]
        == Fold(fn.add, m[a], RoutedValues(tgt, d, a, lo, next))
  {
    if tgt[r].Some? {
      ReplaySnoc(fn, m, es, Added(tgt[r].value, vi, d[r]));
    } else {
      assert es + [] == es;
    }
    forall a | a in m
      ensures Replay(fn, m, es + if tgt[r].Some? then [Added(tgt[r].value, vi, d[r])] else [])[a]
           == Fold(fn.add, m[a], RoutedValues(tgt, d, a, lo, next))
    {
      RoutedValuesNext(tgt, d, a, lo, r, next);
      FoldSnocIf(fn.add, m[a], RoutedValues(tgt, d, a, lo, r), tgt[r] == Some(a), d[r]);
    }
  }

  /** addBatchSparse has the effect addBatch has over any dense column `d`
      holding, at every row of the range, the value the iterator reads there:
      the same places stay live, and each holds its old state with the values
      routed to it added, in row order. */
  lemma {:induction false} ReplaySparseAdds<S, V, R>(fn: AggregateFunction<S, V, R>, m: map<nat, S>, tgt: seq<Option<nat>>,
                                                     offsets: seq<nat>, values: seq<V>, d: seq<V>, lo: nat, hi: nat)
    requires hi <= |d| && hi <= |tgt| && |values| == |offsets| + 1
    requires forall r :: lo <= r < hi ==> values[ValueIndex(offsets, r)] == d[r]
    ensures Replay(fn, m, SparseAdds<S, V>(tgt, offsets, values, lo, hi)).Keys == m.Keys
    ensures forall a :: a in m ==>
      Replay(fn, m, SparseAdds<S, V>(tgt, offsets, values, lo, hi))[a] == Fold(fn.add, m[a], RoutedValues(tgt, d, a, lo, hi))
    decreases hi
  {
    if hi > lo {
      var r := hi - 1;
      ReplaySparseAdds(fn, m, tgt, offsets, values, d, lo, r);
      SparseAddsNext<S, V>(tgt, offsets, values, lo, r, hi);
      ReplayRoutedStep(fn, m, SparseAdds<S, V>(tgt, offsets, values, lo, r), tgt, d, lo, r, hi, ValueIndex(offsets, r));
    }
  }

  /** Sparse equivalence: addBatchSparse leaves every state as addBatch over
      the densely materialized column would. */
  lemma SparseAddsAsDense<S, V, R>(fn: AggregateFunction<S, V, R>, m: map<nat, S>, places: seq<Ptr>, offset: nat,
                                   offsets: seq<nat>, values: seq<V>, n: nat, lo: nat, hi: nat)
    requires ValidSparse(offsets, values, n) && hi <= n && hi <= |places|
    ensures Replay(fn, m, SparseAdds<S, V>(BatchTargets(places, offset, None), offsets, values, lo, hi)).Keys == m.Keys
    ensures forall a :: a in m ==>
      && a in Replay(fn, m, RowAdds<S, V>(BatchTargets(places, offset, None), Densify(offsets, values, n), lo, hi))
      && Replay(fn, m, SparseAdds<S, V>(BatchTargets(places, offset, None), offsets, values, lo, hi))[a]
        == Replay(fn, m, RowAdds<S, V>(BatchTargets(places, offset, None), Densify(offsets, values, n), lo, hi))[a]
  {
    var d, tgt := Densify(offsets, values, n), BatchTargets(places, offset, None);
    forall r | lo <= r < hi
      ensures values[ValueIndex(offsets, r)] == d[r]
    {
      ValueIndexReadsDense(offsets, values, n, r);
    }
    ReplaySparseAdds(fn, m, tgt, offsets, values, d, lo, hi);
    ReplayRowAdds(fn, m, tgt, d, lo, hi);
  }

  // ---------------------------------------------------------------------------------------------
  // addManyDefaults and addBatchSparseSinglePlace

  /** addManyDefaults: `length` adds of row 0 to one place. */
  function DefaultAdds<S, V>(place: nat, col: seq<V>, length: nat): (es: seq<Event<S, V>>)
    requires 0 < |col|
    ensures |es| == length
    ensures forall k :: 0 <= k < length ==> es[k] == Added(place, 0, col[0])
  {
    seq(length, _ => Added(place, 0, col[0]))
  }

  /** `length` copies of `x`. */
  function Copies<V>(x: V, length: nat): (xs: seq<V>)
    ensures |xs| == length
    ensures forall k :: 0 <= k < length ==> xs[k] == x
  {
    seq(length, _ => x)
  }

  /** The value indices `from` and `to` of the run of stored rows in `[lo, hi)`. */
  function SparseRun(offsets: seq<nat>, lo: nat, hi: nat): (run: (nat, nat))
  {
    (LowerBound(offsets, lo) + 1, LowerBound(offsets, hi) + 1)
  }

  /** Between two rows, lower_bound moves by at most the number of rows and
      by exactly the number of stored rows. */
  lemma {:induction false} SparseRunCount<V>(offsets: seq<nat>, values: seq<V>, n: nat, lo: nat, hi: nat)
    requires ValidSparse(offsets, values, n) && lo <= hi
    ensures LowerBound(offsets, lo) <= LowerBound(offsets, hi) <= LowerBound(offsets, lo) + (hi - lo)
    decreases hi
  {
    if hi > lo {
      SparseRunCount(offsets, values, n, lo, hi - 1);
      LowerBoundNext(offsets, values, n, hi - 1);
    }
  }

  /** The number of implicit-default rows in `[lo, hi)`. */
  function NumDefaults<V>(offsets: seq<nat>, values: seq<V>, n: nat, lo: nat, hi: nat): (d: nat)
    requires ValidSparse(offsets, values, n) && lo <= hi
  {
    SparseRunCount(offsets, values, n, lo, hi);
    (hi - lo) - (LowerBound(offsets, hi) - LowerBound(offsets, lo))
  }

  /** The adds of addBatchSparseSinglePlace: the stored values of the range
      through addBatchSinglePlace over the values column, then the defaults. */
  function SparseSinglePlaceAdds<S, V>(place: nat, offsets: seq<nat>, values: seq<V>, n: nat, lo: nat, hi: nat): seq<Event<S, V>>
    requires ValidSparse(offsets, values, n) && lo <= hi
  {
    var (from, to) := SparseRun(offsets, lo, hi);
    SparseRunCount(offsets, values, n, lo, hi);
    RowAdds(SinglePlaceTargets(place, |values|, None), values, from, to)
      + DefaultAdds(place, values, NumDefaults(offsets, values, n, lo, hi))
  }

  /** The iterator's walk over rows `lo + i`, `i < |vis|`, in the abstract:
      `lbs[i]` is lower_bound at the row, `vis[i]` the value index read
      there and `dense[i]` the value read. A stored row reads the value after
      lower_bound and moves it by one; a default row reads index 0. */
  ghost predicate IteratorWalk<V>(values: seq<V>, lbs: seq<nat>, vis: seq<nat>, dense: seq<V>)
  {
    && |lbs| == |vis| + 1 && |dense| == |vis|
    && (forall i :: 0 <= i < |lbs| ==> lbs[i] < |values|)
    && (forall i :: 0 <= i < |vis| ==> vis[i] < |values| && dense[i] == values[vis[i]])
    && (forall i :: 0 <= i < |vis| ==> vis[i] == 0 ==> lbs[i + 1] == lbs[i])
    && (forall i :: 0 <= i < |vis| ==> vis[i] != 0 ==> vis[i] == lbs[i] + 1 && lbs[i + 1] == lbs[i] + 1)
  }

  /** Along the walk, the stored values passed and the defaults read make up
      the values read, as a multiset. */
  lemma {:induction false} WalkMultiset<V>(values: seq<V>, lbs: seq<nat>, vis: seq<nat>, dense: seq<V>, k: nat)
    requires IteratorWalk(values, lbs, vis, dense) && k <= |vis|
    ensures lbs[0] <= lbs[k] <= lbs[0] + k && lbs[k] < |values|
    ensures multiset(values[lbs[0] + 1..lbs[k] + 1]) + multiset(Copies(values[0], k - (lbs[k] - lbs[0]))) == multiset(dense[..k])
    decreases k
  {
    if k == 0 {
      assert values[lbs[0] + 1..lbs[0] + 1] == [];
    } else {
      WalkMultiset(values, lbs, vis, dense, k - 1);
      assert dense[..k] == dense[..k - 1] + [dense[k - 1]];
      RunMultisetStep(values, lbs[0], lbs[k - 1], lbs[k], (k - 1) - (lbs[k - 1] - lbs[0]), k - (lbs[k] - lbs[0]),
                      dense[..k - 1], dense[k - 1], vis[k - 1]);
    }
  }

  /** One more row: a stored row extends the run of stored values, a default row adds one more default. */
  lemma RunMultisetStep<V>(values: seq<V>, a: nat, b: nat, b': nat, nd: nat, nd': nat, dense: seq<V>, x: V, vi: nat)
    requires a <= b <= b' && b' < |values|
    requires multiset(values[a + 1..b + 1]) + multiset(Copies(values[0], nd)) == multiset(dense)
    requires vi == 0 ==> b' == b && nd' == nd + 1 && x == values[0]
    requires vi != 0 ==> b' == b + 1 && nd' == nd && x == values[b + 1]
    ensures multiset(values[a + 1..b' + 1]) + multiset(Copies(values[0], nd')) == multiset(dense + [x])
  {
    if vi == 0 {
      assert Copies(values[0], nd') == Copies(values[0], nd) + [values[0]];
    } else {
      assert values[a + 1..b' + 1] == values[a + 1..b + 1] + [values[b + 1]];
    }
  }

  /** The iterator's walk over rows `[lo, hi)` of a well-formed sparse
      column, reading the values of the column `dense`. */
  lemma SparseWalk<V>(offsets: seq<nat>, values: seq<V>, n: nat, dense: seq<V>, lo: nat, hi: nat)
    requires ValidSparse(offsets, values, n) && lo <= hi <= n && hi <= |dense|
    requires forall r :: lo <= r < hi ==> dense[r] == values[ValueIndex(offsets, r)]
    ensures IteratorWalk(values, LowerBounds(offsets, hi + 1)[lo..], ValueIndices(offsets, hi)[lo..], dense[lo..hi])
  {
    var lbs, vis := LowerBounds(offsets, hi + 1)[lo..], ValueIndices(offsets, hi)[lo..];
    forall i | 0 <= i < hi - lo
      ensures vis[i] == 0 ==> lbs[i + 1] == lbs[i]
      ensures vis[i] != 0 ==> vis[i] == lbs[i] + 1 && lbs[i + 1] == lbs[i] + 1
    {
      LowerBoundNext(offsets, values, n, lo + i);
    }
  }

  /** The values added by addBatchSparseSinglePlace are, as a multiset, the
      values of the dense rows `[lo, hi)`. */
  lemma SparseRunMultiset<V>(offsets: seq<nat>, values: seq<V>, n: nat, lo: nat, hi: nat)
    requires ValidSparse(offsets, values, n) && lo <= hi <= n
    ensures LowerBound(offsets, lo) <= LowerBound(offsets, hi) <= LowerBound(offsets, lo) + (hi - lo)
    ensures multiset(values[LowerBound(offsets, lo) + 1..LowerBound(offsets, hi) + 1])
            + multiset(Copies(values[0], NumDefaults(offsets, values, n, lo, hi)))
         == multiset(Densify(offsets, values, n)[lo..hi])
  {
    var d := Densify(offsets, values, n);
    forall r | lo <= r < hi
      ensures d[r] == values[ValueIndex(offsets, r)]
    {
      ValueIndexReadsDense(offsets, values, n, r);
    }
    SparseWalk(offsets, values, n, d, lo, hi);
    var lbs, vis := LowerBounds(offsets, hi + 1)[lo..], ValueIndices(offsets, hi)[lo..];
    SparseRunCount(offsets, values, n, lo, hi);
    WalkWhole(values, lbs, vis, d[lo..hi], LowerBound(offsets, lo), LowerBound(offsets, hi), NumDefaults(offsets, values, n, lo, hi));
  }

  /** The whole walk: its stored values and its defaults make up all the values read. */
  lemma WalkWhole<V>(values: seq<V>, lbs: seq<nat>, vis: seq<nat>, dense: seq<V>, first: nat, last: nat, defaults: nat)
    requires IteratorWalk(values, lbs, vis, dense) && lbs[0] == first && lbs[|vis|] == last
    requires defaults + last - first == |vis|
    ensures first <= last < |values|
    ensures multiset(values[first + 1..last + 1]) + multiset(Copies(values[0], defaults)) == multiset(dense)
  {
    WalkMultiset(values, lbs, vis, dense, |vis|);
    assert dense[..|vis|] == dense;
  }

  /** The adds of addBatchSparseSinglePlace are those of its two calls, one
      after the other: the stored values `[from, to)`, then `d` defaults. */
  lemma SparseSinglePlaceParts<S, V, R>(fn: AggregateFunction<S, V, R>, m: map<nat, S>, place: nat,
                                        offsets: seq<nat>, values: seq<V>, n: nat, lo: nat, hi: nat,
                                        from: nat, to: nat, d: nat, present: seq<Event<S, V>>, defaults: seq<Event<S, V>>)
    requires ValidSparse(offsets, values, n) && lo <= hi
    requires from == LowerBound(offsets, lo) + 1 && to == LowerBound(offsets, hi) + 1 && from <= to && d == (hi - lo) - (to - from)
    requires present == RowAdds(SinglePlaceTargets(place, |values|, None), values, from, to)
    requires defaults == DefaultAdds(place, values, d)
    ensures SparseSinglePlaceAdds<S, V>(place, offsets, values, n, lo, hi) == present + defaults
    ensures Replay(fn, m, present).Keys == m.Keys
    ensures Replay(fn, m, present + defaults) == Replay(fn, Replay(fn, m, present), defaults)
  {
    SparseRunCount(offsets, values, n, lo, hi);
    ReplayRowAdds(fn, m, SinglePlaceTargets(place, |values|, None), values, from, to);
    ReplayAppend(fn, m, present, defaults);
  }

  /** addBatchSparseSinglePlace performs exactly one add per row of the range. */
  lemma SparseSinglePlaceAddCount<S, V>(place: nat, offsets: seq<nat>, values: seq<V>, n: nat, lo: nat, hi: nat)
    requires ValidSparse(offsets, values, n) && lo <= hi
    ensures |SparseSinglePlaceAdds<S, V>(place, offsets, values, n, lo, hi)| == hi - lo
  {
    SparseRunCount(offsets, values, n, lo, hi);
    SinglePlaceAddCount<S, V>(place, |values|, values, LowerBound(offsets, lo) + 1, LowerBound(offsets, hi) + 1);
  }

  /** Sparse equivalence for one place: with an accumulator whose adds
      commute, addBatchSparseSinglePlace leaves the place in the state that
      adding the dense rows `[lo, hi)` in order would. */
  lemma SparseSinglePlaceAsDense<S(!new), V(!new), R>(fn: AggregateFunction<S, V, R>, m: map<nat, S>, place: nat,
                                                      offsets: seq<nat>, values: seq<V>, n: nat, lo: nat, hi: nat)
    requires ValidSparse(offsets, values, n) && lo <= hi <= n
    requires AddCommutes(fn) && place in m
    ensures Replay(fn, m, SparseSinglePlaceAdds<S, V>(place, offsets, values, n, lo, hi)).Keys == m.Keys
    ensures Replay(fn, m, SparseSinglePlaceAdds<S, V>(place, offsets, values, n, lo, hi))[place]
         == Fold(fn.add, m[place], Densify(offsets, values, n)[lo..hi])
  {
    SparseRunCount(offsets, values, n, lo, hi);
    var from, to := LowerBound(offsets, lo) + 1, LowerBound(offsets, hi) + 1;
    var nd := NumDefaults(offsets, values, n, lo, hi);
    var tgt := SinglePlaceTargets(place, |values|, None);
    var present := RowAdds<S, V>(tgt, values, from, to);
    var defaults := DefaultAdds<S, V>(place, values, nd);
    ReplayAppend(fn, m, present, defaults);
    ReplayRowAdds(fn, m, tgt, values, from, to);
    SinglePlaceRoutesAll(place, |values|, values, from, to);
    var mid := Replay(fn, m, present);
    ReplayDefaults(fn, mid, place, values, nd);
    FoldAppend(fn.add, m[place], values[from..to], Copies(values[0], nd));
    SparseRunMultiset(offsets, values, n, lo, hi);
    FoldPermutation(fn, m[place], values[from..to] + Copies(values[0], nd), Densify(offsets, values, n)[lo..hi]);
  }

  /** addManyDefaults adds the default `length` times to the one place. */
  lemma {:induction false} ReplayDefaults<S, V, R>(fn: AggregateFunction<S, V, R>, m: map<nat, S>, place: nat, col: seq<V>, length: nat)
    requires place in m && 0 < |col|
    ensures Replay(fn, m, DefaultAdds<S, V>(place, col, length)).Keys == m.Keys
    ensures Replay(fn, m, DefaultAdds<S, V>(place, col, length))[place] == Fold(fn.add, m[place], Copies(col[0], length))
    decreases length
  {
    if length > 0 {
      var prev := DefaultAdds<S, V>(place, col, length - 1);
      ReplayDefaults(fn, m, place, col, length - 1);
      assert DefaultAdds<S, V>(place, col, length) == prev + [Added(place, 0, col[0])];
      ReplaySnoc(fn, m, prev, Added(place, 0, col[0]));
      assert Copies(col[0], length)[..length - 1] == Copies(col[0], length - 1);
    }
  }
}
