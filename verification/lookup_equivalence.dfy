/** The two addBatchLookupTable8 paths compared. The generic path adds each
    key's rows to its state in row order; the fast path adds them lane by
    lane into scratch states, merges those, then adds the remaining rows.
    Both give each key the same multiset of values, so with an accumulator
    whose adds commute and whose merge of a state built from values is the
    same as adding those values, each key ends in the same state. */
module LookupEquivalence {
  import opened Contract
  import opened StateMemory
  import opened BatchSpec
  import opened LookupSpec
  import opened LookupRun
  import opened ScratchSpec
  import opened FastLookupState
  import opened FastLookupRun

  /** The values each key receives when the rows `[lo, hi)` are added in
      row order: those of its rows. */
  function RowVals<V>(key: seq<UInt8>, col: seq<V>, lo: nat, hi: nat): (vals: seq<seq<V>>)
    requires hi <= |key| && hi <= |col|
    ensures |vals| == KeyCount
  {
    seq(KeyCount, k requires 0 <= k < KeyCount => KeyValues(key, col, k, lo, hi))
  }

  /** The rows of a range are those of its two halves. */
  lemma {:induction false} KeyValuesSplit<V>(key: seq<UInt8>, col: seq<V>, k: nat, lo: nat, mid: nat, hi: nat)
    requires lo <= mid <= hi <= |key| && hi <= |col|
    ensures KeyValues(key, col, k, lo, hi) == KeyValues(key, col, k, lo, mid) + KeyValues(key, col, k, mid, hi)
    decreases hi
  {
    if hi == mid {
      assert KeyValues(key, col, k, mid, hi) == [];
    } else {
      KeyValuesSplit(key, col, k, lo, mid, hi - 1);
    }
  }

  /** A key that no row of the range has receives no values... */
  lemma {:induction false} KeyValuesAbsent<V>(key: seq<UInt8>, col: seq<V>, k: nat, lo: nat, hi: nat)
    requires hi <= |key| && hi <= |col|
    requires forall r :: lo <= r < hi ==> key[r] as nat != k
    ensures KeyValues(key, col, k, lo, hi) == []
    decreases hi
  {
    if lo < hi {
      KeyValuesAbsent(key, col, k, lo, hi - 1);
    }
  }

  /** ... and a key some row of the range has receives some. */
  lemma {:induction false} KeyValuesPresent<V>(key: seq<UInt8>, col: seq<V>, k: nat, lo: nat, hi: nat)
    requires hi <= |key| && hi <= |col| && k in KeySet(key, lo, hi)
    ensures KeyValues(key, col, k, lo, hi) != []
    decreases hi
  {
    if key[hi - 1] as nat != k {
      KeyValuesPresent(key, col, k, lo, hi - 1);
    }
  }

  /** Lanes `[0, j)` of `n` blocks hold the values of lanes `[0, j)` of
      the first `n - 1` blocks and those of rows `[b, b + j)` of block `n - 1`. */
  lemma {:induction false} LanesUpToStep<V>(key: seq<UInt8>, col: seq<V>, lo: nat, n: nat, m: nat, k: nat, j: nat, b: nat, e: nat)
    requires n == m + 1 && j <= LaneCount && lo + 4 * n <= |key| && lo + 4 * n <= |col| && b == BlockStart(lo, m) && e == b + j
    ensures multiset(LanesUpTo(key, col, lo, n, k, j))
            == multiset(LanesUpTo(key, col, lo, m, k, j)) + multiset(KeyValues(key, col, k, b, e))
    decreases j
  {
    if j > 0 {
      var p, r := j - 1, e - 1;
      LanesUpToStep(key, col, lo, n, m, k, p, b, r);
      var hit := if key[r] == k then [col[r]] else [];
      LaneValuesLast(key, col, lo, n, m, k, p, b, r);
      LanesUpToLast(key, col, lo, n, k, p, j);
      LanesUpToLast(key, col, lo, m, k, p, j);
      KeyValuesLast(key, col, k, b, r, e);
      MultisetRegroup(LanesUpTo(key, col, lo, n, k, p), LanesUpTo(key, col, lo, m, k, p), LaneValues(key, col, lo, n, p, k),
                      LaneValues(key, col, lo, m, p, k), KeyValues(key, col, k, b, r), KeyValues(key, col, k, b, e), hit);
    }
  }

  /** Lane `p` of `n` blocks is that lane of the first `m` blocks and the
      row `r` of lane `p` in block `m`, if its key is `k`. */
  lemma LaneValuesLast<V>(key: seq<UInt8>, col: seq<V>, lo: nat, n: nat, m: nat, k: nat, p: nat, b: nat, r: nat)
    requires n == m + 1 && p < LaneCount && lo + 4 * n <= |key| && lo + 4 * n <= |col| && b == BlockStart(lo, m) && r == b + p
    ensures LaneValues(key, col, lo, n, p, k) == LaneValues(key, col, lo, m, p, k) + (if key[r] == k then [col[r]] else [])
  {
  }

  lemma LanesUpToLast<V>(key: seq<UInt8>, col: seq<V>, lo: nat, n: nat, k: nat, p: nat, j: nat)
    requires j == p + 1 && j <= LaneCount && lo + 4 * n <= |key| && lo + 4 * n <= |col|
    ensures LanesUpTo(key, col, lo, n, k, j) == LanesUpTo(key, col, lo, n, k, p) + LaneValues(key, col, lo, n, p, k)
  {
  }

  lemma KeyValuesLast<V>(key: seq<UInt8>, col: seq<V>, k: nat, b: nat, r: nat, e: nat)
    requires e == r + 1 && b <= r && e <= |key| && e <= |col|
    ensures KeyValues(key, col, k, b, e) == KeyValues(key, col, k, b, r) + (if key[r] == k then [col[r]] else [])
  {
  }

  lemma MultisetJoin<V>(all: seq<V>, prev: seq<V>, front: seq<V>, block: seq<V>, rows: seq<V>)
    requires multiset(all) == multiset(prev) + multiset(block) && multiset(prev) == multiset(front) && rows == front + block
    ensures multiset(all) == multiset(rows)
  {
  }

  lemma MultisetRegroup<V>(a: seq<V>, a': seq<V>, ln: seq<V>, l: seq<V>, kv: seq<V>, kvE: seq<V>, hit: seq<V>)
    requires multiset(a) == multiset(a') + multiset(kv) && ln == l + hit && kvE == kv + hit
    ensures multiset(a + ln) == multiset(a' + l) + multiset(kvE)
  {
  }

  /** The lanes of the unrolled blocks, together, hold exactly the values
      of the blocks' rows with the key: the fast path neither loses nor
      duplicates a row, it only changes their order. */
  lemma {:induction false} AllLanesPermutation<V>(key: seq<UInt8>, col: seq<V>, lo: nat, n: nat, k: nat)
    requires lo + 4 * n <= |key| && lo + 4 * n <= |col|
    ensures multiset(AllLanes(key, col, lo, n, k)) == multiset(KeyValues(key, col, k, lo, BlockStart(lo, n)))
    decreases n
  {
    if n == 0 {
      assert LanesUpTo(key, col, lo, 0, k, 0) == [];
      assert LanesUpTo(key, col, lo, 0, k, 1) == [] + LaneValues(key, col, lo, 0, 0, k);
      assert LanesUpTo(key, col, lo, 0, k, 2) == [];
      assert LanesUpTo(key, col, lo, 0, k, 3) == [];
      assert LanesUpTo(key, col, lo, 0, k, 4) == [];
    } else {
      var m := n - 1;
      var b, e := BlockStart(lo, m), BlockStart(lo, n);
      assert b + LaneCount == e;
      var all, prev := AllLanes(key, col, lo, n, k), AllLanes(key, col, lo, m, k);
      var front, block := KeyValues(key, col, k, lo, b), KeyValues(key, col, k, b, e);
      AllLanesPermutation(key, col, lo, m, k);
      assert multiset(prev) == multiset(front);
      LanesUpToStep(key, col, lo, n, m, k, LaneCount, b, e);
      assert multiset(all) == multiset(prev) + multiset(block);
      KeyValuesSplit(key, col, k, lo, b, e);
      MultisetJoin(all, prev, front, block, KeyValues(key, col, k, lo, e));
    }
  }

  /** On the fast path each key receives exactly the values of its rows. */
  lemma FastValsPermutation<V>(key: seq<UInt8>, col: seq<V>, lo: nat, hi: nat, k: nat)
    requires lo <= hi <= |key| && hi <= |col| && k < KeyCount
    ensures multiset(FastVals(key, col, lo, hi)[k]) == multiset(KeyValues(key, col, k, lo, hi))
  {
    var n, e := FastBlocks(lo, hi), FastEnd(lo, hi);
    var merged := MergedVals(key, col, lo, n, KeyCount, 0);
    assert merged[k] == AllLanes(key, col, lo, n, k);
    assert FastVals(key, col, lo, hi)[k] == merged[k] + KeyValues(key, col, k, e, hi);
    AllLanesPermutation(key, col, lo, n, k);
    assert BlockStart(lo, n) == e;
    KeyValuesSplit(key, col, k, lo, e, hi);
    MultisetJoin(FastVals(key, col, lo, hi)[k], merged[k], KeyValues(key, col, k, lo, e), KeyValues(key, col, k, e, hi),
                 KeyValues(key, col, k, lo, hi));
  }

  /** With commuting adds, a key that received its values lane by lane is
      where the same values in row order would have brought it. */
  lemma KeyReachedPermuted<S(!new), V(!new), R>(fn: AggregateFunction<S, V, R>, t: seq<Ptr>, st: map<nat, S>, t0: seq<Ptr>,
                                                m0: map<nat, S>, offset: nat, k: nat, vs: seq<V>, ws: seq<V>)
    requires AddCommutes(fn) && |t| == KeyCount && |t0| == KeyCount && k < KeyCount && multiset(vs) == multiset(ws)
    requires KeyReached(fn, t, st, t0, m0, offset, k, vs)
    ensures KeyReached(fn, t, st, t0, m0, offset, k, ws)
  {
    if vs == [] {
      assert |ws| == |multiset(ws)| == 0;
    } else {
      assert vs[0] in multiset(vs);
    }
    FoldPermutation(fn, Start(fn, t0, m0, offset, k), vs, ws);
  }

  /** The fast path with an accumulator whose adds commute and whose merge
      is a fold: every key ends as if its rows had been added to it one by
      one in row order, which is what the generic path does (see
      `GenericReachesRowVals`). */
  lemma FastMatchesGeneric<S(!new), V(!new), R>(fn: AggregateFunction<S, V, R>, c: Cursor<S, V>, t0: seq<Ptr>, m0: map<nat, S>,
                                                offset: nat, key: seq<UInt8>, col: seq<V>, lo: nat, hi: nat)
    requires AddCommutes(fn) && lo <= hi <= |key| && hi <= |col|
    requires FastState(fn, c, t0, m0, offset, FastVals(key, col, lo, hi))
    ensures FastState(fn, c, t0, m0, offset, RowVals(key, col, lo, hi))
  {
    var fast, rows := FastVals(key, col, lo, hi), RowVals(key, col, lo, hi);
    forall k | 0 <= k < KeyCount
      ensures KeyReached(fn, c.t, c.st, t0, m0, offset, k, rows[k])
    {
      assert KeyReached(fn, c.t, c.st, t0, m0, offset, k, fast[k]);
      FastValsPermutation(key, col, lo, hi, k);
      KeyReachedPermuted(fn, c.t, c.st, t0, m0, offset, k, fast[k], rows[k]);
    }
  }

  /** The generic path, for any accumulator, gives every key the values of
      its rows in row order: a key whose entry stays null has no rows, and
      an entry the run set on its own belongs to a key that has some. */
  lemma GenericReachesRowVals<S, V, R>(fn: AggregateFunction<S, V, R>, c: Cursor<S, V>, t0: seq<Ptr>, m0: map<nat, S>,
                                       offset: nat, key: seq<UInt8>, col: seq<V>, lo: nat, hi: nat)
    requires LookupState(fn, c, t0, m0, offset, key, col, lo, hi, hi) && TableLive(t0, m0, offset)
    ensures KeysReached(fn, c.t, c.st, t0, m0, offset, RowVals(key, col, lo, hi), -1)
  {
    LookupStateStates(fn, c, t0, m0, offset, key, col, lo, hi);
    var rows := RowVals(key, col, lo, hi);
    forall k | 0 <= k < KeyCount
      ensures KeyReached(fn, c.t, c.st, t0, m0, offset, k, rows[k])
    {
      GenericKeyReached(fn, c.t, c.st, t0, m0, offset, key, col, lo, hi, k);
    }
  }

  /** The same for one key. */
  lemma GenericKeyReached<S, V, R>(fn: AggregateFunction<S, V, R>, t: seq<Ptr>, st: map<nat, S>, t0: seq<Ptr>, m0: map<nat, S>,
                                   offset: nat, key: seq<UInt8>, col: seq<V>, lo: nat, hi: nat, k: nat)
    requires |t| == KeyCount && |t0| == KeyCount && lo <= hi <= |key| && hi <= |col| && k < KeyCount
    requires TableKept(t0, t) && InitsSeen(t0, t, key, lo, hi) && RowsSet(t, key, lo, hi) && Injective(t)
    requires NewPlaces(t0, t, offset) !! m0.Keys && TableLive(t0, m0, offset)
    requires st == Replay(fn, Seeded(m0, NewPlaces(t0, t, offset), fn.empty), RowAdds(LookupTargets(t, offset, key), col, lo, hi))
    ensures KeyReached(fn, t, st, t0, m0, offset, k, KeyValues(key, col, k, lo, hi))
  {
    if t[k].Null? {
      forall r | lo <= r < hi
        ensures key[r] as nat != k
      {
        assert t[key[r]].At?;
      }
      KeyValuesAbsent(key, col, k, lo, hi);
    } else {
      LookupFolds(fn, t, st, t0, m0, offset, key, col, lo, hi, k);
      if t0[k].Null? {
        KeyValuesPresent(key, col, k, lo, hi);
      }
    }
  }
}
