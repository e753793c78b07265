/** What addBatchLookupTable8 does, as functions of its inputs: a table of
    256 places indexed by a one-byte key, each row added to the place of its
    key, null entries initialized on first use. */
module LookupSpec {
  import opened Contract
  import opened StateMemory
  import opened BatchSpec

  /** The number of entries of a lookup table: one per value of a byte. */
  const KeyCount: nat := 256

  /** The rows of one unrolled block of addBatchLookupTable8. */
  const UnrollCount: nat := 8

  /** The place each row is added to: the entry of its key, shifted by the offset. */
  function LookupTargets(t: seq<Ptr>, offset: nat, key: seq<UInt8>): (tgt: seq<Option<nat>>)
    requires |t| == KeyCount
    ensures |tgt| == |key|
    ensures forall r :: 0 <= r < |key| ==> tgt[r] == if t[key[r]].At? then Some(t[key[r]].addr + offset) else None
  {
    seq(|key|, r requires 0 <= r < |key| => if t[key[r]].At? then Some(t[key[r]].addr + offset) else None)
  }

  /** No two non-null entries share an address. */
  predicate Injective(t: seq<Ptr>)
  {
    forall k1, k2 :: 0 <= k1 < |t| && 0 <= k2 < |t| && k1 != k2 && t[k1].At? && t[k2].At? ==> t[k1].addr != t[k2].addr
  }

  /** The places of the entries that were null in `t0` and are set in `t`:
      the states initialized by the call. */
  function NewPlaces(t0: seq<Ptr>, t: seq<Ptr>, offset: nat): set<nat>
    requires |t0| == |t|
  {
    set k | 0 <= k < |t| && t0[k].Null? && t[k].At? :: t[k].addr + offset
  }

  /** An entry null in `t0` and set in `t` contributes its place. */
  lemma NewPlacesHas(t0: seq<Ptr>, t: seq<Ptr>, offset: nat, k: nat)
    requires |t0| == |t| && k < |t| && t0[k].Null? && t[k].At?
    ensures t[k].addr + offset in NewPlaces(t0, t, offset)
  {
  }

  /** Setting one more null entry adds its place to the new places. */
  lemma NewPlacesUpdate(t0: seq<Ptr>, t: seq<Ptr>, offset: nat, k: nat, base: nat)
    requires |t0| == |t| && k < |t| && t0[k].Null? && t[k].Null?
    ensures NewPlaces(t0, t[k := At(base)], offset) == NewPlaces(t0, t, offset) + {base + offset}
  {
    var t' := t[k := At(base)];
    forall a | a in NewPlaces(t0, t', offset)
      ensures a in NewPlaces(t0, t, offset) + {base + offset}
    {
      var j :| 0 <= j < |t'| && t0[j].Null? && t'[j].At? && a == t'[j].addr + offset;
      if j != k {
        assert t[j] == t'[j];
      }
    }
    assert t'[k].addr + offset in NewPlaces(t0, t', offset);
    forall a | a in NewPlaces(t0, t, offset)
      ensures a in NewPlaces(t0, t', offset)
    {
      var j :| 0 <= j < |t| && t0[j].Null? && t[j].At? && a == t[j].addr + offset;
      assert t'[j] == t[j];
    }
  }

  /** The live states `m` together with the empty state at each place of `ps`. */
  function Seeded<S>(m: map<nat, S>, ps: set<nat>, empty: S): (r: map<nat, S>)
    ensures r.Keys == m.Keys + ps
    ensures forall a :: a in r ==> r[a] == if a in m then m[a] else empty
  {
    map a | a in m.Keys + ps :: if a in m then m[a] else empty
  }

  /** Seeding one more place that holds no state. */
  lemma SeededMore<S>(m: map<nat, S>, ps: set<nat>, empty: S, p: nat)
    requires p !in m
    ensures Seeded(m, ps + {p}, empty) == Seeded(m, ps, empty)[p := empty]
  {
  }

  /** An add to another place does not see what `p` holds. */
  lemma AddElsewhere<S, V, R>(fn: AggregateFunction<S, V, R>, m: map<nat, S>, e: Event<S, V>, p: nat, s: S)
    requires e.Added? && e.place != p
    ensures Step(fn, m[p := s], e) == Step(fn, m, e)[p := s]
  {
    var q := e.place;
    if q in m {
      assert m[p := s][q] == m[q];
      assert m[p := s][q := fn.add(m[q], e.value)] == m[q := fn.add(m[q], e.value)][p := s];
    }
  }

  /** Adds that never go to `p` do not see what `p` holds. */
  lemma {:induction false} ReplayRowAddsElsewhere<S, V, R>(fn: AggregateFunction<S, V, R>, m: map<nat, S>, tgt: seq<Option<nat>>,
                                                           col: seq<V>, lo: nat, hi: nat, p: nat, s: S)
    requires hi <= |tgt| && hi <= |col|
    requires forall r :: lo <= r < hi && tgt[r].Some? ==> tgt[r].value != p
    ensures Replay(fn, m[p := s], RowAdds<S, V>(tgt, col, lo, hi)) == Replay(fn, m, RowAdds<S, V>(tgt, col, lo, hi))[p := s]
    decreases hi
  {
    if hi > lo {
      var r := hi - 1;
      var prev := RowAdds<S, V>(tgt, col, lo, r);
      ReplayRowAddsElsewhere(fn, m, tgt, col, lo, r, p, s);
      RowAddsNext<S, V>(tgt, col, lo, r, hi);
      if tgt[r].Some? {
        var e: Event<S, V> := Added(tgt[r].value, r, col[r]);
        ReplaySnoc(fn, m[p := s], prev, e);
        ReplaySnoc(fn, m, prev, e);
        AddElsewhere(fn, Replay(fn, m, prev), e, p, s);
      } else {
        assert prev + [] == prev;
      }
    }
  }

  /** The add events of a log, in order. */
  function AddsOf<S, V>(es: seq<Event<S, V>>): seq<Event<S, V>>
    decreases |es|
  {
    if es == [] then [] else AddsOf(es[..|es| - 1]) + (if es[|es| - 1].Added? then [es[|es| - 1]] else [])
  }

  /** The places created by a log, in order. */
  function CreatesOf<S, V>(es: seq<Event<S, V>>): seq<nat>
    decreases |es|
  {
    if es == [] then [] else CreatesOf(es[..|es| - 1]) + (if es[|es| - 1].Created? then [es[|es| - 1].place] else [])
  }

  lemma EventsSnoc<S, V>(es: seq<Event<S, V>>, e: Event<S, V>)
    ensures AddsOf(es + [e]) == AddsOf(es) + (if e.Added? then [e] else [])
    ensures CreatesOf(es + [e]) == CreatesOf(es) + (if e.Created? then [e.place] else [])
  {
    assert (es + [e])[..|es|] == es;
  }

  /** The keys of the rows of `[lo, hi)`. */
  function KeySet(key: seq<UInt8>, lo: nat, hi: nat): set<nat>
    requires hi <= |key|
    decreases hi
  {
    if hi <= lo then {} else KeySet(key, lo, hi - 1) + {key[hi - 1] as nat}
  }

  /** The argument values of the rows of `[lo, hi)` whose key is `k`, in row order. */
  function KeyValues<V>(key: seq<UInt8>, col: seq<V>, k: nat, lo: nat, hi: nat): seq<V>
    requires hi <= |key| && hi <= |col|
    decreases hi
  {
    if hi <= lo then [] else KeyValues(key, col, k, lo, hi - 1) + (if key[hi - 1] == k then [col[hi - 1]] else [])
  }

  /** With a table whose set entries have distinct addresses and cover every
      key of `[lo, hi)`, the values routed to the place of key `k` are exactly
      the values of the rows with key `k`. */
  lemma {:induction false} RoutedToKey<V>(t: seq<Ptr>, offset: nat, key: seq<UInt8>, col: seq<V>, k: nat, lo: nat, hi: nat)
    requires |t| == KeyCount && hi <= |key| && hi <= |col| && k < KeyCount && t[k].At? && Injective(t)
    requires forall r :: lo <= r < hi ==> t[key[r]].At?
    ensures RoutedValues(LookupTargets(t, offset, key), col, t[k].addr + offset, lo, hi) == KeyValues(key, col, k, lo, hi)
    decreases hi
  {
    if hi > lo {
      RoutedToKey(t, offset, key, col, k, lo, hi - 1);
      var tgt := LookupTargets(t, offset, key);
      assert tgt[hi - 1] == Some(t[k].addr + offset) <==> key[hi - 1] == k;
    }
  }

  /** Where the unrolled loop of a lookup-table method stops: it starts at
      `i` and advances by `width` while below `limit`. */
  function UnrolledEnd(i: nat, limit: nat, width: nat): (u: nat)
    requires 0 < width
    ensures limit <= u || u == i
    decreases limit - i
  {
    if i < limit then UnrolledEnd(i + width, limit, width) else i
  }

  /** The next block starts on a block boundary too (for the two widths
      the lookup-table paths unroll by). */
  lemma NextBlockAligned(lo: nat, i: nat, width: nat, next: nat)
    requires (width == 4 || width == 8) && lo <= i && (i - lo) % width == 0 && next == i + width
    ensures (next - lo) % width == 0
  {
    var q := (i - lo) / width;
    assert i - lo == width * q;
    assert next - lo == width * (q + 1);
  }

  /** The block before a block boundary past `lo` starts on one too. */
  lemma PrevBlockAligned(lo: nat, i: nat, width: nat, prev: nat)
    requires (width == 4 || width == 8) && lo < i && (i - lo) % width == 0 && prev + width == i
    ensures lo <= prev && (prev - lo) % width == 0
  {
    var q := (i - lo) / width;
    assert i - lo == width * q;
    assert prev - lo == width * (q - 1);
  }

  /** The unrolled blocks never read past the end: the bound is a row count
      compared with absolute row numbers, so it can only stop early. */
  lemma {:induction false} UnrolledInRange(lo: nat, hi: nat, width: nat, i: nat)
    requires 0 < width && lo <= i && (i - lo) % width == 0 && i < (hi - lo) / width * width
    ensures i + width <= hi
  {
    var q := (hi - lo) / width;
    var t := (i - lo) / width;
    assert i == lo + t * width;
    assert q * width <= hi - lo;
    assert t * width < q * width;
    assert t < q;
    assert (t + 1) * width <= q * width;
  }

  /** The unrolled loop stops at a block boundary, within the rows. */
  lemma {:induction false} UnrolledEndInRange(lo: nat, hi: nat, width: nat, i: nat)
    requires (width == 4 || width == 8) && lo <= i <= hi && (i - lo) % width == 0
    ensures var e := UnrolledEnd(i, (hi - lo) / width * width, width);
            i <= e <= hi && (e - lo) % width == 0
    decreases (hi - lo) / width * width - i
  {
    if i < (hi - lo) / width * width {
      UnrolledInRange(lo, hi, width, i);
      NextBlockAligned(lo, i, width, i + width);
      UnrolledEndInRange(lo, hi, width, i + width);
    }
  }

  /** The first block boundary from `i` at or past `limit`, when the loop
      enters at all, is where the loop stops (for the two widths the
      lookup-table paths unroll by). */
  lemma {:induction false} UnrolledEndAt(i: nat, limit: nat, width: nat, e: nat)
    requires (width == 4 || width == 8) && i <= e && (e - i) % width == 0 && limit <= e && (e == i || e - width < limit)
    ensures UnrolledEnd(i, limit, width) == e
    decreases e - i
  {
    if i < limit {
      var q := (e - i) / width;
      assert e - i == width * q;
      assert e - (i + width) == width * (q - 1);
      UnrolledEndAt(i + width, limit, width, e);
    }
  }
}
