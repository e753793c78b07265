/** What a fast run of the data helper's addBatchLookupTable8 has done so
    far, stated as the values each key's state has received, and the steps
    that keep that statement true. */
module FastLookupState {
  import opened Contract
  import opened StateMemory
  import opened BatchSpec
  import opened LookupSpec
  import opened LookupRun
  import opened ScratchSpec

  /** The values of the rows of lanes `[0, j)` of the first `n` blocks whose
      key is `k`: lane by lane, each lane in row order. */
  function LanesUpTo<V>(key: seq<UInt8>, col: seq<V>, lo: nat, n: nat, k: nat, j: nat): seq<V>
    requires j <= LaneCount && lo + 4 * n <= |key| && lo + 4 * n <= |col|
    decreases j
  {
    if j == 0 then [] else LanesUpTo(key, col, lo, n, k, j - 1) + LaneValues(key, col, lo, n, j - 1, k)
  }

  /** The values of every lane of the first `n` blocks with key `k`. */
  function AllLanes<V>(key: seq<UInt8>, col: seq<V>, lo: nat, n: nat, k: nat): seq<V>
    requires lo + 4 * n <= |key| && lo + 4 * n <= |col|
  {
    LanesUpTo(key, col, lo, n, k, LaneCount)
  }

  /** The values each key has received once keys `[0, kk)` and lanes
      `[0, jj)` of key `kk` have been merged. */
  function MergedVals<V>(key: seq<UInt8>, col: seq<V>, lo: nat, n: nat, kk: nat, jj: nat): (vals: seq<seq<V>>)
    requires jj <= LaneCount && lo + 4 * n <= |key| && lo + 4 * n <= |col|
    ensures |vals| == KeyCount
  {
    seq(KeyCount, k requires 0 <= k < KeyCount => if k < kk then AllLanes(key, col, lo, n, k) else if k == kk then LanesUpTo(key, col, lo, n, k, jj) else [])
  }

  /** The values each key has received once it had the values `base` and
      the rows `[e, r)` of the tail were added. */
  function TailVals<V>(base: seq<seq<V>>, key: seq<UInt8>, col: seq<V>, e: nat, r: nat): (vals: seq<seq<V>>)
    requires |base| == KeyCount && r <= |key| && r <= |col|
    ensures |vals| == KeyCount
  {
    seq(KeyCount, k requires 0 <= k < KeyCount => base[k] + KeyValues(key, col, k, e, r))
  }

  /** The state the values of key `k` are added to: the one live at the
      place of its entry on entry, or an empty state when the entry was null. */
  ghost function Start<S, V, R>(fn: AggregateFunction<S, V, R>, t0: seq<Ptr>, m0: map<nat, S>, offset: nat, k: nat): S
    requires |t0| == KeyCount && k < KeyCount
  {
    if t0[k].At? && t0[k].addr + offset in m0 then m0[t0[k].addr + offset] else fn.empty
  }

  /** The places of the set entries of a table. */
  function Places(t: seq<Ptr>, offset: nat): set<nat>
  {
    set k | 0 <= k < |t| && t[k].At? :: t[k].addr + offset
  }

  /** Key `k` has received the values `vs`: its entry is null only if there
      are none, its state is its starting state with `vs` added, and the call
      initialized it only if there is one. */
  ghost predicate KeyReached<S, V, R>(fn: AggregateFunction<S, V, R>, t: seq<Ptr>, st: map<nat, S>, t0: seq<Ptr>, m0: map<nat, S>,
                                      offset: nat, k: nat, vs: seq<V>)
    requires |t| == KeyCount && |t0| == KeyCount && k < KeyCount
  {
    (t[k].Null? ==> vs == [])
    && (t[k].At? ==> t[k].addr + offset in st && st[t[k].addr + offset] == Fold(fn.add, Start(fn, t0, m0, offset, k), vs))
    && (t0[k].Null? && t[k].At? ==> vs != [])
  }

  /** Every key but `skip` has received its values `vals[k]`. */
  ghost predicate KeysReached<S, V, R>(fn: AggregateFunction<S, V, R>, t: seq<Ptr>, st: map<nat, S>, t0: seq<Ptr>, m0: map<nat, S>,
                                       offset: nat, vals: seq<seq<V>>, skip: int)
    requires |t| == KeyCount && |t0| == KeyCount && |vals| == KeyCount
  {
    forall k :: 0 <= k < KeyCount && k != skip ==> KeyReached(fn, t, st, t0, m0, offset, k, vals[k])
  }

  /** The table's part of a fast run, on the entries `t`, the live states
      `st` and the places `cr` created so far: entries set on entry keep their
      place, every set entry is a live place and no two share one; the new
      places were not live on entry and are exactly the places created, once
      each; every other state live on entry is still live and unchanged. */
  ghost predicate FastTableOf<S>(t: seq<Ptr>, st: map<nat, S>, cr: seq<nat>, t0: seq<Ptr>, m0: map<nat, S>, offset: nat)
  {
    |t| == KeyCount && |t0| == KeyCount
    && TableKept(t0, t) && TableLive(t, st, offset) && Injective(t)
    && NewPlaces(t0, t, offset) !! m0.Keys && st.Keys == m0.Keys + NewPlaces(t0, t, offset)
    && (forall a :: a in m0 && a !in Places(t, offset) ==> a in st && st[a] == m0[a])
    && Distinct(cr) && Elems(cr) == NewPlaces(t0, t, offset)
  }

  /** The same of a cursor, whose log says which places were created. */
  ghost predicate FastTable<S, V>(c: Cursor<S, V>, t0: seq<Ptr>, m0: map<nat, S>, offset: nat)
  {
    match c
    case Cursor(t, st, es, _, _) => FastTableOf(t, st, CreatesOf(es), t0, m0, offset)
  }

  /** A fast run that started on the entries `t0` and the live states `m0`
      and has given each key `k` the values `vals[k]`. */
  ghost predicate FastStateOf<S, V, R>(fn: AggregateFunction<S, V, R>, t: seq<Ptr>, st: map<nat, S>, cr: seq<nat>, t0: seq<Ptr>,
                                       m0: map<nat, S>, offset: nat, vals: seq<seq<V>>)
  {
    FastTableOf(t, st, cr, t0, m0, offset) && |vals| == KeyCount && KeysReached(fn, t, st, t0, m0, offset, vals, -1)
  }

  /** The same of a cursor. */
  ghost predicate FastState<S, V, R>(fn: AggregateFunction<S, V, R>, c: Cursor<S, V>, t0: seq<Ptr>, m0: map<nat, S>, offset: nat,
                                     vals: seq<seq<V>>)
  {
    match c
    case Cursor(t, st, es, _, _) => FastStateOf(fn, t, st, CreatesOf(es), t0, m0, offset, vals)
  }

  /** Setting a null entry adds its place to the places of the table. */
  lemma PlacesUpdate(t: seq<Ptr>, offset: nat, k: nat, base: nat)
    requires k < |t| && t[k].Null?
    ensures Places(t[k := At(base)], offset) == Places(t, offset) + {base + offset}
  {
    var t' := t[k := At(base)];
    forall a | a in Places(t', offset)
      ensures a in Places(t, offset) + {base + offset}
    {
      var j :| 0 <= j < |t'| && t'[j].At? && a == t'[j].addr + offset;
      if j != k {
        assert t[j] == t'[j];
      }
    }
    assert t'[k].addr + offset in Places(t', offset);
    forall a | a in Places(t, offset)
      ensures a in Places(t', offset)
    {
      var j :| 0 <= j < |t| && t[j].At? && a == t[j].addr + offset;
      assert t'[j] == t[j];
    }
  }

  /** The place of a set entry is one of the places of the table. */
  lemma PlacesHas(t: seq<Ptr>, offset: nat, k: nat)
    requires k < |t| && t[k].At?
    ensures t[k].addr + offset in Places(t, offset)
  {
  }

  /** Initializing the null entry of key `k` with a block whose place is not
      live keeps the table's part of a fast run. */
  lemma FastTableInit<S, V>(c: Cursor<S, V>, c1: Cursor<S, V>, t0: seq<Ptr>, m0: map<nat, S>, offset: nat,
                            k: nat, base: nat, empty: S)
    requires FastTable(c, t0, m0, offset) && k < KeyCount && c.t[k].Null? && base + offset !in c.st
    requires c1.t == c.t[k := At(base)] && c1.st == c.st[base + offset := empty] && c1.es == c.es + [Created(base + offset)]
    ensures FastTable(c1, t0, m0, offset)
  {
    var p := base + offset;
    var cr := CreatesOf(c.es);
    CreatesInit(c.es, p);
    FastTableOfInit(c.t, c.st, cr, t0, m0, offset, k, base, p, empty);
    FastTableIs(c1, c.t[k := At(base)], c.st[p := empty], cr + [p], t0, m0, offset);
  }

  /** A cursor's table part is that of its parts. */
  lemma FastTableIs<S, V>(c: Cursor<S, V>, t: seq<Ptr>, st: map<nat, S>, cr: seq<nat>, t0: seq<Ptr>, m0: map<nat, S>, offset: nat)
    requires c.t == t && c.st == st && CreatesOf(c.es) == cr
    ensures FastTable(c, t0, m0, offset) == FastTableOf(t, st, cr, t0, m0, offset)
  {
  }

  /** The same, on the parts of the state. */
  lemma FastTableOfInit<S>(t: seq<Ptr>, st: map<nat, S>, cr: seq<nat>, t0: seq<Ptr>, m0: map<nat, S>, offset: nat,
                           k: nat, base: nat, p: nat, empty: S)
    requires FastTableOf(t, st, cr, t0, m0, offset) && k < KeyCount && t[k].Null? && p == base + offset && p !in st
    ensures FastTableOf(t[k := At(base)], st[p := empty], cr + [p], t0, m0, offset)
  {
    EntriesInit(t, st, t0, offset, k, base, empty);
    NewPlacesUpdate(t0, t, offset, k, base);
    PlacesUpdate(t, offset, k, base);
    StatesInit(st, m0, NewPlaces(t0, t, offset), Places(t, offset), p, empty);
    CreatesAppend(cr, NewPlaces(t0, t, offset), p);
  }

  /** The entries' part of initializing a null entry. */
  lemma EntriesInit<S>(t: seq<Ptr>, st: map<nat, S>, t0: seq<Ptr>, offset: nat, k: nat, base: nat, s: S)
    requires |t| == KeyCount && |t0| == KeyCount && k < KeyCount && t[k].Null? && base + offset !in st
    requires TableKept(t0, t) && TableLive(t, st, offset) && Injective(t)
    ensures TableKept(t0, t[k := At(base)]) && TableLive(t[k := At(base)], st[base + offset := s], offset)
    ensures Injective(t[k := At(base)])
  {
    assert t0[k].Null?;
    TableLiveStep(t, st, offset, k, base, s);
    assert Injective(t[k := At(base)]) by {
      forall j | 0 <= j < KeyCount && j != k && t[j].At?
        ensures t[j].addr != base
      {
        assert t[j].addr + offset in st;
      }
    }
  }

  /** The live states' part of initializing a null entry at place `p`. */
  lemma StatesInit<S>(st: map<nat, S>, m0: map<nat, S>, np: set<nat>, ps: set<nat>, p: nat, s: S)
    requires np !! m0.Keys && st.Keys == m0.Keys + np && p !in st
    requires forall a :: a in m0 && a !in ps ==> a in st && st[a] == m0[a]
    ensures np + {p} !! m0.Keys && st[p := s].Keys == m0.Keys + (np + {p})
    ensures forall a :: a in m0 && a !in ps + {p} ==> a in st[p := s] && st[p := s][a] == m0[a]
  {
  }

  /** Creating a state at `p` adds `p` to the places created. */
  lemma CreatesInit<S, V>(es: seq<Event<S, V>>, p: nat)
    ensures CreatesOf(es + [Created(p)]) == CreatesOf(es) + [p]
  {
    EventsSnoc(es, Created(p));
  }

  /** The log's part of initializing a null entry at a new place `p`. */
  lemma CreatesAppend(cr: seq<nat>, np: set<nat>, p: nat)
    requires Distinct(cr) && Elems(cr) == np && p !in np
    ensures Distinct(cr + [p]) && Elems(cr + [p]) == np + {p}
  {
    assert Elems(cr + [p]) == Elems(cr) + {p};
    assert p !in cr;
  }

  /** ... and every other key keeps its values; the new entry holds an
      empty state, which is its starting state with no values added. */
  lemma {:induction false} KeysInit<S, V, R>(fn: AggregateFunction<S, V, R>, c: Cursor<S, V>, c1: Cursor<S, V>, t0: seq<Ptr>,
                                            m0: map<nat, S>, offset: nat, vals: seq<seq<V>>, k: nat, base: nat)
    requires FastState(fn, c, t0, m0, offset, vals) && k < KeyCount && c.t[k].Null? && base + offset !in c.st
    requires c1.t == c.t[k := At(base)] && c1.st == c.st[base + offset := fn.empty]
    ensures KeysReached(fn, c1.t, c1.st, t0, m0, offset, vals, k)
    ensures vals[k] == [] && c1.st[base + offset] == Fold(fn.add, Start(fn, t0, m0, offset, k), vals[k])
  {
    var t, st, p := c.t, c.st, base + offset;
    forall j | 0 <= j < KeyCount && j != k
      ensures KeyReached(fn, c1.t, c1.st, t0, m0, offset, j, vals[j])
    {
      assert KeyReached(fn, t, st, t0, m0, offset, j, vals[j]);
      assert c1.t[j] == t[j];
      if t[j].At? {
        assert t[j].addr + offset in st;
      }
    }
    assert KeyReached(fn, t, st, t0, m0, offset, k, vals[k]);
    assert t0[k].Null?;
  }

  /** Finding the entry of key `k` with a fresh block keeps every other key's
      values, and leaves the entry set to a state that holds its values. */
  lemma FindFast<S, V, R>(fn: AggregateFunction<S, V, R>, c: Cursor<S, V>, c1: Cursor<S, V>, t0: seq<Ptr>, m0: map<nat, S>,
                          offset: nat, vals: seq<seq<V>>, k: nat, bases: seq<nat>)
    requires FastState(fn, c, t0, m0, offset, vals) && k < KeyCount
    requires c1 == FindRow(fn, c, k, bases, offset) && c1.aboveLive
    ensures FastTable(c1, t0, m0, offset) && |vals| == KeyCount && KeysReached(fn, c1.t, c1.st, t0, m0, offset, vals, k)
    ensures c1.t[k].At? && c1.t[k].addr + offset in c1.st
    ensures c1.st[c1.t[k].addr + offset] == Fold(fn.add, Start(fn, t0, m0, offset, k), vals[k])
  {
    if c.t[k].At? {
      FindFastHit(fn, c, c1, t0, m0, offset, vals, k, bases);
    } else {
      FindFastMiss(fn, c, c1, t0, m0, offset, vals, k, bases);
    }
  }

  lemma FindFastMiss<S, V, R>(fn: AggregateFunction<S, V, R>, c: Cursor<S, V>, c1: Cursor<S, V>, t0: seq<Ptr>, m0: map<nat, S>,
                              offset: nat, vals: seq<seq<V>>, k: nat, bases: seq<nat>)
    requires FastState(fn, c, t0, m0, offset, vals) && k < KeyCount && c.t[k].Null?
    requires c1 == FindRow(fn, c, k, bases, offset) && c1.aboveLive
    ensures FastTable(c1, t0, m0, offset) && |vals| == KeyCount && KeysReached(fn, c1.t, c1.st, t0, m0, offset, vals, k)
    ensures c1.t[k].At? && c1.t[k].addr + offset in c1.st
    ensures c1.st[c1.t[k].addr + offset] == Fold(fn.add, Start(fn, t0, m0, offset, k), vals[k])
  {
    var b := Alloc(bases, c.used);
    assert b + offset !in c.st;
    assert c1.t == c.t[k := At(b)];
    assert c1.st == Step(fn, c.st, Created(b + offset));
    StepCreated(fn, c.st, b + offset);
    assert c1.es == c.es + [Created(b + offset)];
    FindFastInit(fn, c, c1, t0, m0, offset, vals, k, b);
  }

  lemma FindFastHit<S, V, R>(fn: AggregateFunction<S, V, R>, c: Cursor<S, V>, c1: Cursor<S, V>, t0: seq<Ptr>, m0: map<nat, S>,
                             offset: nat, vals: seq<seq<V>>, k: nat, bases: seq<nat>)
    requires FastState(fn, c, t0, m0, offset, vals) && k < KeyCount && c.t[k].At?
    requires c1 == FindRow(fn, c, k, bases, offset)
    ensures FastTable(c1, t0, m0, offset) && |vals| == KeyCount && KeysReached(fn, c1.t, c1.st, t0, m0, offset, vals, k)
    ensures c1.t[k].At? && c1.t[k].addr + offset in c1.st
    ensures c1.st[c1.t[k].addr + offset] == Fold(fn.add, Start(fn, t0, m0, offset, k), vals[k])
  {
    assert c1 == c;
    assert KeyReached(fn, c.t, c.st, t0, m0, offset, k, vals[k]);
  }

  lemma FindFastInit<S, V, R>(fn: AggregateFunction<S, V, R>, c: Cursor<S, V>, c1: Cursor<S, V>, t0: seq<Ptr>, m0: map<nat, S>,
                              offset: nat, vals: seq<seq<V>>, k: nat, b: nat)
    requires FastState(fn, c, t0, m0, offset, vals) && k < KeyCount && c.t[k].Null? && b + offset !in c.st
    requires c1.t == c.t[k := At(b)] && c1.st == c.st[b + offset := fn.empty] && c1.es == c.es + [Created(b + offset)]
    ensures FastTable(c1, t0, m0, offset) && |vals| == KeyCount && KeysReached(fn, c1.t, c1.st, t0, m0, offset, vals, k)
    ensures c1.t[k].At? && c1.t[k].addr + offset in c1.st
    ensures c1.st[c1.t[k].addr + offset] == Fold(fn.add, Start(fn, t0, m0, offset, k), vals[k])
  {
    FastTableInit(c, c1, t0, m0, offset, k, b, fn.empty);
    KeysInit(fn, c, c1, t0, m0, offset, vals, k, b);
    AtPlace(c1.t, c1.st, offset, k, b, Fold(fn.add, Start(fn, t0, m0, offset, k), vals[k]));
  }

  /** The place of an entry set to block `b`. */
  lemma AtPlace<S>(t: seq<Ptr>, st: map<nat, S>, offset: nat, k: nat, b: nat, x: S)
    requires k < |t| && t[k] == At(b) && b + offset in st && st[b + offset] == x
    ensures t[k].At? && t[k].addr + offset in st && st[t[k].addr + offset] == x
  {
  }

  /** Creating a state at `p` puts an empty state there. */
  lemma StepCreated<S, V, R>(fn: AggregateFunction<S, V, R>, m: map<nat, S>, p: nat)
    ensures Step(fn, m, Created(p)) == m[p := fn.empty]
  {
  }

  /** Giving key `k`, whose entry is set to place `p`, more values `ws`: the
      state there becomes its starting state with all its values added. */
  lemma ApplyFast<S, V, R>(fn: AggregateFunction<S, V, R>, c1: Cursor<S, V>, c': Cursor<S, V>, t0: seq<Ptr>,
                           m0: map<nat, S>, offset: nat, vals: seq<seq<V>>, k: nat, p: nat, ws: seq<V>, x: S)
    requires FastTable(c1, t0, m0, offset) && |vals| == KeyCount && KeysReached(fn, c1.t, c1.st, t0, m0, offset, vals, k)
    requires k < KeyCount && c1.t[k].At? && p == c1.t[k].addr + offset && p in c1.st
    requires ws != [] && x == Fold(fn.add, Start(fn, t0, m0, offset, k), vals[k] + ws)
    requires c'.t == c1.t && c'.st == c1.st[p := x] && CreatesOf(c'.es) == CreatesOf(c1.es)
    ensures FastState(fn, c', t0, m0, offset, vals[k := vals[k] + ws])
  {
    ApplyFastOf(fn, c1.t, c1.st, CreatesOf(c1.es), t0, m0, offset, vals, k, p, ws, x);
  }

  /** The same, on the parts of the state. */
  lemma ApplyFastOf<S, V, R>(fn: AggregateFunction<S, V, R>, t: seq<Ptr>, st: map<nat, S>, cr: seq<nat>, t0: seq<Ptr>,
                             m0: map<nat, S>, offset: nat, vals: seq<seq<V>>, k: nat, p: nat, ws: seq<V>, x: S)
    requires FastTableOf(t, st, cr, t0, m0, offset) && |vals| == KeyCount && KeysReached(fn, t, st, t0, m0, offset, vals, k)
    requires k < KeyCount && t[k].At? && p == t[k].addr + offset && p in st
    requires ws != [] && x == Fold(fn.add, Start(fn, t0, m0, offset, k), vals[k] + ws)
    ensures FastStateOf(fn, t, st[p := x], cr, t0, m0, offset, vals[k := vals[k] + ws])
  {
    var vals' := vals[k := vals[k] + ws];
    PlacesHas(t, offset, k);
    assert FastTableOf(t, st[p := x], cr, t0, m0, offset);
    forall j | 0 <= j < KeyCount
      ensures KeyReached(fn, t, st[p := x], t0, m0, offset, j, vals'[j])
    {
      if j != k {
        assert KeyReached(fn, t, st, t0, m0, offset, j, vals[j]);
        if t[j].At? {
          assert t[j].addr != t[k].addr;
        }
      }
    }
  }

  /** Adding an event's worth to a state that holds `vs`. */
  lemma AddFold<S, V, R>(fn: AggregateFunction<S, V, R>, s0: S, vs: seq<V>, x: V)
    ensures fn.add(Fold(fn.add, s0, vs), x) == Fold(fn.add, s0, vs + [x])
  {
    assert (vs + [x])[..|vs|] == vs;
  }

  /** Merging a state built from `ws` into one that holds `vs`. */
  lemma MergeFold<S(!new), V(!new), R>(fn: AggregateFunction<S, V, R>, s0: S, vs: seq<V>, ws: seq<V>)
    requires MergeIsFold(fn)
    ensures fn.merge(Fold(fn.add, s0, vs), Fold(fn.add, fn.empty, ws)) == Fold(fn.add, s0, vs + ws)
  {
    FoldAppend(fn.add, s0, vs, ws);
  }

  lemma StepMerged<S, V, R>(fn: AggregateFunction<S, V, R>, m: map<nat, S>, p: nat, rhs: S)
    requires p in m
    ensures Step(fn, m, Merged(p, rhs)) == m[p := fn.merge(m[p], rhs)]
  {
  }

  lemma StepAdded<S, V, R>(fn: AggregateFunction<S, V, R>, m: map<nat, S>, p: nat, r: nat, v: V)
    requires p in m
    ensures Step(fn, m, Added(p, r, v)) == m[p := fn.add(m[p], v)]
  {
  }

  /** Merging lane `j` of key `k` gives that key the lane's values. */
  lemma MergedValsStep<V>(key: seq<UInt8>, col: seq<V>, lo: nat, n: nat, k: nat, j: nat)
    requires j < LaneCount && k < KeyCount && lo + 4 * n <= |key| && lo + 4 * n <= |col|
    ensures MergedVals(key, col, lo, n, k, j + 1)
            == MergedVals(key, col, lo, n, k, j)[k := MergedVals(key, col, lo, n, k, j)[k] + LaneValues(key, col, lo, n, j, k)]
  {
  }

  /** All lanes of key `k` merged is key `k + 1` about to be merged. */
  lemma MergedValsNext<V>(key: seq<UInt8>, col: seq<V>, lo: nat, n: nat, k: nat)
    requires k < KeyCount && lo + 4 * n <= |key| && lo + 4 * n <= |col|
    ensures MergedVals(key, col, lo, n, k, LaneCount) == MergedVals(key, col, lo, n, k + 1, 0)
  {
  }

  /** Adding tail row `r` gives the key of that row its value. */
  lemma TailValsStep<V>(base: seq<seq<V>>, key: seq<UInt8>, col: seq<V>, e: nat, r: nat)
    requires |base| == KeyCount && e <= r < |key| && r < |col|
    ensures TailVals(base, key, col, e, r + 1)
            == TailVals(base, key, col, e, r)[key[r] as nat := TailVals(base, key, col, e, r)[key[r]] + [col[r]]]
  {
    var vals, vals' := TailVals(base, key, col, e, r), TailVals(base, key, col, e, r + 1);
    forall k | 0 <= k < KeyCount
      ensures vals'[k] == vals[key[r] as nat := vals[key[r]] + [col[r]]][k]
    {
      var before := KeyValues(key, col, k, e, r);
      assert KeyValues(key, col, k, e, r + 1) == before + (if key[r] == k then [col[r]] else []);
      if key[r] == k {
        assert base[k] + (before + [col[r]]) == (base[k] + before) + [col[r]];
      } else {
        assert before + [] == before;
      }
    }
  }

  /** Before any tail row, every key has its values from before. */
  lemma TailValsStart<V>(base: seq<seq<V>>, key: seq<UInt8>, col: seq<V>, e: nat)
    requires |base| == KeyCount && e <= |key| && e <= |col|
    ensures TailVals(base, key, col, e, e) == base
  {
    forall k | 0 <= k < KeyCount
      ensures TailVals(base, key, col, e, e)[k] == base[k]
    {
      assert base[k] + [] == base[k];
    }
  }

  /** Before any merge, no key has received a value. */
  lemma MergedValsStart<V>(key: seq<UInt8>, col: seq<V>, lo: nat, n: nat)
    requires lo + 4 * n <= |key| && lo + 4 * n <= |col|
    ensures forall k :: 0 <= k < KeyCount ==> MergedVals(key, col, lo, n, 0, 0)[k] == []
  {
  }

  /** The start of a fast run on entries whose places are live and
      distinct: no key has received a value yet. */
  lemma FastStart<S, V, R>(fn: AggregateFunction<S, V, R>, t0: seq<Ptr>, m0: map<nat, S>, offset: nat, vals: seq<seq<V>>)
    requires |t0| == KeyCount && TableLive(t0, m0, offset) && Injective(t0)
    requires |vals| == KeyCount && forall k :: 0 <= k < KeyCount ==> vals[k] == []
    ensures FastState(fn, Cursor(t0, m0, [], 0, true), t0, m0, offset, vals)
  {
    assert NewPlaces(t0, t0, offset) == {};
    assert CreatesOf<S, V>([]) == [];
  }
}
