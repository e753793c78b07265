/** The accumulator contract that the batch layer of the aggregate-function
    framework is written against: one accumulator type is a value of
    `AggregateFunction<S, V, R>`, where `S` is the state stored at a place,
    `V` is one row of argument values and `R` is one finalized result value.
    The batch layer (module AggregateFunctionHelper) only ever calls these
    single-row and single-state primitives. */
module Contract {

  /** One byte (`UInt8`), used for key columns and serialized states. */
  type UInt8 = x: int | 0 <= x < 256

  datatype Option<T> = None | Some(value: T)

  /** Static layout facts of a state payload type `Data`. */
  datatype Layout = Layout(
    dataSize: nat,           // sizeof(Data)
    reportedSize: nat,       // sizeOfData(), which a derived function may override
    align: nat,              // alignOfData() == alignof(Data)
    trivialDestructor: bool) // hasTrivialDestructor()

  /** The primitives of one accumulator type.
      `deserialize` reads a state from the front of its input and says how
      many bytes it consumed; `None` is a failure (an exception in the source).
      `insertResult` finalizes a state into one result value; `None` is a failure. */
  datatype AggregateFunction<!S, !V, R> = AggregateFunction(
    empty: S,
    add: (S, V) -> S,
    merge: (S, S) -> S,
    serialize: S -> seq<UInt8>,
    deserialize: seq<UInt8> -> Option<(S, nat)>,
    insertResult: S -> Option<R>,
    allocatesMemoryInArena: bool,
    layout: Layout)

  /** Properties of an aggregate function that do not depend on its argument
      types or parameters. */
  datatype Properties = Properties(
    returnsDefaultWhenOnlyNull: bool,
    isOrderDependent: bool,
    isWindowFunction: bool)

  /** Every property is off unless a function says otherwise. */
  function DefaultProperties(): (p: Properties)
    ensures !p.returnsDefaultWhenOnlyNull && !p.isOrderDependent && !p.isWindowFunction
  {
    Properties(false, false, false)
  }

  /** The data helper's lookup-table fast path applies only to small payloads
      that do not allocate in the arena and whose reported size is their real size. */
  predicate FastLookupPathApplies<S, V, R>(fn: AggregateFunction<S, V, R>)
  {
    !fn.allocatesMemoryInArena && fn.layout.dataSize <= 16 && fn.layout.reportedSize == fn.layout.dataSize
  }

  /** The state reached by adding the values `vs` one by one, in order, to `s`. */
  function Fold<S, V>(add: (S, V) -> S, s: S, vs: seq<V>): S
    decreases |vs|
  {
    if vs == [] then s else add(Fold(add, s, vs[..|vs| - 1]), vs[|vs| - 1])
  }

  /** Adding two runs of values one after the other is adding their concatenation. */
  lemma {:induction false} FoldAppend<S, V>(add: (S, V) -> S, s: S, a: seq<V>, b: seq<V>)
    ensures Fold(add, s, a + b) == Fold(add, Fold(add, s, a), b)
    decreases |b|
  {
    if b == [] {
      assert a + b == a;
    } else {
      var b' := b[..|b| - 1];
      assert (a + b)[..|a + b| - 1] == a + b';
      FoldAppend(add, s, a, b');
    }
  }

  /** Adding one more value, or none, to a run of values. */
  lemma FoldSnocIf<S, V>(add: (S, V) -> S, s: S, vs: seq<V>, b: bool, x: V)
    ensures Fold(add, s, vs + (if b then [x] else [])) == if b then add(Fold(add, s, vs), x) else Fold(add, s, vs)
  {
    if b {
      assert (vs + [x])[..|vs|] == vs;
    } else {
      assert vs + [] == vs;
    }
  }

  /** The order in which two values are added does not matter. */
  ghost predicate AddCommutes<S(!new), V(!new), R>(fn: AggregateFunction<S, V, R>)
  {
    forall s: S, x: V, y: V :: fn.add(fn.add(s, x), y) == fn.add(fn.add(s, y), x)
  }

  /** Merging a state built from `vs` into `s` is the same as adding `vs` to `s`. */
  ghost predicate MergeIsFold<S(!new), V(!new), R>(fn: AggregateFunction<S, V, R>)
  {
    forall s: S, vs: seq<V> :: fn.merge(s, Fold(fn.add, fn.empty, vs)) == Fold(fn.add, s, vs)
  }

  /** Deserializing the serialized form of a state, followed by anything,
      gives back the state and consumes exactly its serialized form. */
  ghost predicate RoundTrip<S(!new), V, R>(fn: AggregateFunction<S, V, R>)
  {
    forall s: S, rest: seq<UInt8> {:trigger fn.deserialize(fn.serialize(s) + rest)} ::
      fn.deserialize(fn.serialize(s) + rest) == Some((s, |fn.serialize(s)|))
  }

  lemma {:induction false} FoldMoveToEnd<S(!new), V(!new), R>(fn: AggregateFunction<S, V, R>, s: S, a: seq<V>, x: V, b: seq<V>)
    requires AddCommutes(fn)
    ensures Fold(fn.add, s, a + [x] + b) == Fold(fn.add, s, a + b + [x])
    decreases |b|
  {
    if b != [] {
      var b', y := b[..|b| - 1], b[|b| - 1];
      assert a + [x] + b == (a + [x] + b') + [y];
      assert a + b + [x] == (a + b' + [y]) + [x];
      assert (a + [x] + b)[..|a + [x] + b| - 1] == a + [x] + b';
      assert (a + b + [x])[..|a + b + [x]| - 1] == a + b' + [y];
      assert (a + b' + [y])[..|a + b' + [y]| - 1] == a + b';
      assert (a + b' + [x])[..|a + b' + [x]| - 1] == a + b';
      FoldMoveToEnd(fn, s, a, x, b');
    } else {
      assert a + [x] + b == a + b + [x];
    }
  }

  /** With a commutative `add`, the state reached depends only on the
      multiset of values added, not on their order. */
  lemma {:induction false} FoldPermutation<S(!new), V(!new), R>(fn: AggregateFunction<S, V, R>, s: S, xs: seq<V>, ys: seq<V>)
    requires AddCommutes(fn)
    requires multiset(xs) == multiset(ys)
    ensures Fold(fn.add, s, xs) == Fold(fn.add, s, ys)
    decreases |xs|
  {
    if xs == [] {
      assert |ys| == |multiset(ys)| == 0;
    } else {
      var n := |xs|;
      var x := xs[n - 1];
      assert x in multiset(ys) by {
        assert xs == xs[..n - 1] + [x];
        assert x in multiset(xs);
      }
      var p :| 0 <= p < |ys| && ys[p] == x;
      var rest := ys[..p] + ys[p + 1..];
      assert ys == ys[..p] + [x] + ys[p + 1..];
      FoldMoveToEnd(fn, s, ys[..p], x, ys[p + 1..]);
      assert xs == xs[..n - 1] + [x];
      assert multiset(xs[..n - 1]) == multiset(rest) by {
        assert multiset(xs) == multiset(xs[..n - 1]) + multiset{x};
        calc {
          multiset(ys);
          multiset(ys[..p] + [x] + ys[p + 1..]);
          multiset(ys[..p]) + multiset{x} + multiset(ys[p + 1..]);
          multiset(rest) + multiset{x};
        }
        var a, b := multiset(xs[..n - 1]), multiset(rest);
        assert a + multiset{x} == b + multiset{x};
        assert a == (a + multiset{x}) - multiset{x};
        assert b == (b + multiset{x}) - multiset{x};
      }
      FoldPermutation(fn, s, xs[..n - 1], rest);
      assert (rest + [x])[..|rest + [x]| - 1] == rest;
    }
  }
}
