/** A concrete accumulator that meets every law the batch layer relies on:
    the maximum of a column of bytes, kept as a flag and a value (empty
    until the first row). Its state is two bytes, needs no arena and is its
    whole payload, so the data helper's lookup-table fast path applies to
    it, and its adds commute and its merge is a fold, so that path leaves
    each key where the generic one does. */
module MaxExample {
  import opened Contract
  import opened SerdeSpec

  /** The state: no value yet, or the largest value so far. */
  datatype MaxState = NoValue | Largest(value: UInt8)

  function AddMax(s: MaxState, v: UInt8): (s': MaxState)
    ensures s'.Largest? && s'.value >= v && (s.Largest? ==> s'.value >= s.value)
    ensures s'.value == v || (s.Largest? && s'.value == s.value)
  {
    match s
    case NoValue => Largest(v)
    case Largest(x) => if v > x then Largest(v) else s
  }

  function MergeMax(s: MaxState, t: MaxState): (s': MaxState)
    ensures t.NoValue? ==> s' == s
    ensures t.Largest? ==> s' == AddMax(s, t.value)
  {
    match t
    case NoValue => s
    case Largest(y) => AddMax(s, y)
  }

  /** A flag byte, then the value when the flag is set. */
  function SerializeMax(s: MaxState): (bytes: seq<UInt8>)
    ensures |bytes| > 0
  {
    match s
    case NoValue => [0]
    case Largest(x) => [1, x]
  }

  function DeserializeMax(bytes: seq<UInt8>): (r: Option<(MaxState, nat)>)
    ensures r.Some? ==> 0 < r.value.1 <= |bytes|
  {
    if |bytes| >= 1 && bytes[0] == 0 then Some((NoValue, 1))
    else if |bytes| >= 2 && bytes[0] == 1 then Some((Largest(bytes[1]), 2))
    else None
  }

  /** The result of an empty state is the type's default value. */
  function ResultMax(s: MaxState): (r: Option<UInt8>)
    ensures r.Some? && (s.Largest? ==> r.value == s.value) && (s.NoValue? ==> r.value == 0)
  {
    match s
    case NoValue => Some(0)
    case Largest(x) => Some(x)
  }

  function MaxFunction(): (fn: AggregateFunction<MaxState, UInt8, UInt8>)
    ensures FastLookupPathApplies(fn)
  {
    AggregateFunction(NoValue, AddMax, MergeMax, SerializeMax, DeserializeMax, ResultMax, false, Layout(2, 2, 1, true))
  }

  /** The largest of some values, or no value when there are none. */
  function MaxOf(vs: seq<UInt8>): MaxState
    decreases |vs|
  {
    if vs == [] then NoValue else AddMax(MaxOf(vs[..|vs| - 1]), vs[|vs| - 1])
  }

  /** Adding values to a state gives the larger of the state and their maximum. */
  lemma {:induction false} FoldIsMax(s: MaxState, vs: seq<UInt8>)
    ensures Fold(AddMax, s, vs) == MergeMax(s, MaxOf(vs))
    decreases |vs|
  {
    if vs != [] {
      FoldIsMax(s, vs[..|vs| - 1]);
    }
  }

  lemma AddMaxCommutes(s: MaxState, x: UInt8, y: UInt8)
    ensures AddMax(AddMax(s, x), y) == AddMax(AddMax(s, y), x)
  {
  }

  /** The order in which rows are added does not matter. */
  lemma MaxAddCommutes()
    ensures AddCommutes(MaxFunction())
  {
    var fn := MaxFunction();
    forall s: MaxState, x: UInt8, y: UInt8
      ensures fn.add(fn.add(s, x), y) == fn.add(fn.add(s, y), x)
    {
      AddMaxCommutes(s, x, y);
    }
  }

  /** Merging a state built from some values is adding those values. */
  lemma MaxMergeIsFold()
    ensures MergeIsFold(MaxFunction())
  {
    var fn := MaxFunction();
    forall s: MaxState, vs: seq<UInt8>
      ensures fn.merge(s, Fold(fn.add, fn.empty, vs)) == Fold(fn.add, s, vs)
    {
      FoldIsMax(NoValue, vs);
      FoldIsMax(s, vs);
    }
  }

  /** A serialized state reads back, whatever follows it. */
  lemma MaxRoundTrip()
    ensures RoundTrip(MaxFunction())
  {
    var fn := MaxFunction();
    forall s: MaxState, rest: seq<UInt8>
      ensures fn.deserialize(fn.serialize(s) + rest) == Some((s, |fn.serialize(s)|))
    {
      match s
      case NoValue =>
        assert (fn.serialize(s) + rest)[0] == 0;
      case Largest(x) =>
        var bytes := [1, x] + rest;
        assert fn.serialize(s) == [1, x];
        assert bytes[0] == 1 && bytes[1] == x;
    }
  }

  lemma MaxSerializesNonEmpty()
    ensures SerializesNonEmpty(MaxFunction())
  {
  }
}
