/**
 * Fold expressions over a template parameter pack. A pack is a sequence of
 * types drawn from `T`; a class template used as a predicate or as a
 * callable is a function on `T`. Every helper is evaluated at compile time
 * from the pack alone.
 */
module PackFolds {

  /** `count<Args...>()`: `sizeof...(Args)`, the number of types in the pack, repeats included. */
  function Count<T>(pack: seq<T>): (r: nat)
    ensures r == |pack|
  {
    |pack|
  }

  /** A `bool` promoted to an integer operand of `+`. */
  function Bit(b: bool): nat {
    if b then 1 else 0
  }

  /**
   * `count_if<P, Args...>()`: the unary left fold `(... + P<Args>())`,
   * that is `((P<A0> + P<A1>) + P<A2>) + ...`. A unary `+` fold over an
   * empty pack does not compile, so the pack is not empty. The result is
   * the number of types satisfying `P`: at most `count`, equal to it
   * exactly when all do, zero exactly when none does.
   */
  function CountIf<T>(p: T -> bool, pack: seq<T>): (r: nat)
    requires |pack| > 0
    ensures r <= Count(pack)
    ensures r == Count(pack) <==> forall k :: 0 <= k < |pack| ==> p(pack[k])
    ensures r == 0 <==> forall k :: 0 <= k < |pack| ==> !p(pack[k])
    decreases |pack|
  {
    if |pack| == 1 then Bit(p(pack[0]))
    else
      var init := pack[..|pack| - 1];
      var r := CountIf(p, init) + Bit(p(pack[|pack| - 1]));
      assert forall k :: 0 <= k < |init| ==> init[k] == pack[k];
      r
  }

  /**
   * `all_of<P, Args...>()`: the unary right fold `(P<Args>() && ...)`.
   * True exactly when every type satisfies `P`; true for an empty pack.
   */
  function AllOf<T>(p: T -> bool, pack: seq<T>): (r: bool)
    ensures r <==> forall k :: 0 <= k < |pack| ==> p(pack[k])
    decreases |pack|
  {
    if pack == [] then true
    else
      var r := p(pack[0]) && AllOf(p, pack[1..]);
      assert forall k :: 1 <= k < |pack| ==> pack[k] == pack[1..][k - 1];
      r
  }

  /**
   * `any_of<P, Args...>()`: the unary right fold `(P<Args>() || ...)`.
   * True exactly when some type satisfies `P`; false for an empty pack.
   */
  function AnyOf<T>(p: T -> bool, pack: seq<T>): (r: bool)
    ensures r <==> exists k :: 0 <= k < |pack| && p(pack[k])
    decreases |pack|
  {
    if pack == [] then false
    else
      var r := p(pack[0]) || AnyOf(p, pack[1..]);
      assert forall k :: 1 <= k < |pack| ==> pack[k] == pack[1..][k - 1];
      r
  }

  /** `none_of<P, Args...>()`: `!any_of<P, Args...>()`; true exactly when no type satisfies `P`. */
  function NoneOf<T>(p: T -> bool, pack: seq<T>): (r: bool)
    ensures r <==> forall k :: 0 <= k < |pack| ==> !p(pack[k])
  {
    !AnyOf(p, pack)
  }

  /** On the empty pack: `count` is 0, `all_of` and `none_of` hold, `any_of` does not. */
  lemma EmptyPack<T>(p: T -> bool)
    ensures Count<T>([]) == 0
    ensures AllOf(p, []) && !AnyOf(p, []) && NoneOf(p, [])
  {
  }

  /** `count` is `count_if` with a predicate every type satisfies. */
  lemma CountIsCountIfOfTrue<T>(pack: seq<T>)
    requires |pack| > 0
    ensures Count(pack) == CountIf(_ => true, pack)
  {
  }

  /** `none_of<P>` is `all_of` of the negated predicate. */
  lemma NoneOfIsAllOfNegation<T>(p: T -> bool, pack: seq<T>)
    ensures NoneOf(p, pack) == AllOf(x => !p(x), pack)
  {
  }

  /** On a non-empty pack `any_of` holds exactly when `count_if` is positive. */
  lemma AnyOfIsPositiveCount<T>(p: T -> bool, pack: seq<T>)
    requires |pack| > 0
    ensures AnyOf(p, pack) <==> CountIf(p, pack) > 0
  {
  }

  /** Each type satisfies `P` or its negation, never both: the two counts add up to `count`. */
  lemma {:induction false} CountIfComplement<T>(p: T -> bool, pack: seq<T>)
    requires |pack| > 0
    ensures CountIf(p, pack) + CountIf(x => !p(x), pack) == Count(pack)
    decreases |pack|
  {
    if |pack| > 1 {
      CountIfComplement(p, pack[..|pack| - 1]);
    }
  }

  /** The types of the pack that satisfy `p`, in pack order. */
  function Filter<T>(p: T -> bool, pack: seq<T>): (r: seq<T>)
    ensures forall k :: 0 <= k < |r| ==> p(r[k])
    decreases |pack|
  {
    if pack == [] then []
    else (if p(pack[0]) then [pack[0]] else []) + Filter(p, pack[1..])
  }

  /** Filtering distributes over concatenation. */
  lemma {:induction false} FilterAppend<T>(p: T -> bool, xs: seq<T>, ys: seq<T>)
    ensures Filter(p, xs + ys) == Filter(p, xs) + Filter(p, ys)
    decreases |xs|
  {
    if xs == [] {
      assert xs + ys == ys;
    } else {
      assert (xs + ys)[1..] == xs[1..] + ys;
      FilterAppend(p, xs[1..], ys);
    }
  }

  /**
   * The left fold of `count_if` counts what a filter keeps: the order in
   * which the `+` fold groups its operands does not change the count.
   */
  lemma {:induction false} CountIfIsFilterSize<T>(p: T -> bool, pack: seq<T>)
    requires |pack| > 0
    ensures CountIf(p, pack) == |Filter(p, pack)|
    decreases |pack|
  {
    var init := pack[..|pack| - 1];
    var last := pack[|pack| - 1];
    assert pack == init + [last];
    FilterAppend(p, init, [last]);
    assert Filter(p, [last]) == if p(last) then [last] else [] by {
      assert [last][1..] == [];
    }
    if |pack| > 1 {
      CountIfIsFilterSize(p, init);
    } else {
      assert init == [];
    }
  }

  /**
   * `for_each<Func, Args...>()`: the comma fold `(Func<Args>(), ...)`,
   * which evaluates its operands left to right. `f` gives the outcome of
   * evaluating one operand; the trace holds one outcome per type, in pack
   * order.
   */
  function ForEach<T, R>(f: T -> R, pack: seq<T>): (trace: seq<R>)
    ensures |trace| == |pack|
    ensures forall k :: 0 <= k < |pack| ==> trace[k] == f(pack[k])
    decreases |pack|
  {
    if pack == [] then []
    else
      var trace := [f(pack[0])] + ForEach(f, pack[1..]);
      assert forall k :: 1 <= k < |pack| ==> pack[k] == pack[1..][k - 1];
      trace
  }

  /**
   * When the outcome of an operand is whether it compiles, the whole fold
   * compiles exactly when `all_of` holds of that outcome.
   */
  lemma {:induction false} ForEachPassesIffAllOf<T>(check: T -> bool, pack: seq<T>)
    ensures AllOf(check, pack) ==> forall k :: 0 <= k < |pack| ==> ForEach(check, pack)[k]
    ensures (forall k :: 0 <= k < |pack| ==> ForEach(check, pack)[k]) ==> AllOf(check, pack)
  {
    var trace := ForEach(check, pack);
    if !AllOf(check, pack) {
      var k :| 0 <= k < |pack| && !check(pack[k]);
      assert !trace[k];
    }
  }

  /** `std::tuple<Args...>`: the element types, in index order. */
  datatype Tuple<T> = Tuple(types: seq<T>)

  /** `std::tuple_size_v<Tuple>`. */
  function TupleSize<T>(tuple: Tuple<T>): nat {
    |tuple.types|
  }

  /** `std::tuple_element_t<I, Tuple>`. */
  function TupleElement<T>(index: nat, tuple: Tuple<T>): T
    requires index < TupleSize(tuple)
  {
    tuple.types[index]
  }

  /**
   * `for_each_tuple_type_arg<Func>(std::tuple<Args...>{})`: the pack is
   * deduced from the tuple argument and folded with a comma fold.
   */
  function ForEachTupleTypeArg<T, R>(f: T -> R, tuple: Tuple<T>): (trace: seq<R>)
    ensures |trace| == TupleSize(tuple)
    ensures forall k :: 0 <= k < TupleSize(tuple) ==> trace[k] == f(TupleElement(k, tuple))
  {
    ForEach(f, tuple.types)
  }

  /** `std::make_index_sequence<n>`: the indices 0, 1, ..., n - 1. */
  function MakeIndexSequence(n: nat): (indices: seq<nat>)
    ensures |indices| == n
    ensures forall k :: 0 <= k < n ==> indices[k] == k
    decreases n
  {
    if n == 0 then [] else MakeIndexSequence(n - 1) + [n - 1]
  }

  /** The comma fold over an index pack: `(Func<std::tuple_element_t<I, Tuple>>(), ...)`. */
  function ForEachIndex<T, R>(f: T -> R, tuple: Tuple<T>, indices: seq<nat>): (trace: seq<R>)
    requires forall k :: 0 <= k < |indices| ==> indices[k] < TupleSize(tuple)
    ensures |trace| == |indices|
    ensures forall k :: 0 <= k < |indices| ==> trace[k] == f(TupleElement(indices[k], tuple))
    decreases |indices|
  {
    if indices == [] then []
    else
      var trace := [f(TupleElement(indices[0], tuple))] + ForEachIndex(f, tuple, indices[1..]);
      assert forall k :: 1 <= k < |indices| ==> indices[k] == indices[1..][k - 1];
      trace
  }

  /**
   * `for_each_tuple_type<Func, Tuple>()`: a generic lambda receives
   * `std::make_index_sequence<std::tuple_size_v<Tuple>>` and folds over the
   * element types by index.
   */
  function ForEachTupleType<T, R>(f: T -> R, tuple: Tuple<T>): (trace: seq<R>)
    ensures |trace| == TupleSize(tuple)
    ensures forall k :: 0 <= k < TupleSize(tuple) ==> trace[k] == f(TupleElement(k, tuple))
  {
    ForEachIndex(f, tuple, MakeIndexSequence(TupleSize(tuple)))
  }

  /**
   * The three visitors agree: both tuple variants call `Func` on the
   * tuple's element types in index order, exactly as `for_each` does over
   * those types as a pack.
   */
  lemma TupleVisitorsAgree<T, R>(f: T -> R, tuple: Tuple<T>)
    ensures ForEachTupleType(f, tuple) == ForEachTupleTypeArg(f, tuple) == ForEach(f, tuple.types)
  {
  }
}
