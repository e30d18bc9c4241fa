/**
 * `back_emplace_iterator`: an output iterator that holds a non-owning
 * pointer to a container and, on assignment of a tuple, constructs one new
 * element at the back of that container from the tuple's components.
 *
 * The containers the program can reach form a `Store`, indexed by address.
 * The adapter keeps only the address, so every effect it has is an effect
 * on the store entry it points to. An element is constructed by `ctor`,
 * which receives the whole tuple and reads its components in order, the way
 * `std::apply` hands them to `emplace_back`.
 */
module EmplaceBackIterator {
  import opened Wrappers

  /** Address of a caller-owned container. */
  type Ref = nat

  /** Every live container, by address. */
  type Store<E> = map<Ref, seq<E>>

  /** The adapter: the address of the container it was bound to, nothing else. */
  datatype BackEmplaceIterator = BackEmplaceIterator(container: Ref)

  /** The calls a single-pass algorithm makes on an output iterator. */
  datatype Op<A> = Deref | PreIncrement | PostIncrement | AssignArgs(args: A)

  /**
   * `back_emplacer(c)` and the explicit constructor: bind to `c` by address.
   * No store is an argument, so binding neither copies nor changes any
   * container.
   */
  function BackEmplacer(c: Ref): (it: BackEmplaceIterator)
    ensures it.container == c
  {
    BackEmplaceIterator(c)
  }

  /** `f` applied to each element of `xs`, in order. */
  function Map<X, Y>(f: X -> Y, xs: seq<X>): (ys: seq<Y>)
    ensures |ys| == |xs|
    ensures forall k :: 0 <= k < |xs| ==> ys[k] == f(xs[k])
  {
    seq(|xs|, k requires 0 <= k < |xs| => f(xs[k]))
  }

  /** The tuples handed to `operator=` by a sequence of calls, in call order. */
  function Assigned<A>(ops: seq<Op<A>>): seq<A> {
    if ops == [] then []
    else (if ops[0].AssignArgs? then [ops[0].args] else []) + Assigned(ops[1..])
  }

  /**
   * `operator=`: construct one element from `args` at the back of the bound
   * container and return the adapter. The container grows by exactly one,
   * its earlier elements are untouched, the new last element is the one
   * built from `args`, and no other container changes.
   */
  function Assign<A, E>(store: Store<E>, it: BackEmplaceIterator, args: A, ctor: A -> E)
    : (r: (Store<E>, BackEmplaceIterator))
    requires it.container in store
    ensures r.1 == it
    ensures r.0.Keys == store.Keys
    ensures |r.0[it.container]| == |store[it.container]| + 1
    ensures r.0[it.container][..|store[it.container]|] == store[it.container]
    ensures r.0[it.container][|store[it.container]|] == ctor(args)
    ensures forall c :: c in store && c != it.container ==> r.0[c] == store[c]
  {
    var old_elements := store[it.container];
    var elements := old_elements + [ctor(args)];
    assert elements[..|old_elements|] == old_elements;
    (store[it.container := elements], it)
  }

  /**
   * `operator=` when the element's constructor may fail (`None`): a failed
   * construction leaves every container as it was, and only then.
   */
  function TryAssign<A, E>(store: Store<E>, it: BackEmplaceIterator, args: A, ctor: A -> Option<E>)
    : (r: (Store<E>, BackEmplaceIterator))
    requires it.container in store
    ensures r.1 == it
    ensures r.0 == store <==> ctor(args).None?
    ensures ctor(args).Some? ==> r.0 == Assign(store, it, args, a => ctor(args).value).0
  {
    match ctor(args)
    case None => (store, it)
    case Some(e) =>
      var r := Assign(store, it, args, a => e);
      assert |r.0[it.container]| != |store[it.container]|;
      r
  }

  /**
   * One call on the adapter. `operator*`, `operator++` and `operator++(int)`
   * return the adapter itself or a copy of it and change nothing; only
   * `operator=` changes the store.
   */
  function Step<A, E>(store: Store<E>, it: BackEmplaceIterator, op: Op<A>, ctor: A -> E)
    : (r: (Store<E>, BackEmplaceIterator))
    requires it.container in store
    ensures r.1 == it
    ensures !op.AssignArgs? ==> r.0 == store
    ensures op.AssignArgs? ==> r == Assign(store, it, op.args, ctor)
  {
    match op
    case Deref => (store, it)
    case PreIncrement => (store, it)
    case PostIncrement => (store, it)
    case AssignArgs(args) => Assign(store, it, args, ctor)
  }

  /**
   * A sequence of calls on the adapter, each on the iterator the previous
   * call returned. The bound container ends up as it was followed by one
   * element per assigned tuple, in order; every other container is
   * unchanged; the adapter is still bound to the same container.
   */
  function Run<A, E>(store: Store<E>, it: BackEmplaceIterator, ops: seq<Op<A>>, ctor: A -> E)
    : (r: (Store<E>, BackEmplaceIterator))
    requires it.container in store
    ensures r.1 == it
    ensures r.0.Keys == store.Keys
    ensures r.0[it.container] == store[it.container] + Map(ctor, Assigned(ops))
    ensures forall c :: c in store && c != it.container ==> r.0[c] == store[c]
    decreases |ops|
  {
    if ops == [] then
      assert Map(ctor, Assigned(ops)) == [];
      (store, it)
    else
      var s := Step(store, it, ops[0], ctor);
      var r := Run(s.0, s.1, ops[1..], ctor);
      assert Map(ctor, Assigned(ops)) ==
        (if ops[0].AssignArgs? then [ctor(ops[0].args)] else []) + Map(ctor, Assigned(ops[1..]));
      r
  }

  /** The tuples of a concatenation of call sequences are the concatenated tuples. */
  lemma {:induction false} AssignedAppend<A>(xs: seq<Op<A>>, ys: seq<Op<A>>)
    ensures Assigned(xs + ys) == Assigned(xs) + Assigned(ys)
    decreases |xs|
  {
    if xs != [] {
      assert (xs + ys)[1..] == xs[1..] + ys;
      AssignedAppend(xs[1..], ys);
    } else {
      assert xs + ys == ys;
    }
  }

  /**
   * Any number of dereferences and increments between assignments, or
   * none at all, make no difference: calls without an assignment leave
   * the store and the adapter exactly as they were.
   */
  lemma {:induction false} NoOpsHaveNoEffect<A, E>(store: Store<E>, it: BackEmplaceIterator, ops: seq<Op<A>>, ctor: A -> E)
    requires it.container in store
    requires forall k :: 0 <= k < |ops| ==> !ops[k].AssignArgs?
    ensures Run(store, it, ops, ctor) == (store, it)
    decreases |ops|
  {
    if ops != [] {
      NoOpsHaveNoEffect(store, it, ops[1..], ctor);
    }
  }

  /**
   * A call sequence has the same effect as the assignments in it alone:
   * the no-op calls of the output-iterator protocol can be dropped.
   */
  lemma NoOpsCanBeDropped<A, E>(store: Store<E>, it: BackEmplaceIterator, ops: seq<Op<A>>, ctor: A -> E)
    requires it.container in store
    ensures Run(store, it, ops, ctor) == Run(store, it, Map(a => AssignArgs(a), Assigned(ops)), ctor)
  {
    var onlyAssigns := Map(a => AssignArgs(a), Assigned(ops));
    AssignedOfAssignments(Assigned(ops));
    var r1 := Run(store, it, ops, ctor);
    var r2 := Run(store, it, onlyAssigns, ctor);
    assert r1.0 == r2.0;
  }

  /** Assigning each of `args` in turn hands over exactly `args`. */
  lemma {:induction false} AssignedOfAssignments<A>(args: seq<A>)
    ensures Assigned(Map(a => AssignArgs(a), args)) == args
    decreases |args|
  {
    var ops := Map(a => AssignArgs(a), args);
    if args != [] {
      assert ops[1..] == Map(a => AssignArgs(a), args[1..]);
      AssignedOfAssignments(args[1..]);
    }
  }

  /**
   * A consequence of the adapter holding only an address: the copy that
   * `operator++(int)` returns is bound to the same container, so assigning
   * through the adapter and then through the copy appends both elements to
   * the caller's container.
   */
  lemma CopiesShareTheContainer<A, E>(store: Store<E>, c: Ref, a1: A, a2: A, ctor: A -> E)
    requires c in store
    ensures var it := BackEmplacer(c);
            var copy := Step(store, it, PostIncrement, ctor).1;
            var s1 := Assign(store, it, a1, ctor).0;
            Assign(s1, copy, a2, ctor).0[c] == store[c] + [ctor(a1), ctor(a2)]
  {
  }

  /**
   * The calls `std::transform` makes on its destination: for each input,
   * `*out = f(x)` then `++out`.
   */
  function TransformOps<X, A>(xs: seq<X>, f: X -> A): (ops: seq<Op<A>>)
    ensures Assigned(ops) == Map(f, xs)
    decreases |xs|
  {
    if xs == [] then []
    else
      var head := [Deref, AssignArgs(f(xs[0])), PreIncrement];
      var ops := head + TransformOps(xs[1..], f);
      AssignedAppend(head, TransformOps(xs[1..], f));
      assert Assigned(head) == [f(xs[0])] by {
        assert head[1..] == [AssignArgs(f(xs[0])), PreIncrement];
        assert head[1..][1..] == [PreIncrement];
        assert Assigned(head[1..][1..]) == [] by {
          assert head[1..][1..][1..] == [];
        }
      }
      assert Map(f, xs) == [f(xs[0])] + Map(f, xs[1..]);
      ops
  }

  /**
   * `std::transform(first, last, out, f)` with a `back_emplace_iterator` as
   * `out`: N inputs give N new elements at the back of the bound container,
   * the k-th built from the tuple `f` made of the k-th input; earlier
   * elements and every other container are unchanged.
   */
  function Transform<X, A, E>(store: Store<E>, xs: seq<X>, out: BackEmplaceIterator, f: X -> A, ctor: A -> E)
    : (r: (Store<E>, BackEmplaceIterator))
    requires out.container in store
    ensures r.1 == out
    ensures r.0.Keys == store.Keys
    ensures |r.0[out.container]| == |store[out.container]| + |xs|
    ensures r.0[out.container][..|store[out.container]|] == store[out.container]
    ensures forall k :: 0 <= k < |xs| ==> r.0[out.container][|store[out.container]| + k] == ctor(f(xs[k]))
    ensures forall c :: c in store && c != out.container ==> r.0[c] == store[c]
  {
    Run(store, out, TransformOps(xs, f), ctor)
  }
}
