/**
 * Predicate checks over all elements of a tuple, from
 * dune/common/tuples/checkpredicate.hh.  A tuple is modelled as the sequence
 * of its elements (for the static check: of its element types).
 */
module CheckPredicate {

  /** The specification: p holds for each of the first n elements. */
  ghost predicate HoldsForFirst<T>(tuple: seq<T>, p: T -> bool, n: nat)
    requires n <= |tuple|
  {
    forall i :: 0 <= i < n ==> p(tuple[i])
  }

  /**
   * CheckPredicateTuple<Tuple, Predicate, N>::value: the predicate on element
   * N-1 conjoined with the value for N-1; the specialisation for N = 0 is true.
   */
  function CheckPredicateTuple<T>(tuple: seq<T>, p: T -> bool, n: nat): (v: bool)
    requires n <= |tuple|
    ensures v <==> HoldsForFirst(tuple, p, n)
  {
    if n == 0 then true else p(tuple[n - 1]) && CheckPredicateTuple(tuple, p, n - 1)
  }

  /** CheckPredicateTuple with its default N = tuple_size<Tuple>::value. */
  function CheckPredicateTupleValue<T>(tuple: seq<T>, p: T -> bool): (v: bool)
    ensures v <==> forall i :: 0 <= i < |tuple| ==> p(tuple[i])
  {
    CheckPredicateTuple(tuple, p, |tuple|)
  }

  /**
   * CheckPredicateFunctor: folds the predicate over the visited elements with
   * `v &= predicate(x)`.  A predicate is an object of type P; `call` gives the
   * result of its call operator on an element.
   */
  class CheckPredicateFunctor<P, T> {
    var v: bool
    const pred: P
    const call: (P, T) -> bool

    /**
     * The constructor as written: `v_` starts at true and the `predicate`
     * argument is not stored, so the member `predicate_` is the
     * default-constructed object `defaultPredicate`.
     */
    constructor AsWritten(pred: P, defaultPredicate: P, call: (P, T) -> bool)
      ensures v
      ensures this.pred == defaultPredicate && this.call == call
    {
      v := true;
      this.pred := defaultPredicate;
      this.call := call;
    }

    /** The constructor as evidently intended: it keeps its argument. */
    constructor (pred: P, call: (P, T) -> bool)
      ensures v
      ensures this.pred == pred && this.call == call
    {
      v := true;
      this.pred := pred;
      this.call := call;
    }

    /** visit(x): `v_ &= predicate_(x)`, evaluating the predicate every time. */
    method Visit(x: T)
      modifies this
      ensures v == (old(v) && call(pred, x))
    {
      var holds := call(pred, x);
      v := v && holds;
    }

    /** operator bool. */
    function AsBool(): bool
      reads this
    {
      v
    }
  }

  /** Visits the elements of the tuple in order, as ForEachValue::apply does. */
  method ForEachValue<P, T>(tuple: seq<T>, check: CheckPredicateFunctor<P, T>)
    modifies check
    ensures check.v == (old(check.v) && forall i :: 0 <= i < |tuple| ==> check.call(check.pred, tuple[i]))
  {
    var k := 0;
    while k < |tuple|
      invariant 0 <= k <= |tuple|
      invariant check.v == (old(check.v) && forall i :: 0 <= i < k ==> check.call(check.pred, tuple[i]))
    {
      check.Visit(tuple[k]);
      k := k + 1;
    }
  }

  /**
   * check_predicate_tuple(tuple, predicate) as written: the answer is that of
   * the default-constructed predicate, whatever `predicate` is.
   */
  method CheckPredicateTupleAsWritten<P, T>(tuple: seq<T>, pred: P, defaultPredicate: P, call: (P, T) -> bool)
    returns (r: bool)
    ensures r <==> forall i :: 0 <= i < |tuple| ==> call(defaultPredicate, tuple[i])
  {
    var check := new CheckPredicateFunctor.AsWritten(pred, defaultPredicate, call);
    ForEachValue(tuple, check);
    r := check.AsBool();
  }

  /**
   * check_predicate_tuple(tuple, predicate) as documented: true iff the given
   * predicate applies to every element.
   */
  method CheckPredicateTupleIntended<P, T>(tuple: seq<T>, pred: P, call: (P, T) -> bool)
    returns (r: bool)
    ensures r <==> forall i :: 0 <= i < |tuple| ==> call(pred, tuple[i])
  {
    var check := new CheckPredicateFunctor(pred, call);
    ForEachValue(tuple, check);
    r := check.AsBool();
  }

  /** A predicate object with state: "x is below the bound", default bound 0. */
  function Below(bound: int, x: int): bool
  {
    x < bound
  }

  /**
   * The functor as written and the documented result disagree: with the
   * bound 10 passed in, the tuple (5) satisfies the predicate, but the
   * default-constructed bound 0 is what gets applied.
   */
  method IgnoredPredicateChangesResult() returns (asWritten: bool, intended: bool)
    ensures !asWritten && intended
  {
    asWritten := CheckPredicateTupleAsWritten([5], 10, 0, Below);
    intended := CheckPredicateTupleIntended([5], 10, Below);
    assert !Below(0, [5][0]);
  }
}
