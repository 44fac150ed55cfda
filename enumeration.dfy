/**
 * EnumerationTuple<length, init> from dune/common/tuples/enumeration.hh.
 *
 * The C++ type is a tuple of integral constants built by template recursion;
 * here the tuple is the sequence of those constants.
 */
module Enumeration {

  /** Max<N, M>::value. */
  function Max(n: int, m: int): (r: int)
    ensures r >= n && r >= m
    ensures r == n || r == m
  {
    if n >= m then n else m
  }

  /**
   * Create<N, M, Args...>::Type: append the constant M to the arguments
   * collected so far and continue with M+1, until M reaches N.  The two
   * specialisations for M == N (with and without collected arguments) both
   * yield the tuple of the collected arguments.
   */
  function Create(n: int, m: int, args: seq<int>): (r: seq<int>)
    requires m <= n
    ensures |r| == |args| + (n - m)
    ensures r[..|args|] == args
    ensures forall i :: |args| <= i < |r| ==> r[i] == m + (i - |args|)
    decreases n - m
  {
    if m == n then args else Create(n, m + 1, args + [m])
  }

  /** EnumerationTuple<length, init>::Type. */
  function Type(length: int, init: int): seq<int>
  {
    Create(Max(length, 0) + init, init, [])
  }

  /** tuple_size< EnumerationTuple<length, init> >::value. */
  function TupleSize(length: int): (r: nat)
    ensures length >= 0 ==> r == length
    ensures length < 0 ==> r == 0
  {
    if length >= 0 then length else 0
  }

  /** tuple_element< i, EnumerationTuple<length, init> >::type. */
  function TupleElement(i: nat, init: int): int
  {
    init + i
  }

  /** The tuple built by Create has the length tuple_size declares. */
  lemma TypeLength(length: int, init: int)
    ensures |Type(length, init)| == TupleSize(length)
  {
  }

  /** Element i of the tuple built by Create is the one tuple_element declares. */
  lemma TypeElement(length: int, init: int, i: nat)
    requires i < TupleSize(length)
    ensures i < |Type(length, init)|
    ensures Type(length, init)[i] == TupleElement(i, init)
  {
  }

  /** A non-positive length gives the empty tuple. */
  lemma NonPositiveLengthIsEmpty(length: int, init: int)
    requires length <= 0
    ensures Type(length, init) == []
  {
  }

  /** Consecutive elements differ by exactly one. */
  lemma ConsecutiveElements(length: int, init: int, i: nat)
    requires i + 1 < |Type(length, init)|
    ensures Type(length, init)[i + 1] == Type(length, init)[i] + 1
  {
  }
}
