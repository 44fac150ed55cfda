/**
 * A discrete function that stores its degrees of freedom (dofs) in one
 * array per grid level (fem/discretefunction.hh).  The arithmetic of
 * DiscreteFunctionDefault walks the dof arrays of the finest level with
 * dof iterators and updates them in place; DiscFuncTest owns the arrays,
 * zero-fills the occupied levels on construction and offers set, setAll,
 * clear, dbegin and dend.
 *
 * The function space enters only through the number of dofs on each level,
 * given to the constructor as `spaceSize`; the grid's finest level is the
 * last index of that sequence.  Dofs are exact reals.
 */
module DiscreteFunctions {
  import opened DenseAlgebra

  /** A dof iterator: a position in the dof array of one level. */
  datatype DofIterator = DofIterator(dofs: array<real>, position: nat)

  /** The dofs an iteration from `first` up to (not including) `last` visits. */
  function Traversed(first: DofIterator, last: DofIterator): (visited: seq<real>)
    requires first.dofs == last.dofs && first.position <= last.position <= last.dofs.Length
    reads first.dofs
    ensures |visited| == last.position - first.position
    ensures forall k :: 0 <= k < |visited| ==> visited[k] == first.dofs[first.position + k]
  {
    first.dofs[first.position..last.position]
  }

  /** The arrays of `levels` are pairwise distinct objects. */
  predicate Distinct(levels: seq<array<real>>)
  {
    forall i, j :: 0 <= i < j < |levels| ==> levels[i] != levels[j]
  }

  /** An array of `length` dofs, resized and then set to 0 one by one. */
  method ZeroFilled(length: nat) returns (dofs: array<real>)
    ensures fresh(dofs)
    ensures dofs[..] == Zeros(length)
  {
    dofs := new real[length];
    for j := 0 to length
      invariant forall k :: 0 <= k < j ==> dofs[k] == 0.0
    {
      dofs[j] := 0.0;
    }
  }

  /** Whether the constructor allocates the dofs of level i. */
  predicate Occupied(i: nat, level: nat, allLevels: bool)
  {
    (allLevels && i < level) || i == level
  }

  class DiscFuncTest {
    /** level_: the finest level whose dofs are stored. */
    const level: nat
    /** allLevels_: whether `set` may write levels other than `level`. */
    const allLevels: bool
    /** levOcu_: the number of occupied levels. */
    const levOcu: nat
    /** dofVec_: one dof array per grid level, 0 up to the grid's finest level. */
    const dofVec: seq<array<real>>

    predicate Valid()
    {
      level < |dofVec| && Distinct(dofVec)
    }

    /** The finest level of the grid, on which DiscreteFunctionDefault computes. */
    function MaxLevel(): nat
      requires Valid()
    {
      |dofVec| - 1
    }

    /** The dofs of level l. */
    function Dofs(l: nat): seq<real>
      requires l < |dofVec|
      reads dofVec[l]
    {
      dofVec[l][..]
    }

    /**
     * g can be read along with this function on the finest level: it has that
     * level and at least as many dofs on it, since its iterator is advanced
     * once per dof of this function without a check.
     */
    predicate Compatible(g: DiscFuncTest)
      requires Valid()
    {
      MaxLevel() < |g.dofVec| && dofVec[MaxLevel()].Length <= g.dofVec[MaxLevel()].Length
    }

    /** The dofs of g that the iteration over the finest level reads. */
    function Operand(g: DiscFuncTest): (v: seq<real>)
      requires Valid() && Compatible(g)
      reads g.dofVec[MaxLevel()]
      ensures |v| == dofVec[MaxLevel()].Length
      ensures forall k :: 0 <= k < |v| ==> v[k] == g.dofVec[MaxLevel()][k]
    {
      g.dofVec[MaxLevel()][..dofVec[MaxLevel()].Length]
    }

    /**
     * Allocates one dof array per level of the grid.  Levels below
     * levOcu - 1 and the level `level` get spaceSize of that level dofs, all
     * 0; every other level gets an empty array.
     */
    constructor (spaceSize: seq<nat>, level: nat, flag: bool)
      requires level < |spaceSize|
      ensures Valid()
      ensures this.level == level && allLevels == flag
      ensures levOcu == if flag then level + 1 else 1
      ensures |dofVec| == |spaceSize|
      ensures forall i :: 0 <= i < |dofVec| ==> fresh(dofVec[i])
      ensures forall i :: 0 <= i < |dofVec| && Occupied(i, level, flag) ==> Dofs(i) == Zeros(spaceSize[i])
      ensures forall i :: 0 <= i < |dofVec| && !Occupied(i, level, flag) ==> dofVec[i].Length == 0
    {
      var occupied: nat := if flag then level + 1 else 1;
      var levels: seq<array<real>> := [];
      for i := 0 to |spaceSize|
        invariant |levels| == i
        invariant Distinct(levels)
        invariant forall k :: 0 <= k < i ==> fresh(levels[k])
        invariant forall k :: 0 <= k < i && Occupied(k, level, flag) ==> levels[k][..] == Zeros(spaceSize[k])
        invariant forall k :: 0 <= k < i && !Occupied(k, level, flag) ==> levels[k].Length == 0
      {
        var dofs: array<real>;
        if i < occupied - 1 || i == level {
          dofs := ZeroFilled(spaceSize[i]);
        } else {
          dofs := new real[0];
        }
        levels := levels + [dofs];
      }
      this.level := level;
      allLevels := flag;
      levOcu := occupied;
      dofVec := levels;
    }

    /** dbegin(l): the iterator at the first dof of level l. */
    function DBegin(l: nat): (it: DofIterator)
      requires l < |dofVec|
      ensures it.dofs == dofVec[l] && it.position == 0
    {
      DofIterator(dofVec[l], 0)
    }

    /** dend(l): the iterator just past the last dof of level l. */
    function DEnd(l: nat): (it: DofIterator)
      requires l < |dofVec|
      ensures it.dofs == dofVec[l] && it.position == dofVec[l].Length
    {
      DofIterator(dofVec[l], dofVec[l].Length)
    }

    /** Iterating from dbegin(l) to dend(l) visits exactly the dofs of level l, in order. */
    lemma IterationCoversLevel(l: nat)
      requires l < |dofVec|
      ensures Traversed(DBegin(l), DEnd(l)) == Dofs(l)
    {
      assert dofVec[l][0..dofVec[l].Length] == dofVec[l][..];
    }

    /** scalarProductDofs: the sum of the products of the dofs of this and g on the finest level. */
    method ScalarProductDofs(g: DiscFuncTest) returns (skp: real)
      requires Valid() && Compatible(g)
      ensures skp == Dot(Dofs(MaxLevel()), Operand(g))
    {
      var dofs := dofVec[MaxLevel()];
      var other := g.dofVec[MaxLevel()];
      skp := 0.0;
      for i := 0 to dofs.Length
        invariant skp == Dot(dofs[..i], other[..i])
      {
        assert dofs[..i + 1][..i] == dofs[..i] && other[..i + 1][..i] == other[..i];
        skp := skp + dofs[i] * other[i];
      }
      assert dofs[..dofs.Length] == dofs[..];
    }

    /** assign(g): copies g's dofs on the finest level into this. */
    method Assign(g: DiscFuncTest)
      requires Valid() && Compatible(g)
      modifies dofVec[MaxLevel()]
      ensures Dofs(MaxLevel()) == old(Operand(g))
    {
      var dofs := dofVec[MaxLevel()];
      var other := g.dofVec[MaxLevel()];
      ghost var v := other[..dofs.Length];
      for i := 0 to dofs.Length
        invariant forall k :: 0 <= k < i ==> dofs[k] == v[k]
        invariant forall k :: i <= k < dofs.Length ==> other[k] == v[k]
      {
        dofs[i] := other[i];
      }
    }

    /** operator=(g): the same element-wise copy as assign. */
    method CopyAssign(g: DiscFuncTest)
      requires Valid() && Compatible(g)
      modifies dofVec[MaxLevel()]
      ensures Dofs(MaxLevel()) == old(Operand(g))
    {
      var dofs := dofVec[MaxLevel()];
      var other := g.dofVec[MaxLevel()];
      ghost var v := other[..dofs.Length];
      for i := 0 to dofs.Length
        invariant forall k :: 0 <= k < i ==> dofs[k] == v[k]
        invariant forall k :: i <= k < dofs.Length ==> other[k] == v[k]
      {
        dofs[i] := other[i];
      }
    }

    /** operator+=(g): adds g's dofs to this, dof by dof. */
    method AddAssign(g: DiscFuncTest)
      requires Valid() && Compatible(g)
      modifies dofVec[MaxLevel()]
      ensures Dofs(MaxLevel()) == VecAdd(old(Dofs(MaxLevel())), old(Operand(g)))
    {
      var dofs := dofVec[MaxLevel()];
      var other := g.dofVec[MaxLevel()];
      ghost var u := dofs[..];
      ghost var v := other[..dofs.Length];
      for i := 0 to dofs.Length
        invariant forall k :: 0 <= k < i ==> dofs[k] == u[k] + v[k]
        invariant forall k :: i <= k < dofs.Length ==> dofs[k] == u[k] && other[k] == v[k]
      {
        dofs[i] := dofs[i] + other[i];
      }
    }

    /** operator-=(g): subtracts g's dofs from this, dof by dof. */
    method SubAssign(g: DiscFuncTest)
      requires Valid() && Compatible(g)
      modifies dofVec[MaxLevel()]
      ensures Dofs(MaxLevel()) == VecSub(old(Dofs(MaxLevel())), old(Operand(g)))
    {
      var dofs := dofVec[MaxLevel()];
      var other := g.dofVec[MaxLevel()];
      ghost var u := dofs[..];
      ghost var v := other[..dofs.Length];
      for i := 0 to dofs.Length
        invariant forall k :: 0 <= k < i ==> dofs[k] == u[k] - v[k]
        invariant forall k :: i <= k < dofs.Length ==> dofs[k] == u[k] && other[k] == v[k]
      {
        dofs[i] := dofs[i] - other[i];
      }
    }

    /** operator*=(scalar): multiplies every dof of the finest level by scalar. */
    method ScaleAssign(scalar: real)
      requires Valid()
      modifies dofVec[MaxLevel()]
      ensures Dofs(MaxLevel()) == VecScale(scalar, old(Dofs(MaxLevel())))
    {
      var dofs := dofVec[MaxLevel()];
      ghost var u := dofs[..];
      for i := 0 to dofs.Length
        invariant forall k :: 0 <= k < i ==> dofs[k] == scalar * u[k]
        invariant forall k :: i <= k < dofs.Length ==> dofs[k] == u[k]
      {
        dofs[i] := dofs[i] * scalar;
      }
      assert forall k :: 0 <= k < dofs.Length ==> dofs[k] == VecScale(scalar, u)[k];
    }

    /** add(g, scalar): adds scalar times g's dofs to this, dof by dof. */
    method Add(g: DiscFuncTest, scalar: real)
      requires Valid() && Compatible(g)
      modifies dofVec[MaxLevel()]
      ensures Dofs(MaxLevel()) == VecAdd(old(Dofs(MaxLevel())), VecScale(scalar, old(Operand(g))))
    {
      var dofs := dofVec[MaxLevel()];
      var other := g.dofVec[MaxLevel()];
      ghost var u := dofs[..];
      ghost var v := other[..dofs.Length];
      for i := 0 to dofs.Length
        invariant forall k :: 0 <= k < i ==> dofs[k] == u[k] + scalar * v[k]
        invariant forall k :: i <= k < dofs.Length ==> dofs[k] == u[k] && other[k] == v[k]
      {
        dofs[i] := dofs[i] + other[i] * scalar;
      }
      assert forall k :: 0 <= k < dofs.Length ==> dofs[k] == VecAdd(u, VecScale(scalar, v))[k];
    }

    /** clear(): sets every dof of level `level` to 0; no other level changes. */
    method Clear()
      requires Valid()
      modifies dofVec[level]
      ensures Dofs(level) == Zeros(dofVec[level].Length)
      ensures forall l :: 0 <= l < |dofVec| && l != level ==> Dofs(l) == old(Dofs(l))
    {
      var dofs := dofVec[level];
      for i := 0 to dofs.Length
        invariant forall k :: 0 <= k < i ==> dofs[k] == 0.0
      {
        dofs[i] := 0.0;
      }
    }

    /**
     * set(x, l): when the function stores all levels or l is `level`, every
     * dof of level l becomes x; otherwise nothing changes.
     */
    method Set(x: real, l: int)
      requires Valid()
      requires allLevels || l == level ==> 0 <= l < |dofVec|
      modifies if 0 <= l < |dofVec| then {dofVec[l]} else {}
      ensures !allLevels && l != level ==> forall k :: 0 <= k < |dofVec| ==> Dofs(k) == old(Dofs(k))
      ensures allLevels || l == level ==> Dofs(l) == seq(dofVec[l].Length, k => x)
      ensures forall other :: 0 <= other < |dofVec| && other != l ==> Dofs(other) == old(Dofs(other))
    {
      if !allLevels && l != level {
        return;
      }
      var dofs := dofVec[l];
      for i := 0 to dofs.Length
        invariant forall k :: 0 <= k < i ==> dofs[k] == x
      {
        dofs[i] := x;
      }
    }

    /** setAll(x): every dof of level `level` becomes x. */
    method SetAll(x: real)
      requires Valid()
      modifies dofVec[level]
      ensures Dofs(level) == seq(dofVec[level].Length, k => x)
      ensures forall other :: 0 <= other < |dofVec| && other != level ==> Dofs(other) == old(Dofs(other))
    {
      Set(x, level);
    }
  }

  // ---------------------------------------------------------------------
  // Properties of the dof arithmetic
  // ---------------------------------------------------------------------

  /** The scalar product does not depend on the order of its arguments. */
  lemma {:induction false} DotSymmetric(u: Vec, v: Vec)
    requires |u| == |v|
    ensures Dot(u, v) == Dot(v, u)
  {
    if |u| > 0 {
      DotSymmetric(u[..|u| - 1], v[..|u| - 1]);
    }
  }

  /** The scalar product with a sum of dofs is the sum of the scalar products (+= then scalarProductDofs). */
  lemma {:induction false} DotAddLeft(u: Vec, w: Vec, v: Vec)
    requires |u| == |w| == |v|
    ensures Dot(VecAdd(u, w), v) == Dot(u, v) + Dot(w, v)
  {
    if |u| > 0 {
      var n := |u| - 1;
      assert VecAdd(u, w)[..n] == VecAdd(u[..n], w[..n]);
      DotAddLeft(u[..n], w[..n], v[..n]);
      assert VecAdd(u, w)[n] * v[n] == u[n] * v[n] + w[n] * v[n];
    }
  }

  /** Scaling the dofs scales the scalar product (*= then scalarProductDofs). */
  lemma {:induction false} DotScaleLeft(k: real, u: Vec, v: Vec)
    requires |u| == |v|
    ensures Dot(VecScale(k, u), v) == k * Dot(u, v)
  {
    if |u| > 0 {
      var n := |u| - 1;
      assert forall i :: 0 <= i < n ==> VecScale(k, u)[..n][i] == VecScale(k, u[..n])[i];
      assert VecScale(k, u)[..n] == VecScale(k, u[..n]);
      DotScaleLeft(k, u[..n], v[..n]);
      assert VecScale(k, u)[n] * v[n] == k * (u[n] * v[n]);
    }
  }

  /** A zero dof vector has scalar product 0 with any vector. */
  lemma {:induction false} DotZeros(v: Vec)
    ensures Dot(Zeros(|v|), v) == 0.0
  {
    if |v| > 0 {
      var n := |v| - 1;
      assert Zeros(|v|)[..n] == Zeros(n);
      DotZeros(v[..n]);
    }
  }

  /** += g followed by -= g gives back the original dofs. */
  lemma AddThenSubtract(u: Vec, v: Vec)
    requires |u| == |v|
    ensures VecSub(VecAdd(u, v), v) == u
  {
    assert forall k :: 0 <= k < |u| ==> VecSub(VecAdd(u, v), v)[k] == u[k];
  }

  /** add(g, 1) is += g and add(g, -1) is -= g. */
  lemma AddWithUnitScalar(u: Vec, v: Vec)
    requires |u| == |v|
    ensures VecAdd(u, VecScale(1.0, v)) == VecAdd(u, v)
    ensures VecAdd(u, VecScale(-1.0, v)) == VecSub(u, v)
  {
    assert forall k :: 0 <= k < |u| ==> VecAdd(u, VecScale(1.0, v))[k] == VecAdd(u, v)[k];
    assert forall k :: 0 <= k < |u| ==> VecAdd(u, VecScale(-1.0, v))[k] == VecSub(u, v)[k];
  }
}
