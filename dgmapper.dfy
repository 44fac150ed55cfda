/**
 * DGMapper from fem/dgspace/dgmapper.hh: maps (element, local dof number) to
 * the global dof number of a discontinuous Galerkin space, where every
 * element owns numberOfDofs consecutive dofs.  The grid's index set is an
 * abstract collaborator given by its functions.
 */
module DGMappers {

  /** C++ integer division and remainder, which truncate toward zero. */
  function CDiv(a: int, b: int): int
    requires b != 0
  {
    if a >= 0 then (if b > 0 then a / b else -(a / -b))
    else (if b > 0 then -((-a) / b) else (-a) / (-b))
  }

  function CMod(a: int, b: int): int
    requires b != 0
  {
    a - CDiv(a, b) * b
  }

  /** The index set of the grid the mapper queries (codimension 0 only). */
  datatype IndexSet<!E> = IndexSet(
    size: (int, int) -> int,              // size(level, codim)
    index: E -> int,                      // index<0>(en, 0): the element index
    oldSize: (int, int) -> int,           // oldSize(level, codim)
    additionalSizeEstimate: int,          // additionalSizeEstimate()
    indexNew: (int, int) -> bool,         // indexNew(num, codim)
    oldIndex: (int, int) -> int,          // oldIndex(num, codim)
    newIndex: (int, int) -> int)          // newIndex(num, codim)

  datatype BoundaryType = Dirichlet | Neumann

  /** The fields fixed at construction: indexSet_, numberOfDofs_, level_. */
  datatype DGMapper<!E> = DGMapper(indexSet: IndexSet<E>, numberOfDofs: int, level: int)

  /** The general constructor: numberOfDofs_ = numDof * dimRange. */
  function NewDGMapper<E>(indexSet: IndexSet<E>, numDof: int, dimRange: int, level: int): (mp: DGMapper<E>)
    ensures mp.indexSet == indexSet && mp.level == level
    ensures mp.numberOfDofs == numDof * dimRange
  {
    DGMapper(indexSet, numDof * dimRange, level)
  }

  /** The constructor of the specialisation for dimRange = 1: numberOfDofs_ = numDof. */
  function NewScalarDGMapper<E>(indexSet: IndexSet<E>, numDof: int, level: int): (mp: DGMapper<E>)
    ensures mp.indexSet == indexSet && mp.level == level
    ensures mp.numberOfDofs == numDof
  {
    DGMapper(indexSet, numDof, level)
  }

  /** numberOfDofs(). */
  function NumberOfDofs<E>(mp: DGMapper<E>): int
  {
    mp.numberOfDofs
  }

  /** The specialisation behaves as the general mapper with dimRange = 1. */
  lemma ScalarMapperIsGeneralMapper<E>(indexSet: IndexSet<E>, numDof: int, level: int)
    ensures NewScalarDGMapper(indexSet, numDof, level) == NewDGMapper(indexSet, numDof, 1, level)
    ensures NumberOfDofs(NewDGMapper(indexSet, numDof, 1, level)) == numDof
  {
  }

  /** size(): dofs per element times the number of elements on the level. */
  function Size<E>(mp: DGMapper<E>): int
  {
    mp.numberOfDofs * mp.indexSet.size(mp.level, 0)
  }

  /** newSize(), the size after the grid was adapted, is size(). */
  function NewSize<E>(mp: DGMapper<E>): int
  {
    Size(mp)
  }

  /** oldSize(). */
  function OldSize<E>(mp: DGMapper<E>): int
  {
    mp.numberOfDofs * mp.indexSet.oldSize(mp.level, 0)
  }

  /** additionalSizeEstimate(). */
  function AdditionalSizeEstimate<E>(mp: DGMapper<E>): int
  {
    mp.numberOfDofs * mp.indexSet.additionalSizeEstimate
  }

  /**
   * size(), oldSize() and additionalSizeEstimate() count whole blocks of
   * numberOfDofs dofs: dividing by numberOfDofs gives back the index set's
   * element count.
   */
  lemma {:induction false} SizesCountDofBlocks<E>(mp: DGMapper<E>)
    requires mp.numberOfDofs > 0
    ensures Size(mp) / mp.numberOfDofs == mp.indexSet.size(mp.level, 0)
    ensures OldSize(mp) / mp.numberOfDofs == mp.indexSet.oldSize(mp.level, 0)
    ensures AdditionalSizeEstimate(mp) / mp.numberOfDofs == mp.indexSet.additionalSizeEstimate
  {
    var nd := mp.numberOfDofs;
    ExactQuotient(mp.indexSet.size(mp.level, 0), nd);
    ExactQuotient(mp.indexSet.oldSize(mp.level, 0), nd);
    ExactQuotient(mp.indexSet.additionalSizeEstimate, nd);
  }

  lemma ExactQuotient(c: int, nd: int)
    requires nd > 0
    ensures (nd * c) / nd == c
  {
    var q, r := (nd * c) / nd, (nd * c) % nd;
    assert nd * c == q * nd + r && 0 <= r < nd;
    if q < c {
      MulMonotone(q + 1, c, nd);
    } else if q > c {
      MulMonotone(c + 1, q, nd);
    }
  }

  /** boundaryType(id): negative boundary ids are Dirichlet, all others Neumann. */
  function BoundaryTypeOf(id: int): (b: BoundaryType)
    ensures b == Dirichlet <==> id < 0
    ensures b == Neumann <==> id >= 0
  {
    if id < 0 then Dirichlet else Neumann
  }

  /** mapToGlobal(en, localNum). */
  function MapToGlobal<E>(mp: DGMapper<E>, en: E, localNum: int): int
  {
    mp.indexSet.index(en) * mp.numberOfDofs + localNum
  }

  /** The dofs of element e fill the block [e*nd, (e+1)*nd). */
  lemma BlockBounds(e: int, l: int, nd: int)
    requires 0 <= l < nd
    ensures e * nd <= e * nd + l < (e + 1) * nd
  {
  }

  /** mapToGlobal(en, l) lies in the block of numberOfDofs indices that belongs to en. */
  lemma MapToGlobalInBlock<E>(mp: DGMapper<E>, en: E, localNum: int)
    requires 0 <= localNum < mp.numberOfDofs
    ensures mp.indexSet.index(en) * mp.numberOfDofs <= MapToGlobal(mp, en, localNum)
    ensures MapToGlobal(mp, en, localNum) < (mp.indexSet.index(en) + 1) * mp.numberOfDofs
  {
    BlockBounds(mp.indexSet.index(en), localNum, mp.numberOfDofs);
  }

  /**
   * For an element index in [0, count) and a local number in
   * [0, numberOfDofs), mapToGlobal lies in [0, size()), which is also
   * [0, newSize()) after an adaptation.
   */
  lemma {:induction false} MapToGlobalInRange<E>(mp: DGMapper<E>, en: E, localNum: int)
    requires 0 <= localNum < mp.numberOfDofs
    requires 0 <= mp.indexSet.index(en) < mp.indexSet.size(mp.level, 0)
    ensures 0 <= MapToGlobal(mp, en, localNum) < Size(mp)
    ensures MapToGlobal(mp, en, localNum) < NewSize(mp)
  {
    var e, nd, count := mp.indexSet.index(en), mp.numberOfDofs, mp.indexSet.size(mp.level, 0);
    BlockBounds(e, localNum, nd);
    assert 0 <= e * nd by { MulNonNegative(e, nd); }
    assert (e + 1) * nd <= count * nd by { MulMonotone(e + 1, count, nd); }
  }

  lemma MulNonNegative(a: int, b: int)
    requires 0 <= a && 0 <= b
    ensures 0 <= a * b
  {
  }

  lemma MulMonotone(a: int, b: int, c: int)
    requires a <= b && 0 <= c
    ensures a * c <= b * c
  {
    assert b * c - a * c == (b - a) * c;
    MulNonNegative(b - a, c);
  }

  /**
   * Distinct (element index, local number) pairs with local numbers in
   * [0, numberOfDofs) are mapped to distinct global numbers.
   */
  lemma {:induction false} MapToGlobalInjective<E>(mp: DGMapper<E>, en1: E, l1: int, en2: E, l2: int)
    requires 0 <= l1 < mp.numberOfDofs && 0 <= l2 < mp.numberOfDofs
    requires mp.indexSet.index(en1) != mp.indexSet.index(en2) || l1 != l2
    ensures MapToGlobal(mp, en1, l1) != MapToGlobal(mp, en2, l2)
  {
    var e1, e2, nd := mp.indexSet.index(en1), mp.indexSet.index(en2), mp.numberOfDofs;
    if e1 < e2 {
      BlockBounds(e1, l1, nd);
      BlockBounds(e2, l2, nd);
      MulMonotone(e1 + 1, e2, nd);
    } else if e2 < e1 {
      BlockBounds(e1, l1, nd);
      BlockBounds(e2, l2, nd);
      MulMonotone(e2 + 1, e1, nd);
    }
  }

  /** The element index the three dof-manager queries pass on, as written: num/nd + num%nd. */
  function DofToElementAsWritten(nd: int, num: int): int
    requires nd != 0
  {
    CDiv(num, nd) + CMod(num, nd)
  }

  /** The element index of global dof num, as evidently intended: num/nd. */
  function DofToElement(nd: int, num: int): int
    requires nd != 0
  {
    CDiv(num, nd)
  }

  /** indexNew(num). */
  function IndexNew<E>(mp: DGMapper<E>, num: int): bool
    requires mp.numberOfDofs != 0
  {
    mp.indexSet.indexNew(DofToElementAsWritten(mp.numberOfDofs, num), 0)
  }

  /** oldIndex(num). */
  function OldIndex<E>(mp: DGMapper<E>, num: int): int
    requires mp.numberOfDofs != 0
  {
    mp.indexSet.oldIndex(DofToElementAsWritten(mp.numberOfDofs, num), 0)
  }

  /** newIndex(num). */
  function NewIndex<E>(mp: DGMapper<E>, num: int): int
    requires mp.numberOfDofs != 0
  {
    mp.indexSet.newIndex(DofToElementAsWritten(mp.numberOfDofs, num), 0)
  }

  /**
   * As written, the element a dof-manager query passes on for dof l of the
   * element with index e is e + l: num/nd gives e and num%nd adds l.
   */
  lemma {:induction false} QueriedElementAsWritten(e: int, l: int, nd: int)
    requires 0 <= e && 0 <= l < nd
    ensures DofToElementAsWritten(nd, e * nd + l) == e + l
  {
    MulNonNegative(e, nd);
    assert CDiv(e * nd + l, nd) == (e * nd + l) / nd;
    DivOfBlock(e, l, nd);
  }

  /** indexNew(num) for dof l of element en asks the index set about element index(en) + l. */
  lemma IndexNewOfDof<E>(mp: DGMapper<E>, en: E, l: int)
    requires 0 <= l < mp.numberOfDofs && 0 <= mp.indexSet.index(en)
    ensures IndexNew(mp, MapToGlobal(mp, en, l)) == mp.indexSet.indexNew(mp.indexSet.index(en) + l, 0)
  {
    QueriedElementAsWritten(mp.indexSet.index(en), l, mp.numberOfDofs);
  }

  /** oldIndex(num) for dof l of element en asks the index set about element index(en) + l. */
  lemma OldIndexOfDof<E>(mp: DGMapper<E>, en: E, l: int)
    requires 0 <= l < mp.numberOfDofs && 0 <= mp.indexSet.index(en)
    ensures OldIndex(mp, MapToGlobal(mp, en, l)) == mp.indexSet.oldIndex(mp.indexSet.index(en) + l, 0)
  {
    QueriedElementAsWritten(mp.indexSet.index(en), l, mp.numberOfDofs);
  }

  /** newIndex(num) for dof l of element en asks the index set about element index(en) + l. */
  lemma NewIndexOfDof<E>(mp: DGMapper<E>, en: E, l: int)
    requires 0 <= l < mp.numberOfDofs && 0 <= mp.indexSet.index(en)
    ensures NewIndex(mp, MapToGlobal(mp, en, l)) == mp.indexSet.newIndex(mp.indexSet.index(en) + l, 0)
  {
    QueriedElementAsWritten(mp.indexSet.index(en), l, mp.numberOfDofs);
  }

  /** The element and local number are recovered from a global dof number. */
  lemma {:induction false} DofToElementRecoversElement<E>(mp: DGMapper<E>, en: E, localNum: int)
    requires 0 <= localNum < mp.numberOfDofs
    requires 0 <= mp.indexSet.index(en)
    ensures DofToElement(mp.numberOfDofs, MapToGlobal(mp, en, localNum)) == mp.indexSet.index(en)
    ensures CMod(MapToGlobal(mp, en, localNum), mp.numberOfDofs) == localNum
  {
    var e, nd := mp.indexSet.index(en), mp.numberOfDofs;
    var g := e * nd + localNum;
    MulNonNegative(e, nd);
    assert CDiv(g, nd) == g / nd;
    DivOfBlock(e, localNum, nd);
  }

  lemma DivOfBlock(e: int, l: int, nd: int)
    requires 0 <= e && 0 <= l < nd
    ensures (e * nd + l) / nd == e
  {
    var g := e * nd + l;
    var q, r := g / nd, g % nd;
    assert g == q * nd + r && 0 <= r < nd;
    if q < e {
      MulMonotone(q + 1, e, nd);
    } else if q > e {
      MulMonotone(e + 1, q, nd);
    }
  }

  /**
   * As written, the dof-manager queries are not about the dof's element: with
   * two dofs per element and an index set that answers oldIndex(1) = 1,
   * oldIndex of dof 1 (element 0, local number 1) answers 1, as if the dof
   * belonged to element 1; the intended element index is 0.
   */
  lemma AsWrittenQueriesWrongElement<E>(mp: DGMapper<E>, en: E)
    requires mp.numberOfDofs == 2 && mp.indexSet.index(en) == 0
    requires mp.indexSet.oldIndex(1, 0) == 1
    ensures MapToGlobal(mp, en, 1) == 1
    ensures OldIndex(mp, MapToGlobal(mp, en, 1)) == 1
    ensures DofToElement(mp.numberOfDofs, MapToGlobal(mp, en, 1)) == 0
  {
    assert MapToGlobal(mp, en, 1) == 1 by {
      assert mp.indexSet.index(en) * mp.numberOfDofs == 0;
    }
    DofOneOfTwo();
  }

  lemma DofOneOfTwo()
    ensures DofToElementAsWritten(2, 1) == 1 && DofToElement(2, 1) == 0
  {
  }
}
