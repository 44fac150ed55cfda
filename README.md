# DUNE core pieces in Dafny

This project models seven parts of an early DUNE / dune-fem code base and
proves what they promise:

- **ParameterTree** (`dune/common/parametertree.cc`): a tree of string
  parameters addressed by dotted keys such as `grid.refinement`. It covers
  `hasKey`/`hasSub`, the const and non-const `sub`, and get-or-create
  `operator[]` with its insertion-ordered key lists. It also covers the
  `get` overloads with their `atoi` conversions, the throwing `get<T>`, and
  `ltrim`/`rtrim`.
- **FieldMatrix** (as exercised by `dune/common/test/fmatrixtest.cc`): an
  n-by-m matrix stored in an `array2<real>`. It covers the matrix-vector
  products (`mv`, `umv`, `mmv`, `usmv` and their transposed and hermitian
  forms), `=`, `+=`, `-=`, `*=`, `axpy`, `rightmultiply`, `leftmultiply`,
  `rightmultiplyany`, `leftmultiplyany`, the norms and the determinant. The
  checks of the test program are replayed as methods that are proved to
  pass.
- **DiscFuncTest** (`fem/discretefunction.hh`): per-level dof arrays.
  - The constructor zero-fills the occupied levels.
  - `set`, `setAll`, `clear`, `dbegin` and `dend` work on one level.
  - The DiscreteFunctionDefault arithmetic (`scalarProductDofs`, `assign`,
    `operator=`, `+=`, `-=`, `*=`, `add`) runs over the finest level.
- **DGMapper** (`fem/dgspace/dgmapper.hh`): the dof index arithmetic of a
  discontinuous Galerkin space over an abstract grid index set.
- **ParameterizedObjectFactory** (`dune/common/parameterizedobject.hh`): a
  key-to-creator registry.
- **check_predicate_tuple** (`dune/common/tuples/checkpredicate.hh`) and
  **EnumerationTuple** (`dune/common/tuples/enumeration.hh`). A tuple is a
  sequence, and a type-level integer sequence is a `seq<int>`.

Objects whose fields the C++ code updates in place are Dafny classes:
`ParameterTree`, `FieldMatrix`, `DiscFuncTest`, `ParameterizedObjectFactory`
and `CheckPredicateFunctor`. Their methods are proved against pure
specification functions: `Index` and `Store` for the tree; `Apply`,
`ApplyT`, `Mul`, `MatAdd`, `Dot` and the others in `DenseAlgebra` for the
matrices and dofs. Compile-time recursion and pure index arithmetic are
functions and lemmas. Scalars are exact reals. Integers are unbounded, and
C++ truncating division is written out as `CDiv`/`CMod`.

Files: `wrappers.dfy` (Result), `parametertree.dfy`, `dense.dfy`,
`fieldmatrix.dfy`, `fmatrixtest.dfy`, `discretefunction.dfy`,
`dgmapper.dfy`, `factory.dfy`, `checkpredicate.dfy`, `enumeration.dfy`.

## Model

| member | source | states |
|---|---|---|
| ParameterTrees.Find | dune/common/parametertree.cc:51 | `find('.')`: the position of the first occurrence of the character, or NPos exactly when it does not occur |
| ParameterTrees.FindFirstNotOfFrom | dune/common/parametertree.cc:219 | `find_first_not_of`: the first position from `from` on whose character is not in the set; NPos iff every remaining character is in it |
| ParameterTrees.FindLastNotOfUpTo | dune/common/parametertree.cc:228 | `find_last_not_of`: the last position below the bound whose character is not in the set; NPos iff all are in it |
| ParameterTrees.LTrim | dune/common/parametertree.cc:217-224 | the result is a suffix of the input, everything cut off is whitespace (space, tab, newline, return) and the result does not start with whitespace; empty if all is whitespace |
| ParameterTrees.RTrim | dune/common/parametertree.cc:226-233 | the result is a prefix of the input, everything cut off is whitespace and the result does not end with whitespace |
| ParameterTrees.LTrimIdempotent | dune/common/parametertree.cc:217-224 | trimming on the left twice equals trimming once |
| ParameterTrees.RTrimIdempotent | dune/common/parametertree.cc:226-233 | trimming on the right twice equals trimming once |
| ParameterTrees.SplitAtDot | dune/common/parametertree.cc:51-60 | a key splits at its dot into prefix, "." and rest, and reassembles to itself |
| ParameterTrees.HasKeyResolvesPath | dune/common/parametertree.cc:49-81 | `hasKey("p.rest")` (and `hasSub`) is true iff sub-tree p exists and has key `rest` (sub `rest`) |
| ParameterTrees.EmptyTreeHasNoKey | dune/common/parametertree.cc:49-64 | a fresh tree has no key |
| ParameterTrees.Index | dune/common/parametertree.cc:109-126 | after `operator[](key)` the key exists |
| ParameterTrees.IndexNewKeyIsEmpty | dune/common/parametertree.cc:109-126 | a key created by `operator[]` holds the empty string, creating the sub-trees along the path |
| ParameterTrees.IndexExistingKeyUnchanged | dune/common/parametertree.cc:109-126 | `operator[]` on an existing key changes nothing |
| ParameterTrees.DifferentKeysDifferentParts | dune/common/parametertree.cc:51-60 | two dotted keys with the same prefix and rest are the same key |
| ParameterTrees.IndexKeepsOtherKeys | dune/common/parametertree.cc:109-126 | `operator[](key)` neither adds nor removes nor changes any other key |
| ParameterTrees.IndexPreservesValid | dune/common/parametertree.cc:115-124 | `operator[]` keeps valueKeys and subKeys free of duplicates and equal to the key sets of values and subs, at every level |
| ParameterTrees.IndexAppendsNewPrefix | dune/common/parametertree.cc:109-120 | a dotted key whose prefix is new appends the prefix at the end of subKeys and leaves valueKeys alone |
| ParameterTrees.IndexKeepsKnownPrefix | dune/common/parametertree.cc:109-120 | a dotted key whose prefix is already a sub-tree leaves subKeys and valueKeys as they were |
| ParameterTrees.IndexAppendsNewKey | dune/common/parametertree.cc:121-124 | a new plain key is appended at the end of valueKeys (first-insertion order) and subKeys stays as it was |
| ParameterTrees.Get | dune/common/parametertree.cc:128-142 | `get(key, default)` is the stored value if hasKey(key), else the default |
| ParameterTrees.GetIntDefault | dune/common/parametertree.cc:145-152 | `get(key, int)` of a missing key is the default |
| ParameterTrees.GetIntPresent | dune/common/parametertree.cc:145-152 | `get(key, int)` of a present key is `atoi` of its text |
| ParameterTrees.GetBoolMeaning | dune/common/parametertree.cc:162-173 | `get(key, bool)` is the default when missing, else whether `atoi` of the text is non-zero |
| ParameterTrees.GetString | dune/common/parametertree.cc:178-185 | `get<string>` fails with a range error naming the key iff the key is missing, else returns the value |
| ParameterTrees.GetIntValue | dune/common/parametertree.cc:187-194 | `get<int>` fails with a range error iff the key is missing |
| ParameterTrees.GetBoolValue | dune/common/parametertree.cc:205-212 | `get<bool>` fails with a range error iff the key is missing |
| ParameterTrees.TypedGetPresent | dune/common/parametertree.cc:187-212 | on a present key `get<int>` is `atoi` of the value and `get<bool>` is `atoi(...) != 0` |
| ParameterTrees.SkipSpace | dune/common/parametertree.cc:150 | `atoi` skips exactly the leading run of C white space (space, \t, \n, \v, \f, \r): every skipped character is white space and the rest does not start with one |
| ParameterTrees.DigitRun | dune/common/parametertree.cc:150 | the digits `atoi` reads are the maximal run of decimal digits |
| ParameterTrees.DigitChar | dune/common/parametertree.cc:148 | the digit character of d reads back as d |
| ParameterTrees.NatToString | dune/common/parametertree.cc:148 | the decimal text of a number written into the default is a non-empty digit string |
| ParameterTrees.DigitsValueOfNatToString | dune/common/parametertree.cc:148-150 | reading the decimal text of n gives n |
| ParameterTrees.DigitRunOfDigits | dune/common/parametertree.cc:150 | on an all-digit string `atoi` reads all of it |
| ParameterTrees.LeadingValueOfNatToString | dune/common/parametertree.cc:148-150 | the leading number of the decimal text of n is n |
| ParameterTrees.SkipSpaceStopsAt | dune/common/parametertree.cc:150 | text starting with a digit or '-' has no white space to skip |
| ParameterTrees.AtoiOfNatText | dune/common/parametertree.cc:148-150 | `atoi` of the text of a natural number is that number |
| ParameterTrees.AtoiOfNegativeText | dune/common/parametertree.cc:148-150 | `atoi` of "-" followed by the text of n is -n |
| ParameterTrees.AtoiOfIntToString | dune/common/parametertree.cc:145-152 | writing an int default as text and reading it back with `atoi` gives the int |
| ParameterTrees.SubCreateAsWritten | dune/common/parametertree.cc:83-94 | the non-const `sub(key)` as written creates the sub-tree along the path but leaves subKeys, values and valueKeys as they were |
| ParameterTrees.SubCreate | dune/common/parametertree.cc:83-94 | the corrected `sub(key)` creates the sub-tree and keeps the key lists in step with the maps |
| ParameterTrees.SubAsWrittenLosesSubKey | dune/common/parametertree.cc:83-94 | on an empty tree, `sub("a")` as written creates sub-tree a, but getSubKeys stays empty, so the tree violates the key-list invariant |
| ParameterTrees.ParameterTree.constructor | dune/common/parametertree.cc:109-126 | a new tree is empty and satisfies the key-list invariant |
| ParameterTrees.ParameterTree.At | dune/common/parametertree.cc:109-126 | `operator[]` changes the object as `Index` does: an existing key gives its value with no change, a new key gives "", and the key-list invariant is kept |
| ParameterTrees.ParameterTree.Assign | dune/common/parametertree.cc:109-126 | `tree[key] = v` leaves v under key, adds no other key, keeps every other key's value, and keeps the key-list invariant |
| ParameterTrees.Store | dune/common/parametertree.cc:109-126 | a write through the reference `operator[]` returns adds and removes no key and leaves the key lists alone, at the top level and in every nested sub-tree |
| ParameterTrees.StoreThenLookup | dune/common/parametertree.cc:109-126 | after writing v through the reference for key, the key holds v |
| ParameterTrees.StoreKeepsOtherKeys | dune/common/parametertree.cc:109-126 | writing through the reference for key leaves every other key present or absent as before, with its value |
| ParameterTrees.StorePreservesValid | dune/common/parametertree.cc:109-126 | writing through the reference keeps the key lists duplicate-free and equal to the map domains |
| ParameterTrees.SubTree | dune/common/parametertree.cc:96-107 | the const `sub(key)` of a valid tree is a valid tree |
| ParameterTrees.SubTreeResolvesKey | dune/common/parametertree.cc:49-107 | the tree has key p.k iff it has the sub-tree p (the const `sub(p)`) and that has k, with the same value |
| ParameterTrees.ParameterTree.Sub | dune/common/parametertree.cc:83-94 | the non-const `sub` changes the object as the as-written model does and returns the sub-tree |
| ParameterTrees.ParameterTree.GetValueKeys | dune/common/parametertree.cc:235-238 | in a valid tree, `getValueKeys` lists every plain key of the level exactly once |
| ParameterTrees.ParameterTree.GetSubKeys | dune/common/parametertree.cc:240-243 | in a valid tree, `getSubKeys` lists every sub-tree name of the level exactly once |
| DenseAlgebra.DotProduct | dune/common/test/fmatrixtest.cc:163-173 | the accumulating loop computes the scalar product |
| DenseAlgebra.OneNorm | dune/common/test/fmatrixtest.cc:271-274 | the one-norm of a row is non-negative and 0 iff every entry is 0 |
| DenseAlgebra.InfinityNorm | dune/common/test/fmatrixtest.cc:273-274 | `infinity_norm` is non-negative and 0 iff every entry is 0 |
| DenseAlgebra.FrobeniusNorm2 | dune/common/test/fmatrixtest.cc:272 | `frobenius_norm2` is non-negative, and 0 for the zero matrix |
| DenseAlgebra.SquareSum | dune/common/test/fmatrixtest.cc:272 | the sum of squares of a row is non-negative, and 0 for a zero row |
| DenseAlgebra.Minor | dune/common/test/fmatrixtest.cc:362-381 | the minor drops row 0 and column j, entry by entry |
| FieldMatrices.FieldMatrix.Entries | dune/common/test/fmatrixtest.cc:189-191 | the entries seen through `A[i][j]` form an n-by-m matrix whose rows are the stored rows |
| FieldMatrices.FieldMatrix.ColumnOfEntries | dune/common/test/fmatrixtest.cc:189-191 | column j of the entries is the stored column j |
| FieldMatrices.FieldMatrix.constructor | dune/common/test/fmatrixtest.cc:283 | a matrix copy-constructed from entries has exactly those entries |
| FieldMatrices.FieldMatrix.Mv | dune/common/test/fmatrixtest.cc:163 | `mv(x, y)` sets y to A x |
| FieldMatrices.FieldMatrix.Umv | dune/common/test/fmatrixtest.cc:165 | `umv(x, y)` sets y to y + A x |
| FieldMatrices.FieldMatrix.Mmv | dune/common/test/fmatrixtest.cc:168 | `mmv(x, y)` sets y to y - A x |
| FieldMatrices.FieldMatrix.Usmv | dune/common/test/fmatrixtest.cc:171 | `usmv(alpha, x, y)` sets y to y + alpha A x |
| FieldMatrices.FieldMatrix.Mtv | dune/common/test/fmatrixtest.cc:164 | `mtv(x, y)` sets y to A^T x |
| FieldMatrices.FieldMatrix.Umtv | dune/common/test/fmatrixtest.cc:166 | `umtv(x, y)` sets y to y + A^T x |
| FieldMatrices.FieldMatrix.Mmtv | dune/common/test/fmatrixtest.cc:169 | `mmtv(x, y)` sets y to y - A^T x |
| FieldMatrices.FieldMatrix.Usmtv | dune/common/test/fmatrixtest.cc:172 | `usmtv(alpha, x, y)` sets y to y + alpha A^T x |
| FieldMatrices.FieldMatrix.Umhv | dune/common/test/fmatrixtest.cc:167 | `umhv` equals `umtv` for real entries |
| FieldMatrices.FieldMatrix.Mmhv | dune/common/test/fmatrixtest.cc:170 | `mmhv` equals `mmtv` for real entries |
| FieldMatrices.FieldMatrix.Usmhv | dune/common/test/fmatrixtest.cc:173 | `usmhv` equals `usmtv` for real entries |
| FieldMatrices.FieldMatrix.Fill | dune/common/test/fmatrixtest.cc:187 | `A = k` sets every entry to k |
| FieldMatrices.FieldMatrix.AddAssign | dune/common/test/fmatrixtest.cc:287 | `+=` adds entry by entry |
| FieldMatrices.FieldMatrix.SubAssign | dune/common/test/fmatrixtest.cc:288 | `-=` subtracts entry by entry |
| FieldMatrices.FieldMatrix.ScaleAssign | dune/common/test/fmatrixtest.cc:284 | `*= k` scales every entry |
| FieldMatrices.FieldMatrix.Axpy | dune/common/test/fmatrixtest.cc:297 | `axpy(k, X)` sets A to A + k X |
| FieldMatrices.FieldMatrix.RightMultiply | dune/common/test/fmatrixtest.cc:328-329 | `rightmultiply(B)` replaces A by the product A B |
| FieldMatrices.FieldMatrix.LeftMultiply | dune/common/test/fmatrixtest.cc:345-346 | `leftmultiply(C)` replaces A by the product C A |
| FieldMatrices.FieldMatrix.RightMultiplyAny | dune/common/test/fmatrixtest.cc:322 | `rightmultiplyany(B)` of an n-by-m matrix and an m-by-p B is n-by-p |
| FieldMatrices.FieldMatrix.LeftMultiplyAny | dune/common/test/fmatrixtest.cc:339 | `leftmultiplyany(C)` of a k-by-n C is k-by-m |
| FMatrixTest.TriangleClosedForm | dune/common/test/fmatrixtest.cc:325 | 0 + 1 + ... + (k-1) is k(k-1)/2 |
| FMatrixTest.DotFlatRamp | dune/common/test/fmatrixtest.cc:325 | a constant row c times the column (0, 1, ..., len-1) is c len(len-1)/2 |
| FMatrixTest.TriangleTimes | dune/common/test/fmatrixtest.cc:325 | i times the triangle number of k equals the integer i*k*(k-1)/2 the test compares with |
| FMatrixTest.RowIndexMatrix | dune/common/test/fmatrixtest.cc:303-320 | the test matrices have entry i in row i |
| FMatrixTest.RightMultiplyAnyClosedForm | dune/common/test/fmatrixtest.cc:322-326 | every entry (i, j) of A B is `i*n*(n+1)/2` |
| FMatrixTest.LeftMultiplyAnyClosedForm | dune/common/test/fmatrixtest.cc:339-343 | every entry (i, j) of C A is `i*n*(n-1)/2` |
| FMatrixTest.DifferenceOfEqualHasNormZero | dune/common/test/fmatrixtest.cc:330-331 | a matrix minus an equal one has infinity norm 0 |
| FMatrixTest.CheckRightMultiplyAny | dune/common/test/fmatrixtest.cc:322-326 | the rightmultiplyany check passes for every n |
| FMatrixTest.RightMultiplyMatchesProduct | dune/common/test/fmatrixtest.cc:328-332 | in-place rightmultiply minus the product has norm 0 |
| FMatrixTest.LeftMultiplyMatchesProduct | dune/common/test/fmatrixtest.cc:345-349 | in-place leftmultiply minus the product has norm 0 |
| FMatrixTest.CopyMatchesProduct | dune/common/test/fmatrixtest.cc:334-337 | a copy of the product minus the product has norm 0 |
| FMatrixTest.CheckRightMultiply | dune/common/test/fmatrixtest.cc:328-337 | the rightmultiply and B.leftmultiplyany(A) checks pass for every n |
| FMatrixTest.CheckLeftMultiplyAny | dune/common/test/fmatrixtest.cc:339-343 | the leftmultiplyany check passes for every n |
| FMatrixTest.CheckLeftMultiply | dune/common/test/fmatrixtest.cc:345-354 | the leftmultiply and C.rightmultiplyany(A) checks pass for every n |
| FMatrixTest.AddThenSubtractDouble | dune/common/test/fmatrixtest.cc:282-291 | A + A - 2A has infinity norm 0 |
| FMatrixTest.AxpyThenSubtractTriple | dune/common/test/fmatrixtest.cc:292-301 | A + 2A - 3A has infinity norm 0 |
| FMatrixTest.CheckAddSub | dune/common/test/fmatrixtest.cc:282-291 | the +=/-= check passes for every matrix |
| FMatrixTest.CheckAxpy | dune/common/test/fmatrixtest.cc:292-301 | the axpy check passes for every matrix, with B aliased as its own operand |
| FMatrixTest.CheckMvAgainstUmv | dune/common/test/fmatrixtest.cc:233-247 | `mv` into any vector and `umv` into a zero vector give the same result |
| FMatrixTest.CheckGivenSolution | dune/common/test/fmatrixtest.cc:90-99 | when A x = b, `b.mmv`-style residual b - A x has infinity norm 0 |
| FMatrixTest.CheckGivenInverse | dune/common/test/fmatrixtest.cc:51-61 | when A inv = I, A inv minus the identity has infinity norm 0 |
| FMatrixTest.Dot3 | dune/common/test/fmatrixtest.cc:91-93 | a 3-entry scalar product written out |
| FMatrixTest.Mul3 | dune/common/test/fmatrixtest.cc:52-53 | a 3-by-3 product written out entry by entry |
| FMatrixTest.Apply3 | dune/common/test/fmatrixtest.cc:91-93 | a 3-by-3 matrix times a vector written out |
| FMatrixTest.IsIdentity3 | dune/common/test/fmatrixtest.cc:54-55 | a 3-by-3 matrix with ones on the diagonal and zeros elsewhere is the identity |
| FMatrixTest.GivenInversesAreExact | dune/common/test/fmatrixtest.cc:130-155 | each of the four test matrices times its given inverse is exactly the identity |
| FMatrixTest.GivenSolutionsAreExact | dune/common/test/fmatrixtest.cc:130-155 | each of the four test matrices times its given x is exactly its b |
| FMatrixTest.CheckInvertSolveProducts | dune/common/test/fmatrixtest.cc:52-61 | the given-inverse and given-solution checks pass for all four data sets |
| FMatrixTest.Det1 | dune/common/test/fmatrixtest.cc:362-381 | the determinant of a 1-by-1 matrix is its entry |
| FMatrixTest.Det2 | dune/common/test/fmatrixtest.cc:362-381 | the determinant of a 2-by-2 matrix is ad - bc |
| FMatrixTest.Det3 | dune/common/test/fmatrixtest.cc:362-381 | the 3-by-3 determinant by the rule of Sarrus |
| FMatrixTest.Det4 | dune/common/test/fmatrixtest.cc:362-381 | the 4-by-4 determinant as the first-row expansion |
| FMatrixTest.DeterminantOfFirstMatrix | dune/common/test/fmatrixtest.cc:362-371 | the first test matrix has determinant -2 |
| FMatrixTest.DeterminantOfSecondMatrix | dune/common/test/fmatrixtest.cc:373-381 | the second test matrix has determinant 0 |
| DiscreteFunctions.Traversed | fem/discretefunction.hh:444-456 | the dofs visited between two iterators of one array are that array's entries between their positions, in order |
| DiscreteFunctions.ZeroFilled | fem/discretefunction.hh:376-379 | a resized-and-zeroed level array holds `length` zeros |
| DiscreteFunctions.DiscFuncTest.Operand | fem/discretefunction.hh:185-199 | the dofs of g read during an iteration are g's first dofs on the finest level, one per dof of this |
| DiscreteFunctions.DiscFuncTest.constructor | fem/discretefunction.hh:359-387 | one fresh array per grid level; levels below levOcu-1 and `level` hold spaceSize zeros, the others are empty; levOcu is level+1 if flag, else 1 |
| DiscreteFunctions.DiscFuncTest.IterationCoversLevel | fem/discretefunction.hh:444-456 | iterating from dbegin(l) to dend(l) visits exactly the dofs of level l, in order |
| DiscreteFunctions.DiscFuncTest.ScalarProductDofs | fem/discretefunction.hh:185-199 | `scalarProductDofs(g)` is the sum over the finest-level dofs of this[i]·g[i], from 0 |
| DiscreteFunctions.DiscFuncTest.Assign | fem/discretefunction.hh:201-216 | `assign(g)` copies g's dofs into this |
| DiscreteFunctions.DiscFuncTest.CopyAssign | fem/discretefunction.hh:218-233 | `operator=(g)` copies g's dofs into this |
| DiscreteFunctions.DiscFuncTest.AddAssign | fem/discretefunction.hh:235-250 | `+= g` adds g's dofs dof by dof |
| DiscreteFunctions.DiscFuncTest.SubAssign | fem/discretefunction.hh:252-267 | `-= g` subtracts g's dofs dof by dof |
| DiscreteFunctions.DiscFuncTest.ScaleAssign | fem/discretefunction.hh:269-279 | `*= s` multiplies every dof by s |
| DiscreteFunctions.DiscFuncTest.Add | fem/discretefunction.hh:285-300 | `add(g, s)` sets each dof to dof + g[i]·s |
| DiscreteFunctions.DiscFuncTest.Clear | fem/discretefunction.hh:458-464 | `clear()` sets every dof of `level` to 0 and leaves every other level unchanged |
| DiscreteFunctions.DiscFuncTest.Set | fem/discretefunction.hh:389-402 | `set(x, l)` changes nothing when not all levels are stored and l is not `level`, whatever int l is; otherwise every dof of level l becomes x; other levels never change |
| DiscreteFunctions.DiscFuncTest.SetAll | fem/discretefunction.hh:466-468 | `setAll(x)` sets every dof of `level` to x and no other level |
| DiscreteFunctions.DotSymmetric | fem/discretefunction.hh:185-199 | the scalar product of dofs is symmetric |
| DiscreteFunctions.DotAddLeft | fem/discretefunction.hh:185-199 | after `+= w`, the scalar product with g is the sum of the two scalar products |
| DiscreteFunctions.DotScaleLeft | fem/discretefunction.hh:269-279 | after `*= k`, the scalar product is k times the old one |
| DiscreteFunctions.DotZeros | fem/discretefunction.hh:458-464 | a zero dof vector has scalar product 0 with any vector |
| DiscreteFunctions.AddThenSubtract | fem/discretefunction.hh:235-267 | `+= g` followed by `-= g` restores the dofs |
| DiscreteFunctions.AddWithUnitScalar | fem/discretefunction.hh:285-300 | `add(g, 1)` is `+= g` and `add(g, -1)` is `-= g` |
| DGMappers.NewDGMapper | fem/dgspace/dgmapper.hh:28-29 | the constructor keeps the index set and level and sets numberOfDofs to numDof·dimRange |
| DGMappers.NewScalarDGMapper | fem/dgspace/dgmapper.hh:128-129 | the dimRange=1 constructor keeps the index set and level and sets numberOfDofs to numDof |
| DGMappers.ScalarMapperIsGeneralMapper | fem/dgspace/dgmapper.hh:116-210 | the dimRange=1 specialisation is the general mapper with dimRange 1, and its numberOfDofs is numDof |
| DGMappers.SizesCountDofBlocks | fem/dgspace/dgmapper.hh:34-38 | for numberOfDofs > 0, size, oldSize and additionalSizeEstimate divided by numberOfDofs give back the index set's counts: they count whole blocks of dofs |
| DGMappers.BoundaryTypeOf | fem/dgspace/dgmapper.hh:42-46 | Dirichlet iff the id is negative, Neumann iff it is not |
| DGMappers.MapToGlobalInBlock | fem/dgspace/dgmapper.hh:51-57 | `mapToGlobal(en, l)` lies in [index(en)·numberOfDofs, (index(en)+1)·numberOfDofs) |
| DGMappers.MapToGlobalInRange | fem/dgspace/dgmapper.hh:51-74 | for a valid element index and local number, `mapToGlobal` lies in [0, size()) and below `newSize()` |
| DGMappers.MapToGlobalInjective | fem/dgspace/dgmapper.hh:51-57 | distinct (element, local number) pairs map to distinct global indices |
| DGMappers.DofToElementRecoversElement | fem/dgspace/dgmapper.hh:77-95 | the corrected element index num/numberOfDofs of `mapToGlobal(en, l)` is en's index, and the remainder is l |
| DGMappers.QueriedElementAsWritten | fem/dgspace/dgmapper.hh:77-95 | as written, dof l of the element with index e makes the queries use element e + l |
| DGMappers.IndexNewOfDof | fem/dgspace/dgmapper.hh:77-81 | `indexNew` of dof l of element en asks the index set about element index(en) + l |
| DGMappers.OldIndexOfDof | fem/dgspace/dgmapper.hh:84-88 | `oldIndex` of dof l of element en asks the index set about element index(en) + l |
| DGMappers.NewIndexOfDof | fem/dgspace/dgmapper.hh:91-95 | `newIndex` of dof l of element en asks the index set about element index(en) + l |
| DGMappers.AsWrittenQueriesWrongElement | fem/dgspace/dgmapper.hh:84-88 | with two dofs per element, dof 1 of element 0 makes `oldIndex` as written query element 1, not element 0 |
| DGMappers.DofOneOfTwo | fem/dgspace/dgmapper.hh:79 | for num = 1 and two dofs per element, `num/nd + num%nd` is 1 while the element is 0 |
| ParameterizedObjects.CreateFrom | dune/common/parameterizedobject.hh:50-58 | `create` fails with InvalidStateException iff the key is not registered, else calls the registered creator with the arguments |
| ParameterizedObjects.ParameterizedObjectFactory.constructor | dune/common/parameterizedobject.hh:50-58 | a new factory has an empty registry |
| ParameterizedObjects.ParameterizedObjectFactory.Create | dune/common/parameterizedobject.hh:50-58 | `create` throws for an unknown key, calls the registered creator otherwise, and does not change the registry |
| ParameterizedObjects.ParameterizedObjectFactory.Define | dune/common/parameterizedobject.hh:67-72 | `define` sets (or replaces) the creator of key and nothing else |
| ParameterizedObjects.CreateAfterDefine | dune/common/parameterizedobject.hh:57-72 | after `define(key)`, `create(key)` calls that creator |
| ParameterizedObjects.DefineKeepsOtherKeys | dune/common/parameterizedobject.hh:67-72 | `define(key)` does not change `create` on any other key |
| ParameterizedObjects.CreateUndefined | dune/common/parameterizedobject.hh:50-56 | `create` on a new factory throws InvalidStateException |
| ParameterizedObjects.RedefineThenCreate | dune/common/parameterizedobject.hh:67-72 | defining a key twice makes `create` call the second creator, and `create` leaves the registry unchanged |
| CheckPredicate.CheckPredicateTuple | dune/common/tuples/checkpredicate.hh:32-46 | `CheckPredicateTuple<T,P,N>::value` is true iff P holds for each of the first N elements (true for N = 0) |
| CheckPredicate.CheckPredicateTupleValue | dune/common/tuples/checkpredicate.hh:32-38 | for the whole tuple, the value is true iff P holds for every element |
| CheckPredicate.CheckPredicateFunctor.AsWritten | dune/common/tuples/checkpredicate.hh:66-68 | the constructor as written starts with v = true and keeps a default-constructed predicate, not the argument |
| CheckPredicate.CheckPredicateFunctor.constructor | dune/common/tuples/checkpredicate.hh:66-68 | the corrected constructor starts with v = true and keeps the given predicate |
| CheckPredicate.CheckPredicateFunctor.Visit | dune/common/tuples/checkpredicate.hh:71-74 | `visit(x)` sets v to v && predicate(x) |
| CheckPredicate.ForEachValue | dune/common/tuples/checkpredicate.hh:95-97 | visiting every element leaves v = old v && P holds for all elements |
| CheckPredicate.CheckPredicateTupleAsWritten | dune/common/tuples/checkpredicate.hh:92-99 | as written, the result is whether the default predicate holds for all elements |
| CheckPredicate.CheckPredicateTupleIntended | dune/common/tuples/checkpredicate.hh:130-134 | corrected, `check_predicate_tuple` is true iff the given predicate holds for all elements |
| CheckPredicate.IgnoredPredicateChangesResult | dune/common/tuples/checkpredicate.hh:66-68 | for a tuple and a predicate that differs from its default value, the as-written result is false and the intended result is true |
| Enumeration.Max | dune/common/tuples/enumeration.hh:33-37 | `Max<N,M>` is one of N, M and at least both |
| Enumeration.Create | dune/common/tuples/enumeration.hh:39-61 | `Create<N,M,Args...>` is Args followed by M, M+1, ..., N-1 |
| Enumeration.TupleSize | dune/common/tuples/enumeration.hh:90-94 | `tuple_size` is length when it is non-negative, else 0 |
| Enumeration.TypeLength | dune/common/tuples/enumeration.hh:64 | the enumeration tuple has `tuple_size` elements |
| Enumeration.TypeElement | dune/common/tuples/enumeration.hh:79-83 | element i of the enumeration tuple is init + i, as `tuple_element` says |
| Enumeration.NonPositiveLengthIsEmpty | dune/common/tuples/enumeration.hh:64 | a length of 0 or less gives the empty tuple |
| Enumeration.ConsecutiveElements | dune/common/tuples/enumeration.hh:39-64 | consecutive elements differ by one |

## Left out

- Stream output: `ParameterTree::report` (dune/common/parametertree.cc:20-47), the matrix and vector printing in the test, `DiscFuncTest::print`, and the two `std::cout` lines of `DiscFuncTest::set` (fem/discretefunction.hh:391, 394).
- The non-const `sub(key)` returns a reference into the tree; `ParameterTree.Sub` returns a copy of the sub-tree, so writes made later through that reference are not modelled.
- The `dynamic_cast` of the `Vector` argument in `assign`, `operator=`, `+=`, `-=` and `add` (fem/discretefunction.hh:203, 220, 237, 254, 287): the operand is typed `DiscFuncTest`, so the `std::bad_cast` thrown for any other vector is not modelled.
- `get(key, double)` and `get<double>` (dune/common/parametertree.cc:154-160, 196-203): they parse with `atof`, which is floating point.
- `DiscFuncTest::save` and `load` (fem/discretefunction.hh:470-503): file I/O that scales doubles to ints.
- `operator/=` (fem/discretefunction.hh:281-283): a floating-point reciprocal, and the operator has no return statement.
- `evaluate`, `access`, `lfbegin` and `lfend` in discretefunction.hh: they depend on grid and local-function classes that are not part of this model.
- DiscreteFunctionDefault::clear (fem/discretefunction.hh:302-311) delegates to the implementation; only `DiscFuncTest::clear` is modelled.
- `invert`, `solve` and the float-tolerance comparison of their results (dune/common/test/fmatrixtest.cc:63-120): Gaussian elimination in floating point. Only the checks that the given inverse and solution are exact are modelled.
- `frobenius_norm` and `two_norm`: square roots of reals.
- The iterator walks of test_matrix (dune/common/test/fmatrixtest.cc:193-229): entries are reached through `Entries()` and `a[i, j]`.
- The `std::vector` and C-array operand kinds of test_mult: every operand vector is one `seq<real>`.
- fmatrix.hh is not part of this model. The test enables its run-time checking (`DUNE_ISTL_WITH_CHECKING`, dune/common/test/fmatrixtest.cc:6); those dimension checks, and whatever they throw, become `requires` on the sizes.
- Source and destination aliasing for FieldMatrix operands: an operand is a value. `B.axpy(2, B)` is still covered, because axpy works entry by entry.
- Complex and single-precision scalars (standardtest_complex_float.cc, the hermitian products): all scalars are exact reals, so `umhv` equals `umtv`.
- Integer scalars of `test_matrix<int, 10, 5>` (dune/common/test/fmatrixtest.cc:452): with int entries `usmv(0.5, …)` and its siblings truncate alpha to 0; the model's alpha is an exact real.
- Finite-precision integers: there is no `int` overflow in `i*n*(n+1)/2`, in `mapToGlobal` or in `atoi`.
- test_determinant returns 0 unconditionally (dune/common/test/fmatrixtest.cc:383), so its failure count never reaches the caller. The model proves the two determinants the test expects, not the return value.
- DenseAlgebra.FrobeniusNorm2: states non-negativity and "zero matrix gives 0" but not the converse, because the non-linear real fact `x*x == 0 ==> x == 0` is not proved here.
- DenseAlgebra.SquareSum: the same weaker statement as FrobeniusNorm2, for one row.
- Actual object construction in parameterizedobject.hh (`unique_ptr`): a creator is an opaque value, and `create` returns the pair of creator and arguments.
- configparser.hh, the tuple-storage test, the grid data handle, function.hh, the MPI test and the SIMD instantiation: declarations, interfaces or code outside this model.
- The grid index set of the DG mapper is an abstract set of functions (`index`, `size`, `oldIndex`, `newIndex`, `indexNew`, `oldSize`, `additionalSizeEstimate`).

## Findings

| source | as written | input that shows it | evidently intended | confidence | as-written member | corrected member |
|---|---|---|---|---|---|---|
| fem/dgspace/dgmapper.hh:77-95 | `indexNew`, `oldIndex` and `newIndex` pass `num/numberOfDofs + num%numberOfDofs` as the element index | numberOfDofs = 2, num = 1 (dof 1 of element 0): as written it queries element 1 | the element index `num/numberOfDofs`, which inverts `mapToGlobal` | not executed | DGMappers.AsWrittenQueriesWrongElement | DGMappers.DofToElementRecoversElement |
| dune/common/tuples/checkpredicate.hh:66-68 | the functor constructor ignores its `predicate` argument; `predicate_` is default-constructed | tuple [5], predicate "below 10" whose default-constructed value is "below 0": as written the result is false, intended true | store the given predicate | not executed | CheckPredicate.IgnoredPredicateChangesResult | CheckPredicate.CheckPredicateTupleIntended |
| dune/common/parametertree.cc:83-94 | the non-const `sub(key)` creates missing sub-trees with `subs[key]` but never appends the key to subKeys, unlike `operator[]` | an empty tree, `sub("a")`: `hasSub("a")` holds but `getSubKeys()` is empty | record new sub-tree names in subKeys | not executed | ParameterTrees.SubAsWrittenLosesSubKey | ParameterTrees.SubCreate |
