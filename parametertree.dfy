/**
 * ParameterTree from dune/common/parametertree.cc: a hierarchical string
 * dictionary.  A key "a.b.c" is split at its first '.' and resolved one level
 * at a time through nested sub-trees.  Every tree keeps, besides its two maps,
 * the keys of its values and of its sub-trees in first-insertion order.
 *
 * The C++ map of sub-trees holds them by value, so nested sub-trees are values
 * of the datatype Tree; the top-level object is the class ParameterTree, whose
 * fields operator[] and sub update in place.
 */
module ParameterTrees {
  import opened Wrappers

  // ---------------------------------------------------------------------
  // Character search, as std::string::find and find_first/last_not_of do it
  // ---------------------------------------------------------------------

  /** A position in a string, or std::string::npos. */
  datatype Position = NPos | At(index: nat)

  /** s.find(c, from): the first position at or after `from` that holds c. */
  function FindFrom(s: string, c: char, from: nat): (r: Position)
    requires from <= |s|
    ensures r.At? ==> from <= r.index < |s| && s[r.index] == c
    ensures r.At? ==> forall k :: from <= k < r.index ==> s[k] != c
    ensures r.NPos? ==> forall k :: from <= k < |s| ==> s[k] != c
    decreases |s| - from
  {
    if from == |s| then NPos
    else if s[from] == c then At(from)
    else FindFrom(s, c, from + 1)
  }

  /** s.find(c). */
  function Find(s: string, c: char): (r: Position)
    ensures r.At? ==> r.index < |s| && s[r.index] == c && c !in s[..r.index]
    ensures r.NPos? ==> c !in s
  {
    FindFrom(s, c, 0)
  }

  /** s.find_first_not_of(chars, from). */
  function FindFirstNotOfFrom(s: string, chars: set<char>, from: nat): (r: Position)
    requires from <= |s|
    ensures r.At? ==> from <= r.index < |s| && s[r.index] !in chars
    ensures r.At? ==> forall k :: from <= k < r.index ==> s[k] in chars
    ensures r.NPos? ==> forall k :: from <= k < |s| ==> s[k] in chars
    decreases |s| - from
  {
    if from == |s| then NPos
    else if s[from] !in chars then At(from)
    else FindFirstNotOfFrom(s, chars, from + 1)
  }

  /** s.find_last_not_of(chars), searching the first `upTo` characters. */
  function FindLastNotOfUpTo(s: string, chars: set<char>, upTo: nat): (r: Position)
    requires upTo <= |s|
    ensures r.At? ==> r.index < upTo && s[r.index] !in chars
    ensures r.At? ==> forall k :: r.index < k < upTo ==> s[k] in chars
    ensures r.NPos? ==> forall k :: 0 <= k < upTo ==> s[k] in chars
  {
    if upTo == 0 then NPos
    else if s[upTo - 1] !in chars then At(upTo - 1)
    else FindLastNotOfUpTo(s, chars, upTo - 1)
  }

  // ---------------------------------------------------------------------
  // ltrim / rtrim
  // ---------------------------------------------------------------------

  /** The characters ltrim and rtrim strip: " \t\n\r". */
  const Whitespace: set<char> := {' ', '\t', '\n', '\r'}

  /** ltrim(s): the suffix from the first non-whitespace character, or "". */
  function LTrim(s: string): (r: string)
    ensures |r| <= |s| && r == s[|s| - |r|..]
    ensures forall k :: 0 <= k < |s| - |r| ==> s[k] in Whitespace
    ensures |r| > 0 ==> r[0] !in Whitespace
  {
    match FindFirstNotOfFrom(s, Whitespace, 0)
    case At(first) => s[first..]
    case NPos => ""
  }

  /** rtrim(s): the prefix up to the last non-whitespace character, or "". */
  function RTrim(s: string): (r: string)
    ensures |r| <= |s| && r == s[..|r|]
    ensures forall k :: |r| <= k < |s| ==> s[k] in Whitespace
    ensures |r| > 0 ==> r[|r| - 1] !in Whitespace
  {
    match FindLastNotOfUpTo(s, Whitespace, |s|)
    case At(last) => s[..last + 1]
    case NPos => ""
  }

  /** Trimming twice on the left is trimming once. */
  lemma LTrimIdempotent(s: string)
    ensures LTrim(LTrim(s)) == LTrim(s)
  {
    var r := LTrim(s);
    if |r| > 0 {
      assert FindFirstNotOfFrom(r, Whitespace, 0) == At(0);
    }
  }

  /** Trimming twice on the right is trimming once. */
  lemma RTrimIdempotent(s: string)
    ensures RTrim(RTrim(s)) == RTrim(s)
  {
    var r := RTrim(s);
    if |r| > 0 {
      assert FindLastNotOfUpTo(r, Whitespace, |r|) == At(|r| - 1);
      assert r[..|r|] == r;
    }
  }

  // ---------------------------------------------------------------------
  // The tree
  // ---------------------------------------------------------------------

  /** The state of one ParameterTree: values, subs, valueKeys, subKeys. */
  datatype Tree = Tree(
    values: map<string, string>,
    subs: map<string, Tree>,
    valueKeys: seq<string>,
    subKeys: seq<string>)

  /** A default-constructed ParameterTree. */
  const EmptyTree: Tree := Tree(map[], map[], [], [])

  /** A key with its first '.' at `dot` is its prefix, the dot and its rest. */
  lemma SplitAtDot(key: string, dot: nat)
    requires dot < |key| && key[dot] == '.'
    ensures key == key[..dot] + "." + key[dot + 1..]
  {
  }

  /** hasKey(key). */
  function HasKey(t: Tree, key: string): bool
    decreases |key|
  {
    match Find(key, '.')
    case At(dot) =>
      var prefix := key[..dot];
      if prefix !in t.subs then false else HasKey(t.subs[prefix], key[dot + 1..])
    case NPos => key in t.values
  }

  /** hasSub(key). */
  function HasSub(t: Tree, key: string): bool
    decreases |key|
  {
    match Find(key, '.')
    case At(dot) =>
      var prefix := key[..dot];
      if prefix !in t.subs then false else HasSub(t.subs[prefix], key[dot + 1..])
    case NPos => key in t.subs
  }

  /**
   * The const sub(key): the nested sub-tree.  The C++ code dereferences
   * subs.find(key) without a check, so the sub-tree must exist.
   */
  function SubTree(t: Tree, key: string): (r: Tree)
    requires HasSub(t, key)
    ensures Valid(t) ==> Valid(r)
    decreases |key|
  {
    match Find(key, '.')
    case At(dot) => SubTree(t.subs[key[..dot]], key[dot + 1..])
    case NPos => t.subs[key]
  }

  /** The value stored under an existing key. */
  function Lookup(t: Tree, key: string): string
    requires HasKey(t, key)
    decreases |key|
  {
    match Find(key, '.')
    case At(dot) => Lookup(t.subs[key[..dot]], key[dot + 1..])
    case NPos => t.values[key]
  }

  /**
   * The tree after operator[](key): a missing prefix is appended to subKeys
   * and its sub-tree created; a missing plain key is appended to valueKeys
   * and created with the empty string.
   */
  function Index(t: Tree, key: string): (r: Tree)
    ensures HasKey(r, key)
    decreases |key|
  {
    match Find(key, '.')
    case At(dot) =>
      var prefix := key[..dot];
      var subKeys := if !HasSub(t, prefix) then t.subKeys + [prefix] else t.subKeys;
      var s := if prefix in t.subs then t.subs[prefix] else EmptyTree;
      t.(subKeys := subKeys, subs := t.subs[prefix := Index(s, key[dot + 1..])])
    case NPos =>
      var valueKeys := if !HasKey(t, key) then t.valueKeys + [key] else t.valueKeys;
      var values := if key in t.values then t.values else t.values[key := ""];
      t.(valueKeys := valueKeys, values := values)
  }

  /** One step of Index on a dotted key. */
  lemma IndexAtDot(t: Tree, key: string, dot: nat)
    requires Find(key, '.') == At(dot)
    ensures var prefix := key[..dot];
      Index(t, key) == t.(subKeys := if !HasSub(t, prefix) then t.subKeys + [prefix] else t.subKeys,
                          subs := t.subs[prefix := Index(if prefix in t.subs then t.subs[prefix] else EmptyTree, key[dot + 1..])])
  {
  }

  /** One step of Lookup on a dotted key. */
  lemma LookupAtDot(t: Tree, key: string, dot: nat)
    requires Find(key, '.') == At(dot) && HasKey(t, key)
    ensures key[..dot] in t.subs && HasKey(t.subs[key[..dot]], key[dot + 1..])
    ensures Lookup(t, key) == Lookup(t.subs[key[..dot]], key[dot + 1..])
  {
  }

  /** One step of Index on a plain key. */
  lemma IndexPlainKey(t: Tree, key: string)
    requires Find(key, '.') == NPos
    ensures Index(t, key) == t.(valueKeys := if !HasKey(t, key) then t.valueKeys + [key] else t.valueKeys,
                                values := if key in t.values then t.values else t.values[key := ""])
  {
  }

  /**
   * a and b have the same keys: the same value names, sub-tree names and key
   * lists, level by level; only the stored values may differ.
   */
  ghost predicate SameKeys(a: Tree, b: Tree)
    decreases a
  {
    && a.values.Keys == b.values.Keys
    && a.subs.Keys == b.subs.Keys
    && a.valueKeys == b.valueKeys
    && a.subKeys == b.subKeys
    && (forall k :: k in a.subs ==> SameKeys(a.subs[k], b.subs[k]))
  }

  lemma {:induction false} SameKeysReflexive(t: Tree)
    ensures SameKeys(t, t)
    decreases t
  {
    forall k | k in t.subs
      ensures SameKeys(t.subs[k], t.subs[k])
    {
      SameKeysReflexive(t.subs[k]);
    }
  }

  /** Writing v through the reference operator[] returns for an existing key. */
  function Store(t: Tree, key: string, v: string): (r: Tree)
    requires HasKey(t, key)
    ensures SameKeys(t, r)
    decreases |key|
  {
    match Find(key, '.')
    case At(dot) =>
      var prefix := key[..dot];
      var s := Store(t.subs[prefix], key[dot + 1..], v);
      SameKeysReflexive(t);
      t.(subs := t.subs[prefix := s])
    case NPos =>
      SameKeysReflexive(t);
      t.(values := t.values[key := v])
  }

  /** get(key, defaultValue) for a string default. */
  function Get(t: Tree, key: string, defaultValue: string): (r: string)
    ensures HasKey(t, key) ==> r == Lookup(t, key)
    ensures !HasKey(t, key) ==> r == defaultValue
  {
    if HasKey(t, key) then IndexExistingKeyUnchanged(t, key); Lookup(Index(t, key), key) else defaultValue
  }

  /** get(key, int defaultValue): the default goes through its decimal text and atoi. */
  function GetInt(t: Tree, key: string, defaultValue: int): int
  {
    Atoi(Get(t, key, IntToString(defaultValue)))
  }

  /** get(key, bool defaultValue): the default is written as "1" or "0"; the result is atoi(...) != 0. */
  function GetBool(t: Tree, key: string, defaultValue: bool): bool
  {
    Atoi(Get(t, key, if defaultValue then "1" else "0")) != 0
  }

  datatype ParameterError = RangeError(key: string)

  /** get<std::string>(key). */
  function GetString(t: Tree, key: string): (r: Result<string, ParameterError>)
    ensures r.Failure? <==> !HasKey(t, key)
    ensures r.Failure? ==> r.error == RangeError(key)
    ensures r.Success? ==> r.value == Lookup(t, key)
  {
    if HasKey(t, key) then IndexExistingKeyUnchanged(t, key); Success(Lookup(Index(t, key), key)) else Failure(RangeError(key))
  }

  /** get<int>(key). */
  function GetIntValue(t: Tree, key: string): (r: Result<int, ParameterError>)
    ensures r.Failure? <==> !HasKey(t, key)
    ensures r.Failure? ==> r.error == RangeError(key)
  {
    if HasKey(t, key) then Success(Atoi(Lookup(Index(t, key), key))) else Failure(RangeError(key))
  }

  /** get<bool>(key). */
  function GetBoolValue(t: Tree, key: string): (r: Result<bool, ParameterError>)
    ensures r.Failure? <==> !HasKey(t, key)
    ensures r.Failure? ==> r.error == RangeError(key)
  {
    if HasKey(t, key) then Success(Atoi(Lookup(Index(t, key), key)) != 0) else Failure(RangeError(key))
  }

  // ---------------------------------------------------------------------
  // atoi and the decimal text of an int
  // ---------------------------------------------------------------------

  /** The characters isspace accepts, which atoi skips. */
  const CSpace: set<char> := {' ', '\t', '\n', 11 as char, 12 as char, '\r'}

  predicate IsDigit(c: char)
  {
    '0' <= c <= '9'
  }

  function SkipSpace(s: string): (r: string)
    ensures |r| <= |s| && r == s[|s| - |r|..]
    ensures forall k :: 0 <= k < |s| - |r| ==> s[k] in CSpace
    ensures |r| > 0 ==> r[0] !in CSpace
  {
    if |s| > 0 && s[0] in CSpace then SkipSpace(s[1..]) else s
  }

  /** The length of the longest run of digits s starts with. */
  function DigitRun(s: string): (n: nat)
    ensures n <= |s|
    ensures forall k :: 0 <= k < n ==> IsDigit(s[k])
    ensures n < |s| ==> !IsDigit(s[n])
  {
    if |s| > 0 && IsDigit(s[0]) then 1 + DigitRun(s[1..]) else 0
  }

  function DigitValue(c: char): (d: nat)
    requires IsDigit(c)
    ensures d < 10
  {
    c as int - '0' as int
  }

  /** The value of a string of decimal digits. */
  function DigitsValue(ds: string): nat
    requires forall k :: 0 <= k < |ds| ==> IsDigit(ds[k])
  {
    if |ds| == 0 then 0
    else DigitsValue(ds[..|ds| - 1]) * 10 + DigitValue(ds[|ds| - 1])
  }

  /** The value of the digit run s starts with. */
  function LeadingValue(s: string): nat
  {
    DigitsValue(s[..DigitRun(s)])
  }

  /**
   * atoi(s): leading white space, an optional sign, then decimal digits; 0
   * when no digits follow.  Out-of-range values (undefined in C) are not
   * modelled: the value is the mathematical one.
   */
  function Atoi(s: string): int
  {
    var u := SkipSpace(s);
    if |u| > 0 && u[0] == '-' then -(LeadingValue(u[1..]) as int)
    else if |u| > 0 && u[0] == '+' then LeadingValue(u[1..])
    else LeadingValue(u)
  }

  function DigitChar(d: nat): (c: char)
    requires d < 10
    ensures IsDigit(c) && DigitValue(c) == d
  {
    ('0' as int + d) as char
  }

  /** The decimal text of a natural number, without leading zeros. */
  function NatToString(n: nat): (s: string)
    ensures |s| > 0
    ensures forall k :: 0 <= k < |s| ==> IsDigit(s[k])
  {
    if n < 10 then [DigitChar(n)] else NatToString(n / 10) + [DigitChar(n % 10)]
  }

  /** `stream << i` for an int: a '-' for negative numbers, then the digits. */
  function IntToString(i: int): string
  {
    if i < 0 then "-" + NatToString(-i) else NatToString(i)
  }

  lemma {:induction false} DigitsValueOfNatToString(n: nat)
    ensures DigitsValue(NatToString(n)) == n
    decreases n
  {
    if n >= 10 {
      var s := NatToString(n);
      assert s[..|s| - 1] == NatToString(n / 10);
      DigitsValueOfNatToString(n / 10);
    }
  }

  lemma {:induction false} DigitRunOfDigits(s: string)
    requires forall k :: 0 <= k < |s| ==> IsDigit(s[k])
    ensures DigitRun(s) == |s|
    decreases |s|
  {
    if |s| > 0 {
      DigitRunOfDigits(s[1..]);
    }
  }

  /** The digit run of a number's decimal text is the whole text, and reads back as the number. */
  lemma LeadingValueOfNatToString(n: nat)
    ensures LeadingValue(NatToString(n)) == n
  {
    var digits := NatToString(n);
    DigitRunOfDigits(digits);
    DigitsValueOfNatToString(n);
    assert digits[..|digits|] == digits;
  }

  /** Text that starts with a digit or a sign is not skipped by atoi. */
  lemma SkipSpaceStopsAt(s: string)
    requires |s| > 0 && (IsDigit(s[0]) || s[0] == '-')
    ensures SkipSpace(s) == s
  {
    assert s[0] !in CSpace;
  }

  lemma AtoiOfNatText(n: nat)
    ensures Atoi(NatToString(n)) == n
  {
    var s := NatToString(n);
    SkipSpaceStopsAt(s);
    LeadingValueOfNatToString(n);
  }

  lemma AtoiOfNegativeText(n: nat)
    requires n > 0
    ensures Atoi("-" + NatToString(n)) == -(n as int)
  {
    var s := "-" + NatToString(n);
    SkipSpaceStopsAt(s);
    assert s[1..] == NatToString(n);
    LeadingValueOfNatToString(n);
  }

  /** atoi reads back the decimal text of every int. */
  lemma AtoiOfIntToString(i: int)
    ensures Atoi(IntToString(i)) == i
  {
    if i < 0 {
      AtoiOfNegativeText(-i);
    } else {
      AtoiOfNatText(i);
    }
  }

  // ---------------------------------------------------------------------
  // Properties of the queries and of operator[]
  // ---------------------------------------------------------------------

  lemma EmptyTreeHasNoKey(key: string)
    ensures !HasKey(EmptyTree, key)
  {
  }

  /**
   * hasKey("p.rest") is false without a sub-tree p and otherwise hasKey("rest")
   * in that sub-tree; a key without a dot is looked up among the values.
   */
  lemma HasKeyResolvesPath(t: Tree, prefix: string, rest: string)
    requires '.' !in prefix
    ensures HasKey(t, prefix + "." + rest) ==
              (prefix in t.subs && HasKey(t.subs[prefix], rest))
    ensures HasSub(t, prefix + "." + rest) ==
              (prefix in t.subs && HasSub(t.subs[prefix], rest))
  {
    var key := prefix + "." + rest;
    var dot := Find(key, '.');
    assert key[|prefix|] == '.';
    assert key[..|prefix|] == prefix;
    assert dot == At(|prefix|);
    assert key[|prefix| + 1..] == rest;
  }

  /** operator[] on a missing key creates it with the empty string. */
  lemma {:induction false} IndexNewKeyIsEmpty(t: Tree, key: string)
    requires !HasKey(t, key)
    ensures HasKey(Index(t, key), key) && Lookup(Index(t, key), key) == ""
    decreases |key|
  {
    match Find(key, '.')
    case At(dot) =>
      var prefix := key[..dot];
      var s := if prefix in t.subs then t.subs[prefix] else EmptyTree;
      if prefix !in t.subs {
        EmptyTreeHasNoKey(key[dot + 1..]);
      }
      IndexNewKeyIsEmpty(s, key[dot + 1..]);
    case NPos =>
  }

  /** operator[] on an existing key changes nothing, so get never changes the tree. */
  lemma {:induction false} IndexExistingKeyUnchanged(t: Tree, key: string)
    requires HasKey(t, key)
    ensures Index(t, key) == t
    decreases |key|
  {
    match Find(key, '.')
    case At(dot) =>
      var prefix := key[..dot];
      assert HasSub(t, prefix) by { assert Find(prefix, '.') == NPos; }
      IndexExistingKeyUnchanged(t.subs[prefix], key[dot + 1..]);
      assert t.subs[prefix := t.subs[prefix]] == t.subs;
    case NPos =>
  }

  /** Two different keys that split at their first dots differ in the prefix or the rest. */
  lemma DifferentKeysDifferentParts(k1: string, d1: nat, k2: string, d2: nat)
    requires Find(k1, '.') == At(d1) && Find(k2, '.') == At(d2)
    requires k1[..d1] == k2[..d2] && k1[d1 + 1..] == k2[d2 + 1..]
    ensures k1 == k2
  {
    SplitAtDot(k1, d1);
    SplitAtDot(k2, d2);
  }

  /** operator[](key) leaves every other key, and its value, as it was. */
  lemma {:induction false} IndexKeepsOtherKeys(t: Tree, key: string, other: string)
    requires other != key
    ensures HasKey(Index(t, key), other) == HasKey(t, other)
    ensures HasKey(t, other) ==> Lookup(Index(t, key), other) == Lookup(t, other)
    decreases |key|
  {
    var t' := Index(t, key);
    match Find(key, '.')
    case At(dot) =>
      var prefix, rest := key[..dot], key[dot + 1..];
      var s := if prefix in t.subs then t.subs[prefix] else EmptyTree;
      match Find(other, '.') {
        case At(odot) =>
          var oprefix, orest := other[..odot], other[odot + 1..];
          if oprefix == prefix {
            if orest == rest {
              DifferentKeysDifferentParts(key, dot, other, odot);
            }
            IndexKeepsOtherKeys(s, rest, orest);
            if prefix !in t.subs {
              EmptyTreeHasNoKey(orest);
            }
          }
        case NPos =>
      }
    case NPos =>
  }

  // ---------------------------------------------------------------------
  // The key lists
  // ---------------------------------------------------------------------

  ghost predicate NoDuplicates(s: seq<string>)
  {
    forall i, j :: 0 <= i < j < |s| ==> s[i] != s[j]
  }

  /**
   * The invariant operator[] keeps: valueKeys and subKeys list the keys of
   * values and subs exactly once each, in every nested tree.
   */
  ghost predicate Valid(t: Tree)
    decreases t
  {
    && NoDuplicates(t.valueKeys)
    && (forall k :: k in t.values <==> k in t.valueKeys)
    && NoDuplicates(t.subKeys)
    && (forall k :: k in t.subs <==> k in t.subKeys)
    && (forall k :: k in t.subs ==> Valid(t.subs[k]))
  }

  /** operator[] keeps the key lists free of duplicates and in step with the maps. */
  lemma {:induction false} IndexPreservesValid(t: Tree, key: string)
    requires Valid(t)
    ensures Valid(Index(t, key))
    decreases |key|
  {
    match Find(key, '.')
    case At(dot) =>
      var prefix := key[..dot];
      var s := if prefix in t.subs then t.subs[prefix] else EmptyTree;
      IndexPreservesValid(s, key[dot + 1..]);
      assert HasSub(t, prefix) == (prefix in t.subs) by { assert Find(prefix, '.') == NPos; }
      ValidAfterSubUpdate(t, prefix, Index(s, key[dot + 1..]));
    case NPos =>
      ValidAfterValueInsert(t, key);
  }

  /** Storing a valid sub-tree under a name, recording the name if it is new, keeps a tree valid. */
  lemma ValidAfterSubUpdate(t: Tree, prefix: string, s: Tree)
    requires Valid(t) && Valid(s)
    ensures Valid(t.(subKeys := if prefix in t.subs then t.subKeys else t.subKeys + [prefix],
                     subs := t.subs[prefix := s]))
  {
  }

  /** Creating a plain key, recording it if it is new, keeps a tree valid. */
  lemma ValidAfterValueInsert(t: Tree, key: string)
    requires Valid(t)
    ensures Valid(t.(valueKeys := if key in t.values then t.valueKeys else t.valueKeys + [key],
                     values := if key in t.values then t.values else t.values[key := ""]))
  {
  }

  /** A plain key new to the tree is appended at the end of valueKeys. */
  lemma IndexAppendsNewKey(t: Tree, key: string)
    requires '.' !in key && key !in t.values
    ensures Index(t, key).valueKeys == t.valueKeys + [key]
    ensures Index(t, key).subKeys == t.subKeys
  {
  }

  // ---------------------------------------------------------------------
  // Writing through the reference operator[] returns
  // ---------------------------------------------------------------------

  /** After a write of v under an existing key, the key holds v. */
  lemma {:induction false} StoreThenLookup(t: Tree, key: string, v: string)
    requires HasKey(t, key)
    ensures HasKey(Store(t, key, v), key) && Lookup(Store(t, key, v), key) == v
    decreases |key|
  {
    match Find(key, '.')
    case At(dot) =>
      var prefix, rest := key[..dot], key[dot + 1..];
      StoreThenLookup(t.subs[prefix], rest, v);
      assert Store(t, key, v).subs[prefix] == Store(t.subs[prefix], rest, v);
    case NPos =>
  }

  /** A write under one key leaves every other key, and its value, as it was. */
  lemma {:induction false} StoreKeepsOtherKeys(t: Tree, key: string, v: string, other: string)
    requires HasKey(t, key) && other != key
    ensures HasKey(Store(t, key, v), other) == HasKey(t, other)
    ensures HasKey(t, other) ==> Lookup(Store(t, key, v), other) == Lookup(t, other)
    decreases |key|
  {
    match Find(key, '.')
    case At(dot) =>
      var prefix, rest := key[..dot], key[dot + 1..];
      match Find(other, '.') {
        case At(odot) =>
          var oprefix, orest := other[..odot], other[odot + 1..];
          if oprefix == prefix {
            if orest == rest {
              DifferentKeysDifferentParts(key, dot, other, odot);
            }
            StoreKeepsOtherKeys(t.subs[prefix], rest, v, orest);
          }
        case NPos =>
      }
    case NPos =>
  }

  /** A write under an existing key keeps the key lists in step with the maps. */
  lemma {:induction false} StorePreservesValid(t: Tree, key: string, v: string)
    requires HasKey(t, key) && Valid(t)
    ensures Valid(Store(t, key, v))
    decreases |key|
  {
    match Find(key, '.')
    case At(dot) =>
      var prefix := key[..dot];
      StorePreservesValid(t.subs[prefix], key[dot + 1..], v);
      ValidAfterSubUpdate(t, prefix, Store(t.subs[prefix], key[dot + 1..], v));
    case NPos =>
  }

  // ---------------------------------------------------------------------
  // The const sub(key)
  // ---------------------------------------------------------------------

  /** When the first '.' of p + "." + k lies within p, it is p's own first '.'. */
  lemma FindInPrefix(p: string, k: string, dot: nat)
    requires Find(p, '.') == At(dot)
    ensures Find(p + "." + k, '.') == At(dot)
    ensures (p + "." + k)[..dot] == p[..dot]
    ensures (p + "." + k)[dot + 1..] == p[dot + 1..] + "." + k
  {
    var key := p + "." + k;
    assert key[dot] == '.';
    assert key[..dot] == p[..dot];
  }

  /** When p has no '.', the first '.' of p + "." + k follows p. */
  lemma FindAfterPrefix(p: string, k: string)
    requires Find(p, '.') == NPos
    ensures Find(p + "." + k, '.') == At(|p|)
    ensures (p + "." + k)[..|p|] == p && (p + "." + k)[|p| + 1..] == k
  {
    var key := p + "." + k;
    assert key[|p|] == '.';
    assert key[..|p|] == p;
  }

  /**
   * The const sub(p) resolves keys the way the dotted key does: the tree has
   * the key p.k exactly when it has the sub-tree p and that sub-tree has k,
   * with the same value.
   */
  lemma {:induction false} SubTreeResolvesKey(t: Tree, p: string, k: string)
    ensures HasKey(t, p + "." + k) <==> HasSub(t, p) && HasKey(SubTree(t, p), k)
    ensures HasKey(t, p + "." + k) ==> Lookup(t, p + "." + k) == Lookup(SubTree(t, p), k)
    decreases |p|
  {
    var key := p + "." + k;
    match Find(p, '.')
    case At(dot) =>
      FindInPrefix(p, k, dot);
      var prefix := p[..dot];
      if prefix in t.subs {
        SubTreeResolvesKey(t.subs[prefix], p[dot + 1..], k);
      }
    case NPos =>
      FindAfterPrefix(p, k);
  }

  /** A new path prefix is appended at the end of subKeys; valueKeys is untouched. */
  lemma IndexAppendsNewPrefix(t: Tree, key: string, dot: nat)
    requires Find(key, '.') == At(dot) && key[..dot] !in t.subs
    ensures Index(t, key).subKeys == t.subKeys + [key[..dot]]
    ensures Index(t, key).valueKeys == t.valueKeys
  {
    IndexAtDot(t, key, dot);
    assert Find(key[..dot], '.') == NPos;
  }

  /** A path prefix that is already a sub-tree leaves both key lists as they were. */
  lemma IndexKeepsKnownPrefix(t: Tree, key: string, dot: nat)
    requires Find(key, '.') == At(dot) && key[..dot] in t.subs
    ensures Index(t, key).subKeys == t.subKeys
    ensures Index(t, key).valueKeys == t.valueKeys
  {
    IndexAtDot(t, key, dot);
    assert Find(key[..dot], '.') == NPos;
  }

  // ---------------------------------------------------------------------
  // The non-const sub(key)
  // ---------------------------------------------------------------------

  /**
   * The tree after the non-const sub(key) as written: missing sub-trees are
   * created along the path with `subs[key]`, but never recorded in subKeys.
   */
  function SubCreateAsWritten(t: Tree, key: string): (r: Tree)
    ensures HasSub(r, key)
    ensures r.subKeys == t.subKeys && r.values == t.values && r.valueKeys == t.valueKeys
    decreases |key|
  {
    match Find(key, '.')
    case At(dot) =>
      var prefix := key[..dot];
      var t1 := SubCreateAsWritten(t, prefix);
      assert prefix in t1.subs by { assert Find(prefix, '.') == NPos; }
      t1.(subs := t1.subs[prefix := SubCreateAsWritten(t1.subs[prefix], key[dot + 1..])])
    case NPos =>
      if key in t.subs then t else t.(subs := t.subs[key := EmptyTree])
  }

  /**
   * The non-const sub(key) as evidently intended: a sub-tree it creates is
   * recorded in subKeys, as operator[] does.
   */
  function SubCreate(t: Tree, key: string): (r: Tree)
    requires Valid(t)
    ensures HasSub(r, key) && Valid(r)
    decreases |key|
  {
    match Find(key, '.')
    case At(dot) =>
      var prefix := key[..dot];
      var t1 := SubCreate(t, prefix);
      assert prefix in t1.subs by { assert Find(prefix, '.') == NPos; }
      t1.(subs := t1.subs[prefix := SubCreate(t1.subs[prefix], key[dot + 1..])])
    case NPos =>
      if key in t.subs then t
      else t.(subKeys := t.subKeys + [key], subs := t.subs[key := EmptyTree])
  }

  /**
   * As written, sub("a") on an empty tree creates the sub-tree "a" without
   * listing it: hasSub("a") holds while getSubKeys() stays empty.
   */
  lemma SubAsWrittenLosesSubKey()
    ensures HasSub(SubCreateAsWritten(EmptyTree, "a"), "a")
    ensures SubCreateAsWritten(EmptyTree, "a").subKeys == []
    ensures !Valid(SubCreateAsWritten(EmptyTree, "a"))
  {
    var r := SubCreateAsWritten(EmptyTree, "a");
    assert "a" in r.subs && "a" !in r.subKeys;
  }

  // ---------------------------------------------------------------------
  // The object
  // ---------------------------------------------------------------------

  class ParameterTree {
    var values: map<string, string>
    var subs: map<string, Tree>
    var valueKeys: seq<string>
    var subKeys: seq<string>

    /** The state of this object as a tree value. */
    function Value(): Tree
      reads this
    {
      Tree(values, subs, valueKeys, subKeys)
    }

    constructor ()
      ensures Value() == EmptyTree && Valid(Value())
    {
      values, subs, valueKeys, subKeys := map[], map[], [], [];
    }

    /**
     * operator[](key), read through the returned reference: get-or-create,
     * recording a new prefix in subKeys and a new plain key in valueKeys.
     */
    method At(key: string) returns (v: string)
      modifies this
      ensures Value() == Index(old(Value()), key)
      ensures HasKey(Value(), key) && v == Lookup(Value(), key)
      ensures old(HasKey(Value(), key)) ==> Value() == old(Value()) && v == old(Lookup(Value(), key))
      ensures !old(HasKey(Value(), key)) ==> v == ""
      ensures old(Valid(Value())) ==> Valid(Value())
    {
      ghost var t := Value();
      if Valid(t) { IndexPreservesValid(t, key); }
      if HasKey(t, key) { IndexExistingKeyUnchanged(t, key); } else { IndexNewKeyIsEmpty(t, key); }
      v := Create(key);
    }

    /** The get-or-create step of operator[], returning the value the reference refers to. */
    method Create(key: string) returns (v: string)
      modifies this
      ensures Value() == Index(old(Value()), key)
      ensures HasKey(Value(), key) && v == Lookup(Value(), key)
    {
      ghost var t := Value();
      match Find(key, '.')
      case At(dot) =>
        var prefix, rest := key[..dot], key[dot + 1..];
        if !HasSub(Value(), prefix) {
          subKeys := subKeys + [prefix];
        }
        var s := if prefix in subs then subs[prefix] else EmptyTree;
        var s' := Index(s, rest);
        subs := subs[prefix := s'];
        IndexAtDot(t, key, dot);
        LookupAtDot(Value(), key, dot);
        v := Lookup(s', rest);
      case NPos =>
        if !HasKey(Value(), key) {
          valueKeys := valueKeys + [key];
        }
        if key !in values {
          values := values[key := ""];
        }
        IndexPlainKey(t, key);
        v := values[key];
    }

    /** `(*this)[key] = v`: operator[] followed by a write through the reference. */
    method Assign(key: string, v: string)
      modifies this
      ensures Value() == Store(Index(old(Value()), key), key, v)
      ensures HasKey(Value(), key) && Lookup(Value(), key) == v
      ensures forall other :: other != key ==> HasKey(Value(), other) == old(HasKey(Value(), other))
      ensures forall other :: other != key && old(HasKey(Value(), other)) ==>
                Lookup(Value(), other) == old(Lookup(Value(), other))
      ensures old(Valid(Value())) ==> Valid(Value())
    {
      ghost var t := Value();
      var _ := At(key);
      ghost var t1 := Value();
      Write(key, v);
      StoreThenLookup(t1, key, v);
      if Valid(t1) { StorePreservesValid(t1, key, v); }
      forall other | other != key
        ensures HasKey(Store(t1, key, v), other) == HasKey(t, other)
        ensures HasKey(t, other) ==> Lookup(Store(t1, key, v), other) == Lookup(t, other)
      {
        IndexKeepsOtherKeys(t, key, other);
        StoreKeepsOtherKeys(t1, key, v, other);
      }
    }

    /** The write through the reference operator[] returned for an existing key. */
    method Write(key: string, v: string)
      requires HasKey(Value(), key)
      modifies this
      ensures Value() == Store(old(Value()), key, v)
    {
      match Find(key, '.')
      case At(dot) =>
        var prefix := key[..dot];
        subs := subs[prefix := Store(subs[prefix], key[dot + 1..], v)];
      case NPos =>
        values := values[key := v];
    }

    /** The non-const sub(key), as written; the returned reference is given as a copy. */
    method Sub(key: string) returns (s: Tree)
      modifies this
      ensures Value() == SubCreateAsWritten(old(Value()), key)
      ensures HasSub(Value(), key) && s == SubTree(Value(), key)
    {
      var t := SubCreateAsWritten(Value(), key);
      values, subs, valueKeys, subKeys := t.values, t.subs, t.valueKeys, t.subKeys;
      s := SubTree(t, key);
    }

    /** getValueKeys(): in a valid tree, each plain key of this level exactly once. */
    function GetValueKeys(): (keys: seq<string>)
      reads this
      ensures Valid(Value()) ==> NoDuplicates(keys) && forall k :: k in keys <==> k in values
    {
      valueKeys
    }

    /** getSubKeys(): in a valid tree, each sub-tree name of this level exactly once. */
    function GetSubKeys(): (keys: seq<string>)
      reads this
      ensures Valid(Value()) ==> NoDuplicates(keys) && forall k :: k in keys <==> k in subs
    {
      subKeys
    }
  }

  // ---------------------------------------------------------------------
  // The get overloads
  // ---------------------------------------------------------------------

  /** get(key, int d) on a missing key is d: its decimal text is read back by atoi. */
  lemma GetIntDefault(t: Tree, key: string, d: int)
    requires !HasKey(t, key)
    ensures GetInt(t, key, d) == d
  {
    AtoiOfIntToString(d);
  }

  /** get(key, int d) on a present key is atoi of the stored text. */
  lemma GetIntPresent(t: Tree, key: string, d: int)
    requires HasKey(t, key)
    ensures GetInt(t, key, d) == Atoi(Lookup(t, key))
  {
  }

  /** get(key, bool d) is d on a missing key and "atoi(value) != 0" on a present one. */
  lemma GetBoolMeaning(t: Tree, key: string, d: bool)
    ensures !HasKey(t, key) ==> GetBool(t, key, d) == d
    ensures HasKey(t, key) ==> GetBool(t, key, d) == (Atoi(Lookup(t, key)) != 0)
  {
    AtoiOfIntToString(1);
    AtoiOfIntToString(0);
    assert IntToString(1) == "1" && IntToString(0) == "0";
  }

  /** get<int> and get<bool> read the stored text with atoi when the key exists. */
  lemma TypedGetPresent(t: Tree, key: string)
    requires HasKey(t, key)
    ensures GetIntValue(t, key) == Success(Atoi(Lookup(t, key)))
    ensures GetBoolValue(t, key) == Success(Atoi(Lookup(t, key)) != 0)
  {
    IndexExistingKeyUnchanged(t, key);
  }
}
