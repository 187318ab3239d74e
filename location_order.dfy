/**
 * `RangeComparator` and `ReferenceLocationComparator`: the strict orders of
 * the reference index. A range is ordered by the six fields start line,
 * start column, start token index, end line, end column, end token index; a
 * reference location by its range and then, on a tie, by its pathname
 * compared case-insensitively (`stricmp`).
 *
 * A `std::set` under such an order keeps one element per equivalence class;
 * it is modelled as a sequence strictly increasing under the order, with the
 * insertion `std::set::insert` performs.
 */
module LocationOrder {
  import opened Common
  import opened CompilerModel

  /** `ReferenceLocation`: where a definition is used (pathname and range). */
  datatype ReferenceLocation = ReferenceLocation(pathname: string, range: Range)

  predicate PositionLess(a: Position, b: Position)
  {
    if a.line != b.line then a.line < b.line
    else if a.column != b.column then a.column < b.column
    else a.tokenIndex < b.tokenIndex
  }

  /** `RangeComparator::operator()`. */
  predicate RangeLess(x1: Range, x2: Range)
  {
    if x1.start != x2.start then PositionLess(x1.start, x2.start)
    else PositionLess(x1.end, x2.end)
  }

  lemma PositionLessIsStrictTotal(a: Position, b: Position, c: Position)
    ensures !PositionLess(a, a)
    ensures PositionLess(a, b) ==> !PositionLess(b, a)
    ensures PositionLess(a, b) && PositionLess(b, c) ==> PositionLess(a, c)
    ensures a != b ==> PositionLess(a, b) || PositionLess(b, a)
  {
  }

  /** RangeComparator is irreflexive and never true in both directions. */
  lemma RangeLessIrreflexiveAsymmetric(x: Range, y: Range)
    ensures !RangeLess(x, x)
    ensures RangeLess(x, y) ==> !RangeLess(y, x)
  {
    PositionLessIsStrictTotal(x.start, y.start, x.start);
    PositionLessIsStrictTotal(x.end, y.end, x.end);
  }

  /** RangeComparator is transitive. */
  lemma RangeLessTransitive(x: Range, y: Range, z: Range)
    requires RangeLess(x, y) && RangeLess(y, z)
    ensures RangeLess(x, z)
  {
    PositionLessIsStrictTotal(x.start, y.start, z.start);
    PositionLessIsStrictTotal(x.end, y.end, z.end);
    PositionLessIsStrictTotal(y.start, x.start, z.start);
    PositionLessIsStrictTotal(x.start, z.start, y.start);
  }

  /**
   * Two ranges neither of which is less than the other are equal, so a
   * `std::map` under RangeComparator has one entry per range value and is a
   * map keyed by the range itself.
   */
  lemma RangeEquivalenceIsEquality(x: Range, y: Range)
    ensures !RangeLess(x, y) && !RangeLess(y, x) <==> x == y
  {
    RangeLessIrreflexiveAsymmetric(x, y);
    PositionLessIsStrictTotal(x.start, y.start, x.start);
    PositionLessIsStrictTotal(x.end, y.end, x.end);
  }

  // ---------------------------------------------------------------------
  // stricmp

  /** The sign of `stricmp(a, b)`: compare the ASCII-lowercased strings, a proper prefix first. */
  function Stricmp(a: string, b: string): (r: int)
    ensures -1 <= r <= 1
  {
    if a == [] && b == [] then 0
    else if a == [] then -1
    else if b == [] then 1
    else if ToLowerChar(a[0]) < ToLowerChar(b[0]) then -1
    else if ToLowerChar(a[0]) > ToLowerChar(b[0]) then 1
    else Stricmp(a[1..], b[1..])
  }

  /** `stricmp` is zero exactly on strings equal up to ASCII letter case. */
  lemma {:induction false} StricmpZeroIffEqualsIgnoreCase(a: string, b: string)
    ensures Stricmp(a, b) == 0 <==> EqualsIgnoreCase(a, b)
  {
    if a != [] && b != [] {
      StricmpZeroIffEqualsIgnoreCase(a[1..], b[1..]);
      assert Lower(a) == [ToLowerChar(a[0])] + Lower(a[1..]);
      assert Lower(b) == [ToLowerChar(b[0])] + Lower(b[1..]);
      if Lower(a) == Lower(b) {
        assert Lower(a)[0] == Lower(b)[0];
        assert Lower(a)[1..] == Lower(b)[1..];
      }
    } else if a != [] || b != [] {
      assert |Lower(a)| != |Lower(b)|;
    }
  }

  lemma {:induction false} StricmpAntisymmetric(a: string, b: string)
    ensures Stricmp(a, b) == -Stricmp(b, a)
  {
    if a != [] && b != [] {
      StricmpAntisymmetric(a[1..], b[1..]);
    }
  }

  lemma {:induction false} StricmpTransitive(a: string, b: string, c: string)
    requires Stricmp(a, b) < 0 && Stricmp(b, c) < 0
    ensures Stricmp(a, c) < 0
  {
    if a != [] && b != [] && c != [] {
      if ToLowerChar(a[0]) == ToLowerChar(b[0]) && ToLowerChar(b[0]) == ToLowerChar(c[0]) {
        StricmpTransitive(a[1..], b[1..], c[1..]);
      }
    }
  }

  lemma {:induction false} StricmpZeroTransitive(a: string, b: string, c: string)
    requires Stricmp(a, b) == 0
    ensures Stricmp(a, c) == Stricmp(b, c)
  {
    if a != [] && b != [] && c != [] {
      StricmpZeroTransitive(a[1..], b[1..], c[1..]);
    }
  }

  // ---------------------------------------------------------------------
  // ReferenceLocationComparator

  /** `ReferenceLocationComparator::operator()`: the range order, then the pathname by `stricmp`. */
  predicate RefLess(x1: ReferenceLocation, x2: ReferenceLocation)
  {
    if x1.range != x2.range then RangeLess(x1.range, x2.range)
    else Stricmp(x1.pathname, x2.pathname) < 0
  }

  /** Equivalence under the comparator: neither is less than the other. */
  predicate RefEquivalent(x1: ReferenceLocation, x2: ReferenceLocation)
  {
    !RefLess(x1, x2) && !RefLess(x2, x1)
  }

  /** Pathnames are consulted only when the ranges tie. */
  lemma RefLessByRangeFirst(x1: ReferenceLocation, x2: ReferenceLocation)
    requires x1.range != x2.range
    ensures RefLess(x1, x2) == RangeLess(x1.range, x2.range)
    ensures RefLess(x1, x2) == RefLess(x1.(pathname := x2.pathname), x2)
  {
  }

  /** ReferenceLocationComparator is irreflexive and asymmetric. */
  lemma RefLessIrreflexiveAsymmetric(x: ReferenceLocation, y: ReferenceLocation)
    ensures !RefLess(x, x)
    ensures RefLess(x, y) ==> !RefLess(y, x)
  {
    RangeLessIrreflexiveAsymmetric(x.range, y.range);
    StricmpAntisymmetric(x.pathname, y.pathname);
    StricmpAntisymmetric(x.pathname, x.pathname);
  }

  lemma RefLessTransitive(x: ReferenceLocation, y: ReferenceLocation, z: ReferenceLocation)
    requires RefLess(x, y) && RefLess(y, z)
    ensures RefLess(x, z)
  {
    if x.range != y.range && y.range != z.range {
      RangeLessTransitive(x.range, y.range, z.range);
      if x.range == z.range {
        RangeLessIrreflexiveAsymmetric(x.range, y.range);
      }
    } else if x.range == y.range && y.range == z.range {
      StricmpTransitive(x.pathname, y.pathname, z.pathname);
    }
  }

  /**
   * Locations are equivalent exactly when their ranges are equal and their
   * pathnames differ at most in letter case: such locations collapse to one
   * set element.
   */
  lemma RefEquivalentIff(x: ReferenceLocation, y: ReferenceLocation)
    ensures RefEquivalent(x, y) <==> x.range == y.range && EqualsIgnoreCase(x.pathname, y.pathname)
  {
    RangeEquivalenceIsEquality(x.range, y.range);
    StricmpAntisymmetric(x.pathname, y.pathname);
    StricmpZeroIffEqualsIgnoreCase(x.pathname, y.pathname);
  }

  // ---------------------------------------------------------------------
  // std::set<ReferenceLocation, ReferenceLocationComparator>

  /** A set under the comparator: strictly increasing, so no two elements are equivalent. */
  predicate StrictlySorted(s: seq<ReferenceLocation>)
  {
    forall i, j :: 0 <= i < j < |s| ==> RefLess(s[i], s[j])
  }

  /** `std::set::count(x) != 0`: some element is equivalent to `x`. */
  predicate SetHas(s: seq<ReferenceLocation>, x: ReferenceLocation)
  {
    exists e :: e in s && RefEquivalent(e, x)
  }

  /** `std::set::insert(x)`: add `x` at its place unless an equivalent element is already there. */
  function SetInsert(s: seq<ReferenceLocation>, x: ReferenceLocation): seq<ReferenceLocation>
  {
    if s == [] then [x]
    else if RefLess(x, s[0]) then [x] + s
    else if RefLess(s[0], x) then [s[0]] + SetInsert(s[1..], x)
    else s
  }

  lemma {:induction false} SetInsertElements(s: seq<ReferenceLocation>, x: ReferenceLocation)
    ensures forall e :: e in SetInsert(s, x) ==> e in s || e == x
    ensures forall e :: e in s ==> e in SetInsert(s, x)
    ensures SetHas(SetInsert(s, x), x)
  {
    if s != [] && !RefLess(x, s[0]) && RefLess(s[0], x) {
      SetInsertElements(s[1..], x);
      HeadTail(s);
      var e :| e in SetInsert(s[1..], x) && RefEquivalent(e, x);
      assert e in SetInsert(s, x);
    } else if s != [] && !RefLess(x, s[0]) && !RefLess(s[0], x) {
      assert s[0] in SetInsert(s, x) && RefEquivalent(s[0], x);
    } else {
      RefLessIrreflexiveAsymmetric(x, x);
      assert x in SetInsert(s, x);
    }
  }

  lemma {:induction false} SetInsertSorted(s: seq<ReferenceLocation>, x: ReferenceLocation)
    requires StrictlySorted(s)
    ensures StrictlySorted(SetInsert(s, x))
  {
    if s == [] {
    } else if RefLess(x, s[0]) {
      var t := [x] + s;
      forall i, j | 0 <= i < j < |t|
        ensures RefLess(t[i], t[j])
      {
        if i == 0 && j > 1 {
          RefLessTransitive(x, s[0], s[j - 1]);
        }
      }
    } else if RefLess(s[0], x) {
      var tail := SetInsert(s[1..], x);
      SetInsertSorted(s[1..], x);
      SetInsertElements(s[1..], x);
      var t := [s[0]] + tail;
      forall i, j | 0 <= i < j < |t|
        ensures RefLess(t[i], t[j])
      {
        if i == 0 {
          assert t[j] in tail;
          if t[j] != x {
            assert t[j] in s[1..];
          }
        } else {
          assert t[i] == tail[i - 1] && t[j] == tail[j - 1];
        }
      }
    }
  }

  /** Inserting an element equivalent to one already present changes nothing. */
  lemma {:induction false} SetInsertPresent(s: seq<ReferenceLocation>, x: ReferenceLocation)
    requires StrictlySorted(s) && SetHas(s, x)
    ensures SetInsert(s, x) == s
  {
    var e :| e in s && RefEquivalent(e, x);
    var k :| 0 <= k < |s| && s[k] == e;
    if RefLess(x, s[0]) {
      if k > 0 {
        RefLessTransitive(x, s[0], s[k]);
      }
      assert false;
    } else if RefLess(s[0], x) {
      assert k != 0;
      assert s[1..][k - 1] == e;
      assert SetHas(s[1..], x);
      SortedTail(s);
      SetInsertPresent(s[1..], x);
      HeadTail(s);
    }
  }

  lemma SortedTail(s: seq<ReferenceLocation>)
    requires s != [] && StrictlySorted(s)
    ensures StrictlySorted(s[1..])
  {
    forall i, j | 0 <= i < j < |s| - 1
      ensures RefLess(s[1..][i], s[1..][j])
    {
      assert s[1..][i] == s[i + 1] && s[1..][j] == s[j + 1];
    }
  }

  /** `insert` is idempotent: the second insertion of the same location is a no-op. */
  lemma SetInsertIdempotent(s: seq<ReferenceLocation>, x: ReferenceLocation)
    requires StrictlySorted(s)
    ensures SetInsert(SetInsert(s, x), x) == SetInsert(s, x)
  {
    SetInsertSorted(s, x);
    SetInsertElements(s, x);
    SetInsertPresent(SetInsert(s, x), x);
  }

  /** A location whose pathname differs only in letter case from one present collapses onto it. */
  lemma SetInsertCaseCollapses(s: seq<ReferenceLocation>, x: ReferenceLocation, other: string)
    requires StrictlySorted(s) && x in s && EqualsIgnoreCase(x.pathname, other)
    ensures SetInsert(s, x.(pathname := other)) == s
  {
    RefEquivalentIff(x, x.(pathname := other));
    SetInsertPresent(s, x.(pathname := other));
  }
}
