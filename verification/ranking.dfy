/**
 * The two rankings: `[...teachers].sort(comparator)` keyed on the point
 * total or on the lessons missed, highest first, ties broken by name.
 */
module Ranking {
  import opened Aggregation
  import opened Ordering

  /** The sort key of the points ranking. */
  function PointsKey(t: AggregatedTeacher): SortKey {
    SortKey(t.totalPoints, t.name)
  }

  /** The sort key of the absence ranking. */
  function AbsenceKey(t: Teacher): SortKey {
    SortKey(t.lessonsMissed, t.name)
  }

  /** Exchanges two neighbours. */
  method SwapWithPrevious<T>(a: array<T>, j: nat)
    requires 0 < j < a.Length
    modifies a
    ensures a[j - 1] == old(a[j]) && a[j] == old(a[j - 1])
    ensures forall k :: 0 <= k < a.Length && k != j - 1 && k != j ==> a[k] == old(a[k])
    ensures multiset(a[..]) == multiset(old(a[..]))
  {
    a[j - 1], a[j] := a[j], a[j - 1];
  }

  /** Moves `a[i]` left past every element that must come after it, so that `a[..i + 1]` is ordered. */
  method Insert<T>(a: array<T>, i: nat, key: T -> SortKey)
    requires i < a.Length
    requires forall k :: 0 <= k && k + 1 < i ==> InOrder(key, a[k], a[k + 1])
    modifies a
    ensures multiset(a[..]) == multiset(old(a[..]))
    ensures forall k :: 0 <= k && k + 1 <= i ==> InOrder(key, a[k], a[k + 1])
    ensures a[i + 1..] == old(a[i + 1..])
  {
    var j := i;
    while 0 < j && !InOrder(key, a[j - 1], a[j])
      invariant 0 <= j <= i
      invariant multiset(a[..]) == multiset(old(a[..]))
      invariant forall k :: 0 <= k && k + 1 <= i && k + 1 != j ==> InOrder(key, a[k], a[k + 1])
      invariant 0 < j < i ==> InOrder(key, a[j - 1], a[j + 1])
      invariant a[i + 1..] == old(a[i + 1..])
    {
      CompareAntisymmetric(key(a[j - 1]), key(a[j]));
      SwapWithPrevious(a, j);
      j := j - 1;
    }
  }

  /** Sorts `a` in place by the comparator on `key` (the `.sort` call), by insertion. */
  method SortInPlace<T>(a: array<T>, key: T -> SortKey)
    modifies a
    ensures multiset(a[..]) == multiset(old(a[..]))
    ensures SortedBy(a[..], key)
  {
    var i := 0;
    while i < a.Length
      invariant 0 <= i <= a.Length
      invariant multiset(a[..]) == multiset(old(a[..]))
      invariant forall k :: 0 <= k && k + 1 < i ==> InOrder(key, a[k], a[k + 1])
    {
      Insert(a, i, key);
      i := i + 1;
    }
    AdjacentSortedIsSorted(a[..], key);
  }

  /** `[...items].sort(comparator)`: a fresh sorted copy; `items` itself is not written. */
  method SortedCopy<T>(items: array<T>, key: T -> SortKey) returns (sorted: array<T>)
    ensures fresh(sorted)
    ensures multiset(sorted[..]) == multiset(items[..])
    ensures SortedBy(sorted[..], key)
  {
    sorted := new T[items.Length](i requires 0 <= i < items.Length reads items => items[i]);
    assert sorted[..] == items[..];
    SortInPlace(sorted, key);
  }

  /**
   * sortByPointsDesc: the same teachers, highest total first, equal totals in
   * ascending name order.
   */
  method SortByPointsDesc(teachers: array<AggregatedTeacher>) returns (sorted: array<AggregatedTeacher>)
    ensures fresh(sorted)
    ensures multiset(sorted[..]) == multiset(teachers[..])
    ensures forall i, j :: 0 <= i < j < sorted.Length ==>
              || sorted[i].totalPoints > sorted[j].totalPoints
              || (sorted[i].totalPoints == sorted[j].totalPoints && LexLe(sorted[i].name, sorted[j].name))
  {
    sorted := SortedCopy(teachers, PointsKey);
    forall i, j | 0 <= i < j < sorted.Length
      ensures || sorted[i].totalPoints > sorted[j].totalPoints
              || (sorted[i].totalPoints == sorted[j].totalPoints && LexLe(sorted[i].name, sorted[j].name))
    {
      assert InOrder(PointsKey, sorted[..][i], sorted[..][j]);
    }
  }

  /**
   * sortByAbsenceDesc: the same teachers, most lessons missed first, equal
   * counts in ascending name order.
   */
  method SortByAbsenceDesc(teachers: array<Teacher>) returns (sorted: array<Teacher>)
    ensures fresh(sorted)
    ensures multiset(sorted[..]) == multiset(teachers[..])
    ensures forall i, j :: 0 <= i < j < sorted.Length ==>
              || sorted[i].lessonsMissed > sorted[j].lessonsMissed
              || (sorted[i].lessonsMissed == sorted[j].lessonsMissed && LexLe(sorted[i].name, sorted[j].name))
  {
    sorted := SortedCopy(teachers, AbsenceKey);
    forall i, j | 0 <= i < j < sorted.Length
      ensures || sorted[i].lessonsMissed > sorted[j].lessonsMissed
              || (sorted[i].lessonsMissed == sorted[j].lessonsMissed && LexLe(sorted[i].name, sorted[j].name))
    {
      assert InOrder(AbsenceKey, sorted[..][i], sorted[..][j]);
    }
  }
}
