/**
 * The comparator both rankings hand to `Array.prototype.sort`: a metric,
 * highest first, then the name, ascending. Names are compared ordinally,
 * character by character, standing in for `String.prototype.localeCompare`.
 */
module Ordering {

  /** Ordinal three-way comparison of two strings: -1, 0 or 1. */
  function LexCompare(a: string, b: string): (r: int)
    ensures -1 <= r <= 1
    ensures r == 0 <==> a == b
  {
    if a == [] && b == [] then 0
    else if a == [] then -1
    else if b == [] then 1
    else if a[0] < b[0] then -1
    else if b[0] < a[0] then 1
    else
      assert a == [a[0]] + a[1..] && b == [b[0]] + b[1..];
      LexCompare(a[1..], b[1..])
  }

  /** `a` sorts before or together with `b` by name. */
  predicate LexLe(a: string, b: string) {
    LexCompare(a, b) <= 0
  }

  /** A proper prefix sorts first. */
  lemma {:induction false} LexCompareProperPrefix(a: string, b: string)
    requires |a| < |b| && a == b[..|a|]
    ensures LexCompare(a, b) == -1
  {
    if a != [] {
      assert a[0] == b[0];
      assert a[1..] == b[1..][..|a| - 1];
      LexCompareProperPrefix(a[1..], b[1..]);
    }
  }

  /** At the first position where two names differ, the smaller character sorts first. */
  lemma {:induction false} LexCompareFirstDifference(a: string, b: string, k: nat)
    requires k < |a| && k < |b| && a[..k] == b[..k] && a[k] < b[k]
    ensures LexCompare(a, b) == -1
  {
    if k > 0 {
      assert a[0] == a[..k][0] == b[..k][0] == b[0];
      assert a[1..][..k - 1] == a[..k][1..] == b[..k][1..] == b[1..][..k - 1];
      LexCompareFirstDifference(a[1..], b[1..], k - 1);
    }
  }

  lemma {:induction false} LexCompareAntisymmetric(a: string, b: string)
    ensures LexCompare(b, a) == -LexCompare(a, b)
  {
    if a != [] && b != [] && a[0] == b[0] {
      LexCompareAntisymmetric(a[1..], b[1..]);
    }
  }

  lemma {:induction false} LexCompareTransitive(a: string, b: string, c: string)
    requires LexCompare(a, b) <= 0 && LexCompare(b, c) <= 0
    ensures LexCompare(a, c) <= 0
  {
    if a != [] && b != [] && c != [] && a[0] == b[0] == c[0] {
      LexCompareTransitive(a[1..], b[1..], c[1..]);
    }
  }

  /** What a comparator looks at: the metric (points or lessons missed) and the name. */
  datatype SortKey = SortKey(metric: int, name: string)

  /**
   * The comparator of app.js:55-58 and app.js:62-65: when the metrics differ,
   * the second metric minus the first; otherwise the comparison of the names.
   * It is negative when `a` goes first.
   */
  function Compare(a: SortKey, b: SortKey): (r: int)
    ensures r <= 0 <==> a.metric > b.metric || (a.metric == b.metric && LexLe(a.name, b.name))
    ensures r == 0 <==> a == b
  {
    if b.metric != a.metric then b.metric - a.metric
    else LexCompare(a.name, b.name)
  }

  lemma CompareAntisymmetric(a: SortKey, b: SortKey)
    ensures Compare(b, a) < 0 <==> Compare(a, b) > 0
  {
    LexCompareAntisymmetric(a.name, b.name);
  }

  lemma CompareTransitive(a: SortKey, b: SortKey, c: SortKey)
    requires Compare(a, b) <= 0 && Compare(b, c) <= 0
    ensures Compare(a, c) <= 0
  {
    if a.metric == b.metric == c.metric {
      LexCompareTransitive(a.name, b.name, c.name);
    }
  }

  /**
   * Equal totals are ordered by name, "Amy" before "Zed"; a higher total goes
   * first whatever the names.
   */
  lemma CompareExamples()
    ensures Compare(SortKey(10, "Amy"), SortKey(10, "Zed")) < 0
    ensures Compare(SortKey(12, "Zed"), SortKey(5, "Amy")) < 0
  {
    LexCompareFirstDifference("Amy", "Zed", 0);
  }

  /** `x` may precede `y` in a ranking keyed by `key`. */
  predicate InOrder<T>(key: T -> SortKey, x: T, y: T) {
    Compare(key(x), key(y)) <= 0
  }

  /** Every element ranks before or together with every later one. */
  predicate SortedBy<T>(s: seq<T>, key: T -> SortKey) {
    forall i, j :: 0 <= i < j < |s| ==> InOrder(key, s[i], s[j])
  }

  /** Every element ranks before or together with the next one. */
  predicate AdjacentSortedBy<T>(s: seq<T>, key: T -> SortKey) {
    forall k :: 0 <= k < |s| - 1 ==> InOrder(key, s[k], s[k + 1])
  }

  lemma {:induction false} ChainInOrder<T>(s: seq<T>, key: T -> SortKey, i: nat, j: nat)
    requires AdjacentSortedBy(s, key)
    requires i < j < |s|
    ensures InOrder(key, s[i], s[j])
    decreases j - i
  {
    if i + 1 < j {
      ChainInOrder(s, key, i, j - 1);
      assert InOrder(key, s[j - 1], s[j]);
      CompareTransitive(key(s[i]), key(s[j - 1]), key(s[j]));
    }
  }

  /** Ordered neighbours make a ranking ordered throughout, the comparator being transitive. */
  lemma AdjacentSortedIsSorted<T>(s: seq<T>, key: T -> SortKey)
    requires AdjacentSortedBy(s, key)
    ensures SortedBy(s, key)
  {
    forall i, j | 0 <= i < j < |s|
      ensures InOrder(key, s[i], s[j])
    {
      ChainInOrder(s, key, i, j);
    }
  }

  /** Two comparator values that both allow each other first are the same key. */
  lemma CompareBothWaysIsEqual(a: SortKey, b: SortKey)
    requires Compare(a, b) <= 0 && Compare(b, a) <= 0
    ensures a == b
  {
    CompareAntisymmetric(a, b);
  }

  /** The first elements of two sorted arrangements of the same elements have the same key. */
  lemma SortedFrontsAgree<T>(s: seq<T>, t: seq<T>, key: T -> SortKey) returns (k: nat)
    requires multiset(s) == multiset(t) && s != []
    requires SortedBy(s, key) && SortedBy(t, key)
    ensures k < |t| && t[k] == s[0]
    ensures key(s[0]) == key(t[0])
  {
    assert s[0] in multiset(t);
    k :| 0 <= k < |t| && t[k] == s[0];
    assert t[0] in multiset(s);
    var m :| 0 <= m < |s| && s[m] == t[0];
    assert InOrder(key, s[0], s[m]) && InOrder(key, t[0], t[k]);
    CompareBothWaysIsEqual(key(s[0]), key(t[0]));
  }

  /** Exchanging the front with an element of the same key keeps an arrangement sorted. */
  lemma SwapEqualKeysToFront<T>(t: seq<T>, k: nat, key: T -> SortKey) returns (t': seq<T>)
    requires k < |t| && key(t[k]) == key(t[0])
    requires SortedBy(t, key)
    ensures |t'| == |t| && t'[0] == t[k]
    ensures multiset(t') == multiset(t)
    ensures forall i :: 0 <= i < |t| ==> key(t'[i]) == key(t[i])
    ensures SortedBy(t', key)
  {
    t' := t[k := t[0]][0 := t[k]];
    forall i, j | 0 <= i < j < |t'|
      ensures InOrder(key, t'[i], t'[j])
    {
      assert InOrder(key, t[i], t[j]);
    }
  }

  /** Dropping the first element keeps an arrangement sorted. */
  lemma SortedTail<T>(s: seq<T>, key: T -> SortKey)
    requires SortedBy(s, key) && s != []
    ensures SortedBy(s[1..], key)
  {
    forall i, j | 0 <= i < j < |s| - 1
      ensures InOrder(key, s[1..][i], s[1..][j])
    {
      assert InOrder(key, s[i + 1], s[j + 1]);
    }
  }

  /** Two arrangements of the same elements with the same front have the same elements behind it. */
  lemma TailsOfSameElements<T>(s: seq<T>, t: seq<T>)
    requires multiset(s) == multiset(t) && s != [] && t != [] && s[0] == t[0]
    ensures multiset(s[1..]) == multiset(t[1..])
  {
    assert s == [s[0]] + s[1..] && t == [t[0]] + t[1..];
    assert multiset(s[1..]) == multiset(s) - multiset{s[0]};
    assert multiset(t[1..]) == multiset(t) - multiset{t[0]};
  }

  /**
   * A ranking is determined by its input up to exact (metric, name) ties: any
   * two sorted arrangements of the same elements agree on the key at every
   * position.
   */
  lemma {:induction false} SortedArrangementsAgree<T>(s: seq<T>, t: seq<T>, key: T -> SortKey)
    requires multiset(s) == multiset(t)
    requires SortedBy(s, key) && SortedBy(t, key)
    ensures |s| == |t|
    ensures forall i :: 0 <= i < |s| ==> key(s[i]) == key(t[i])
    decreases |s|
  {
    assert |s| == |multiset(s)| == |multiset(t)| == |t|;
    if s != [] {
      var k := SortedFrontsAgree(s, t, key);
      var t' := SwapEqualKeysToFront(t, k, key);
      TailsOfSameElements(s, t');
      SortedTail(s, key);
      SortedTail(t', key);
      SortedArrangementsAgree(s[1..], t'[1..], key);
      forall i | 0 <= i < |s|
        ensures key(s[i]) == key(t[i])
      {
        if i > 0 {
          assert key(s[1..][i - 1]) == key(t'[1..][i - 1]);
        }
      }
    }
  }
}
