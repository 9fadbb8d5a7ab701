/** Sequence, set and order facts that several modules share. */
module Collections {

  datatype Option<+T> = None | Some(value: T)

  predicate Distinct<T(==)>(s: seq<T>) {
    forall i, j :: 0 <= i < j < |s| ==> s[i] != s[j]
  }

  function SetOf<T>(s: seq<T>): set<T> {
    set x | x in s
  }

  predicate StrictlySorted(s: seq<int>) {
    forall i, j :: 0 <= i < j < |s| ==> s[i] < s[j]
  }

  /** Dictionary order, the order Python uses to compare lists of identifiers. */
  predicate LexLeq(a: seq<int>, b: seq<int>) {
    a == [] || (b != [] && (a[0] < b[0] || (a[0] == b[0] && LexLeq(a[1..], b[1..]))))
  }

  lemma {:induction false} LexAntisymmetric(a: seq<int>, b: seq<int>)
    requires LexLeq(a, b) && LexLeq(b, a)
    ensures a == b
  {
    if a != [] {
      LexAntisymmetric(a[1..], b[1..]);
      assert a == [a[0]] + a[1..] && b == [b[0]] + b[1..];
    }
  }

  /** Two sequences that agree before k and differ upwards at k are ordered. */
  lemma {:induction false} LexFirstDifference(a: seq<int>, b: seq<int>, k: nat)
    requires k < |a| && k < |b|
    requires a[..k] == b[..k] && a[k] < b[k]
    ensures LexLeq(a, b)
    decreases k
  {
    if k > 0 {
      assert a[0] == a[..k][0] == b[..k][0] == b[0];
      assert a[1..][..k - 1] == a[..k][1..] == b[..k][1..] == b[1..][..k - 1];
      LexFirstDifference(a[1..], b[1..], k - 1);
    }
  }

  lemma {:induction false} LexReflexive(a: seq<int>)
    ensures LexLeq(a, a)
  {
    if a != [] { LexReflexive(a[1..]); }
  }

  /** The test the sources write as len(x) == len(set(x)). */
  lemma {:induction false} DistinctCardinality<T>(s: seq<T>)
    ensures |SetOf(s)| <= |s|
    ensures Distinct(s) <==> |SetOf(s)| == |s|
  {
    if s != [] {
      var init, last := s[..|s| - 1], s[|s| - 1];
      DistinctCardinality(init);
      assert s == init + [last];
      if last in init {
        assert SetOf(s) == SetOf(init);
      } else {
        assert SetOf(s) == SetOf(init) + {last};
        if Distinct(init) {
          assert forall i :: 0 <= i < |init| ==> s[i] == init[i] && init[i] != last;
        } else {
          var i, j :| 0 <= i < j < |init| && init[i] == init[j];
          assert s[i] == s[j];
        }
      }
    }
  }

  lemma SubsetCardinality<T>(a: set<T>, b: set<T>)
    requires a <= b
    ensures |a| <= |b|
    ensures |a| == |b| ==> a == b
  {
    assert b == a + (b - a);
  }

  /** A sequence inside a set smaller than itself repeats an element. */
  lemma Pigeonhole<T>(s: seq<T>, bound: set<T>) returns (i: nat, j: nat)
    requires SetOf(s) <= bound && |bound| < |s|
    ensures i < j < |s| && s[i] == s[j]
  {
    DistinctCardinality(s);
    SubsetCardinality(SetOf(s), bound);
    i, j :| 0 <= i < j < |s| && s[i] == s[j];
  }

  lemma DistinctMultiset<T>(s: seq<T>, x: T)
    requires Distinct(s)
    ensures multiset(s)[x] == if x in s then 1 else 0
  {
    if s != [] {
      assert s == [s[0]] + s[1..];
      assert multiset(s) == multiset{s[0]} + multiset(s[1..]);
      assert Distinct(s[1..]) by {
        assert forall i :: 0 <= i < |s[1..]| ==> s[1..][i] == s[i + 1];
      }
      DistinctMultiset(s[1..], x);
    }
  }

  lemma SameElementsSameMultiset<T>(a: seq<T>, b: seq<T>)
    requires Distinct(a) && Distinct(b) && SetOf(a) == SetOf(b)
    ensures multiset(a) == multiset(b)
  {
    forall x ensures multiset(a)[x] == multiset(b)[x] {
      DistinctMultiset(a, x);
      DistinctMultiset(b, x);
      assert x in a <==> x in SetOf(a);
      assert x in b <==> x in SetOf(b);
    }
  }

  lemma SortedTail(s: seq<int>)
    requires StrictlySorted(s) && s != []
    ensures StrictlySorted(s[1..]) && SetOf(s) == {s[0]} + SetOf(s[1..])
    ensures forall y :: y in SetOf(s[1..]) ==> s[0] < y
  {
  }

  lemma PrependSmallest(x: int, s: seq<int>)
    requires StrictlySorted(s) && forall y :: y in SetOf(s) ==> x < y
    ensures StrictlySorted([x] + s) && SetOf([x] + s) == {x} + SetOf(s)
  {
    forall i, j | 0 <= i < j < |s| + 1
      ensures ([x] + s)[i] < ([x] + s)[j]
    {
      assert s[j - 1] in SetOf(s);
    }
  }

  /** Rearranging keeps elements distinct. */
  lemma DistinctPermutation<T>(a: seq<T>, b: seq<T>)
    requires multiset(a) == multiset(b) && Distinct(a)
    ensures Distinct(b) && SetOf(a) == SetOf(b)
  {
    forall x ensures x in SetOf(a) <==> x in SetOf(b) {
      assert x in multiset(a) <==> x in multiset(b);
    }
    assert SetOf(a) == SetOf(b);
    assert |multiset(a)| == |a| && |multiset(b)| == |b|;
    DistinctCardinality(a);
    DistinctCardinality(b);
  }

  /** Insertion into an ascending list; what appending and re-sorting one element gives. */
  function Insert(x: int, s: seq<int>): (r: seq<int>)
    requires StrictlySorted(s) && x !in s
    ensures StrictlySorted(r) && SetOf(r) == SetOf(s) + {x} && |r| == |s| + 1
  {
    if s == [] then [x]
    else
      SortedTail(s);
      if x < s[0] then
        PrependSmallest(x, s);
        [x] + s
      else
        var rest := Insert(x, s[1..]);
        PrependSmallest(s[0], rest);
        [s[0]] + rest
  }

  /** The dict comprehension {key(x): x for x in s}: the last element of a key wins. */
  function KeyedBy<T>(key: T -> int, s: seq<T>): (m: map<int, T>)
    ensures forall k :: k in m ==> m[k] in s && key(m[k]) == k
    ensures forall i :: 0 <= i < |s| ==> key(s[i]) in m
  {
    if s == [] then map[] else KeyedBy(key, s[..|s| - 1])[key(s[|s| - 1]) := s[|s| - 1]]
  }

  lemma TakeAll<T>(s: seq<T>)
    ensures s[..|s|] == s
  {
  }

  lemma PrefixNext<T>(s: seq<T>, k: nat)
    requires k < |s|
    ensures s[..k + 1] == s[..k] + [s[k]]
    ensures SetOf(s[..k + 1]) == SetOf(s[..k]) + {s[k]}
  {
  }

  lemma SameMap<K, V>(a: map<K, V>, b: map<K, V>)
    requires forall k :: k in a <==> k in b
    requires forall k :: k in a && k in b ==> a[k] == b[k]
    ensures a == b
  {
  }

  lemma AnElement<T>(s: set<T>) returns (x: T)
    requires |s| > 0
    ensures x in s
  {
    x :| x in s;
  }

  lemma {:induction false} HasMinimum(s: set<int>)
    requires |s| > 0
    ensures exists x :: x in s && forall y :: y in s ==> x <= y
    decreases |s|
  {
    var z := AnElement(s);
    var rest := s - {z};
    if |rest| == 0 {
      assert forall y :: y in s ==> y == z || y in rest;
    } else {
      HasMinimum(rest);
      var x :| x in rest && forall y :: y in rest ==> x <= y;
      var m := if x < z then x else z;
      assert m in s;
      assert forall y :: y in s ==> y == z || y in rest;
    }
  }

  function Minimum(s: set<int>): (m: int)
    requires |s| > 0
    ensures m in s && forall y :: y in s ==> m <= y
  {
    HasMinimum(s);
    var x :| x in s && forall y :: y in s ==> x <= y;
    x
  }

  /** Python's sorted() of a set of identifiers. */
  function SortedSeq(s: set<int>): (r: seq<int>)
    ensures StrictlySorted(r) && SetOf(r) == s && |r| == |s|
    decreases |s|
  {
    if |s| == 0 then []
    else
      var x := Minimum(s);
      var rest := SortedSeq(s - {x});
      PrependSmallest(x, rest);
      [x] + rest
  }

  lemma SetNonEmpty<T>(s: seq<T>)
    requires s != []
    ensures SetOf(s) != {}
  {
    assert s[0] in SetOf(s);
  }

  /** An ascending list is determined by its elements. */
  lemma {:induction false} SortedUnique(a: seq<int>, b: seq<int>)
    requires StrictlySorted(a) && StrictlySorted(b) && SetOf(a) == SetOf(b)
    ensures a == b
  {
    if a == [] {
      if b != [] { SetNonEmpty(b); }
    } else {
      assert a[0] in SetOf(a);
      assert b[0] in SetOf(b);
      var i :| 0 <= i < |b| && b[i] == a[0];
      var j :| 0 <= j < |a| && a[j] == b[0];
      assert a[0] == b[0];
      assert SetOf(a[1..]) == SetOf(a) - {a[0]};
      assert SetOf(b[1..]) == SetOf(b) - {b[0]};
      SortedUnique(a[1..], b[1..]);
      assert a == [a[0]] + a[1..] && b == [b[0]] + b[1..];
    }
  }

  /** sum(f(x) for x in s) */
  function Total<T>(f: T -> int, s: seq<T>): int {
    if s == [] then 0 else Total(f, s[..|s| - 1]) + f(s[|s| - 1])
  }

  lemma {:induction false} TotalConcat<T>(f: T -> int, a: seq<T>, b: seq<T>)
    ensures Total(f, a + b) == Total(f, a) + Total(f, b)
  {
    if b == [] {
      assert a + b == a;
    } else {
      TotalConcat(f, a, b[..|b| - 1]);
      assert (a + b)[..|a + b| - 1] == a + b[..|b| - 1];
    }
  }

  /** A sum does not depend on the order of its terms. */
  lemma {:induction false} TotalPermutation<T>(f: T -> int, a: seq<T>, b: seq<T>)
    requires multiset(a) == multiset(b)
    ensures Total(f, a) == Total(f, b)
  {
    if a == [] {
      assert |multiset(b)| == |b|;
    } else {
      var last := a[|a| - 1];
      var rest := a[..|a| - 1];
      assert a == rest + [last];
      assert last in multiset(b);
      var k :| 0 <= k < |b| && b[k] == last;
      RemoveOne(f, b, k);
      WithoutOne(b, k);
      assert multiset(a) == multiset(rest) + multiset{last};
      assert multiset(rest) == multiset(a) - multiset{last} == multiset(b) - multiset{last};
      TotalPermutation(f, rest, b[..k] + b[k + 1..]);
    }
  }

  lemma WithoutOne<T>(b: seq<T>, k: nat)
    requires k < |b|
    ensures multiset(b[..k] + b[k + 1..]) == multiset(b) - multiset{b[k]}
  {
    assert b == b[..k] + ([b[k]] + b[k + 1..]);
    assert multiset(b) == multiset(b[..k]) + (multiset{b[k]} + multiset(b[k + 1..]));
    assert multiset(b[..k] + b[k + 1..]) == multiset(b[..k]) + multiset(b[k + 1..]);
  }

  /** A sum of terms that are not negative does not shrink when terms are added. */
  lemma {:induction false} TotalMonotone<T>(f: T -> int, a: seq<T>, b: seq<T>)
    requires multiset(a) <= multiset(b) && forall x :: x in b ==> f(x) >= 0
    ensures Total(f, a) <= Total(f, b)
    decreases |b|
  {
    if b != [] {
      var last, rest := b[|b| - 1], b[..|b| - 1];
      assert b == rest + [last] && multiset(b) == multiset(rest) + multiset{last};
      if last in a {
        var k :| 0 <= k < |a| && a[k] == last;
        WithoutOne(a, k);
        RemoveOne(f, a, k);
        TotalMonotone(f, a[..k] + a[k + 1..], rest);
      } else {
        TotalMonotone(f, a, rest);
      }
    } else {
      assert |multiset(a)| == |a|;
    }
  }

  lemma TotalAppend<T>(f: T -> int, s: seq<T>, x: T)
    ensures Total(f, s + [x]) == Total(f, s) + f(x)
  {
    assert (s + [x])[..|s|] == s;
  }

  lemma TotalInsert<T>(f: T -> int, head: seq<T>, x: T, tail: seq<T>)
    ensures Total(f, head + [x] + tail) == Total(f, head + tail) + f(x)
  {
    TotalConcat(f, head + [x], tail);
    TotalConcat(f, head, tail);
    TotalAppend(f, head, x);
  }

  lemma TakenApart<T>(b: seq<T>, k: nat)
    requires k < |b|
    ensures b == b[..k] + [b[k]] + b[k + 1..]
  {
  }

  lemma RemoveOne<T>(f: T -> int, b: seq<T>, k: nat)
    requires k < |b|
    ensures Total(f, b) == Total(f, b[..k] + b[k + 1..]) + f(b[k])
  {
    TakenApart(b, k);
    TotalInsert(f, b[..k], b[k], b[k + 1..]);
  }
}
