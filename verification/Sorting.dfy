/**
 Sorting by a strict order. Whatever sort is used, its result is forced once the order
 separates the elements, so a model may sort by insertion where the program calls std::sort.
 */
module Sorting {

  /** Strictly increasing, hence without repeats. */
  ghost predicate Increasing<T>(less: (T, T) -> bool, s: seq<T>) {
    forall i, j :: 0 <= i < j < |s| ==> less(s[i], s[j])
  }

  ghost predicate Asymmetric<T>(less: (T, T) -> bool, s: seq<T>) {
    forall x, y :: x in s && y in s && less(x, y) ==> !less(y, x)
  }

  ghost predicate Transitive<T>(less: (T, T) -> bool, s: seq<T>) {
    forall x, y, z :: x in s && y in s && z in s && less(x, y) && less(y, z) ==> less(x, z)
  }

  /** Any two positions of s hold elements that the order tells apart. */
  ghost predicate Separates<T>(less: (T, T) -> bool, s: seq<T>) {
    forall i, j :: 0 <= i < j < |s| ==> less(s[i], s[j]) || less(s[j], s[i])
  }

  ghost predicate StrictTotalOn<T>(less: (T, T) -> bool, s: seq<T>) {
    Asymmetric(less, s) && Transitive(less, s) && Separates(less, s)
  }

  function Insert<T>(less: (T, T) -> bool, x: T, s: seq<T>): (r: seq<T>)
    ensures multiset(r) == multiset(s) + multiset{x}
  {
    if s == [] then [x]
    else if less(x, s[0]) then [x] + s
    else
      var r := [s[0]] + Insert(less, x, s[1..]);
      assert s == [s[0]] + s[1..];
      r
  }

  function SortBy<T>(less: (T, T) -> bool, s: seq<T>): (r: seq<T>)
    ensures multiset(r) == multiset(s)
  {
    if s == [] then []
    else
      var r := Insert(less, s[0], SortBy(less, s[1..]));
      assert s == [s[0]] + s[1..];
      r
  }

  lemma SameMembers<T>(a: seq<T>, b: seq<T>)
    requires multiset(a) == multiset(b)
    ensures |a| == |b| && forall x :: x in a <==> x in b
  {
    assert |multiset(a)| == |a| && |multiset(b)| == |b|;
    assert forall x :: x in a <==> x in multiset(a);
    assert forall x :: x in b <==> x in multiset(b);
  }

  lemma {:induction false} InsertMembers<T>(less: (T, T) -> bool, x: T, s: seq<T>, y: T)
    requires y in Insert(less, x, s)
    ensures y == x || y in s
  {
    assert y in multiset(Insert(less, x, s));
    assert y in multiset(s) + multiset{x};
  }

  lemma PrependIncreasing<T>(less: (T, T) -> bool, x: T, s: seq<T>)
    requires Increasing(less, s) && forall y :: y in s ==> less(x, y)
    ensures Increasing(less, [x] + s)
  {
  }

  lemma {:induction false} InsertIncreasing<T>(less: (T, T) -> bool, x: T, s: seq<T>)
    requires Increasing(less, s)
    requires forall y :: y in s ==> less(x, y) || less(y, x)
    requires Transitive(less, [x] + s)
    ensures Increasing(less, Insert(less, x, s))
  {
    if s == [] {
    } else if less(x, s[0]) {
      forall y | y in s ensures less(x, y) {
        assert s[0] in [x] + s && x in [x] + s && y in [x] + s;
        assert y == s[0] || less(s[0], y);
      }
      PrependIncreasing(less, x, s);
    } else {
      assert s[0] in s;
      forall y | y in s[1..] ensures less(s[0], y) {}
      assert forall y :: y in [x] + s[1..] ==> y in [x] + s;
      InsertIncreasing(less, x, s[1..]);
      forall y | y in Insert(less, x, s[1..]) ensures less(s[0], y) {
        InsertMembers(less, x, s[1..], y);
      }
      PrependIncreasing(less, s[0], Insert(less, x, s[1..]));
    }
  }

  lemma {:induction false} SortIncreasing<T>(less: (T, T) -> bool, s: seq<T>)
    requires Transitive(less, s) && Separates(less, s)
    ensures Increasing(less, SortBy(less, s))
  {
    if s != [] {
      SortIncreasing(less, s[1..]);
      var tail := SortBy(less, s[1..]);
      forall y | y in tail
        ensures y in s && (less(s[0], y) || less(y, s[0]))
      {
        assert y in multiset(tail) && y in multiset(s[1..]);
        var i :| 0 <= i < |s[1..]| && s[1..][i] == y;
        assert s[i + 1] == y;
      }
      assert forall y :: y in [s[0]] + tail ==> y in s;
      InsertIncreasing(less, s[0], tail);
    }
  }

  lemma SameLeast<T>(less: (T, T) -> bool, a: seq<T>, b: seq<T>)
    requires a != [] && b != [] && a[0] in b && b[0] in a
    requires Increasing(less, a) && Increasing(less, b)
    requires less(a[0], b[0]) ==> !less(b[0], a[0])
    ensures a[0] == b[0]
  {
    var i :| 0 <= i < |b| && b[i] == a[0];
    var j :| 0 <= j < |a| && a[j] == b[0];
  }

  /** Increasing sequences with the same members are equal, however often the members were given. */
  lemma {:induction false} UniqueByMembers<T>(less: (T, T) -> bool, a: seq<T>, b: seq<T>)
    requires forall x :: x in a <==> x in b
    requires Increasing(less, a) && Increasing(less, b) && Asymmetric(less, a)
    ensures a == b
  {
    if b != [] {
      assert b[0] in b;
    }
    if a != [] {
      assert a[0] in a;
      SameLeast(less, a, b);
      forall x
        ensures x in a[1..] <==> x in b[1..]
      {
        TailMembers(less, a, x);
        TailMembers(less, b, x);
      }
      UniqueByMembers(less, a[1..], b[1..]);
      assert a == [a[0]] + a[1..] && b == [b[0]] + b[1..];
    }
  }

  lemma TailMembers<T>(less: (T, T) -> bool, s: seq<T>, x: T)
    requires s != [] && Increasing(less, s) && !less(s[0], s[0])
    ensures x in s[1..] <==> x in s && x != s[0]
  {
    if x in s && x != s[0] {
      var i :| 0 <= i < |s| && s[i] == x;
      assert s[1..][i - 1] == x;
    }
  }

  /** Any other sort of s that yields an increasing arrangement agrees with SortBy. */
  lemma {:induction false} AnySortAgrees<T>(less: (T, T) -> bool, s: seq<T>, sorted: seq<T>)
    requires StrictTotalOn(less, s)
    requires multiset(sorted) == multiset(s) && Increasing(less, sorted)
    ensures sorted == SortBy(less, s)
  {
    SortIncreasing(less, s);
    SameMembers(s, sorted);
    SameMembers(s, SortBy(less, s));
    UniqueByMembers(less, sorted, SortBy(less, s));
  }

  /** The sorted sequence depends on the elements only, not on the order they came in. */
  lemma {:induction false} SortIgnoresOrder<T>(less: (T, T) -> bool, s: seq<T>, t: seq<T>)
    requires multiset(s) == multiset(t)
    requires StrictTotalOn(less, s) && StrictTotalOn(less, t)
    ensures SortBy(less, s) == SortBy(less, t)
  {
    SortIncreasing(less, t);
    AnySortAgrees(less, s, SortBy(less, t));
  }

  // ---------------------------------------------------------------- filtering

  /** The kept elements in order, each mapped. */
  function Collected<T>(s: seq<T>, keep: T -> bool, change: T -> T): seq<T> {
    if s == [] then []
    else
      var front, last := Collected(s[..|s| - 1], keep, change), s[|s| - 1];
      if keep(last) then front + [change(last)] else front
  }

  function Without<T>(s: seq<T>, i: nat): seq<T>
    requires i < |s|
  {
    s[..i] + s[i + 1..]
  }

  lemma WithoutMultiset<T>(s: seq<T>, i: nat)
    requires i < |s|
    ensures multiset(Without(s, i)) == multiset(s) - multiset{s[i]}
  {
    assert s == s[..i] + [s[i]] + s[i + 1..];
  }

  /** What one element contributes. */
  function CollectedOne<T>(x: T, keep: T -> bool, change: T -> T): multiset<T> {
    if keep(x) then multiset{change(x)} else multiset{}
  }

  lemma {:induction false} CollectedLast<T>(s: seq<T>, x: T, keep: T -> bool, change: T -> T)
    ensures multiset(Collected(s + [x], keep, change)) == multiset(Collected(s, keep, change)) + CollectedOne(x, keep, change)
  {
    assert (s + [x])[..|s|] == s;
  }

  lemma {:induction false} CollectedSplit<T>(s: seq<T>, i: nat, keep: T -> bool, change: T -> T)
    requires i < |s|
    ensures multiset(Collected(s, keep, change)) == CollectedOne(s[i], keep, change) + multiset(Collected(Without(s, i), keep, change))
  {
    var n := |s| - 1;
    var front, last := s[..n], s[n];
    assert s == front + [last];
    CollectedLast(front, last, keep, change);
    if i == n {
      assert Without(s, i) == front;
    } else {
      CollectedSplit(front, i, keep, change);
      assert Without(s, i) == Without(front, i) + [last];
      CollectedLast(Without(front, i), last, keep, change);
    }
  }

  /** Filtering and mapping a permuted list gives the same elements, equally often. */
  lemma {:induction false} CollectedPermuted<T>(s: seq<T>, t: seq<T>, keep: T -> bool, change: T -> T)
    requires multiset(s) == multiset(t)
    ensures multiset(Collected(s, keep, change)) == multiset(Collected(t, keep, change))
  {
    SameMembers(s, t);
    if s != [] {
      assert s[0] in s;
      var i :| 0 <= i < |t| && t[i] == s[0];
      WithoutMultiset(s, 0);
      WithoutMultiset(t, i);
      CollectedPermuted(Without(s, 0), Without(t, i), keep, change);
      CollectedSplit(s, 0, keep, change);
      CollectedSplit(t, i, keep, change);
    }
  }

  // ---------------------------------------------------------------- lexicographic order

  predicate LexLess<T(==)>(less: (T, T) -> bool, a: seq<T>, b: seq<T>) {
    if b == [] then false
    else if a == [] then true
    else if a[0] != b[0] then less(a[0], b[0])
    else LexLess(less, a[1..], b[1..])
  }

  ghost predicate TotalOrder<T(!new)>(less: (T, T) -> bool) {
    && (forall x, y :: less(x, y) ==> !less(y, x))
    && (forall x, y :: x != y ==> less(x, y) || less(y, x))
    && (forall x, y, z :: less(x, y) && less(y, z) ==> less(x, z))
  }

  lemma {:induction false} LexIrreflexive<T>(less: (T, T) -> bool, a: seq<T>)
    ensures !LexLess(less, a, a)
  {
    if a != [] {
      LexIrreflexive(less, a[1..]);
    }
  }

  lemma {:induction false} LexAsymmetric<T(!new)>(less: (T, T) -> bool, a: seq<T>, b: seq<T>)
    requires TotalOrder(less) && LexLess(less, a, b)
    ensures !LexLess(less, b, a)
  {
    if a != [] && a[0] == b[0] {
      LexAsymmetric(less, a[1..], b[1..]);
    }
  }

  lemma {:induction false} LexTransitive<T(!new)>(less: (T, T) -> bool, a: seq<T>, b: seq<T>, c: seq<T>)
    requires TotalOrder(less) && LexLess(less, a, b) && LexLess(less, b, c)
    ensures LexLess(less, a, c)
  {
    if a != [] && a[0] == b[0] == c[0] {
      LexTransitive(less, a[1..], b[1..], c[1..]);
    }
  }

  lemma {:induction false} LexTotal<T(!new)>(less: (T, T) -> bool, a: seq<T>, b: seq<T>)
    requires TotalOrder(less) && a != b
    ensures LexLess(less, a, b) || LexLess(less, b, a)
  {
    if a != [] && b != [] && a[0] == b[0] {
      assert a == [a[0]] + a[1..] && b == [b[0]] + b[1..];
      LexTotal(less, a[1..], b[1..]);
    }
  }
}
