/** What `sort.Slice` promises about a slice, and when that promise determines the result. */
module Sorting {
  /** A comparison Go's sort accepts: equivalence of incomparable elements is transitive. */
  ghost predicate StrictWeak<T(!new)>(less: (T, T) -> bool) {
    && (forall a, b :: less(a, b) ==> !less(b, a))
    && (forall a, b, c :: less(a, c) ==> less(a, b) || less(b, c))
  }

  ghost predicate Ordered<T>(less: (T, T) -> bool, s: seq<T>) {
    forall i, j :: 0 <= i < j < |s| ==> !less(s[j], s[i])
  }

  /** No element occurs twice and no two elements compare equal, whatever the arrangement. */
  ghost predicate Distinct<T(!new)>(less: (T, T) -> bool, m: multiset<T>) {
    && (forall x :: m[x] <= 1)
    && (forall x, y :: x in m && y in m && x != y ==> less(x, y) || less(y, x))
  }

  /** The strict form of `Ordered`. */
  ghost predicate Ascending<T>(less: (T, T) -> bool, s: seq<T>) {
    forall i, j :: 0 <= i < j < |s| ==> less(s[i], s[j])
  }

  function Insert<T>(less: (T, T) -> bool, x: T, s: seq<T>): seq<T> {
    if s == [] || !less(s[0], x) then [x] + s else [s[0]] + Insert(less, x, s[1..])
  }

  function Sort<T>(less: (T, T) -> bool, s: seq<T>): seq<T> {
    if s == [] then [] else Insert(less, s[0], Sort(less, s[1..]))
  }

  lemma {:induction false} InsertPermutes<T>(less: (T, T) -> bool, x: T, s: seq<T>)
    ensures multiset(Insert(less, x, s)) == multiset{x} + multiset(s)
  {
    if s != [] {
      InsertPermutes(less, x, s[1..]);
      assert s == [s[0]] + s[1..];
    }
  }

  lemma {:induction false} SortPermutes<T>(less: (T, T) -> bool, s: seq<T>)
    ensures multiset(Sort(less, s)) == multiset(s)
    ensures |Sort(less, s)| == |s|
  {
    if s != [] {
      SortPermutes(less, s[1..]);
      InsertPermutes(less, s[0], Sort(less, s[1..]));
      assert s == [s[0]] + s[1..];
    }
    assert |multiset(s)| == |s| && |multiset(Sort(less, s))| == |Sort(less, s)|;
  }

  lemma {:induction false} InsertOrders<T(!new)>(less: (T, T) -> bool, x: T, s: seq<T>)
    requires StrictWeak(less) && Ordered(less, s)
    ensures Ordered(less, Insert(less, x, s))
  {
    var r := Insert(less, x, s);
    if s == [] {
    } else if !less(s[0], x) {
      forall j | 1 <= j < |r| ensures !less(r[j], x) {
        assert j > 1 ==> !less(s[j - 1], s[0]);
      }
    } else {
      InsertOrders(less, x, s[1..]);
      InsertPermutes(less, x, s[1..]);
      forall j | 1 <= j < |r| ensures !less(r[j], r[0]) {
        assert r[j] in multiset(Insert(less, x, s[1..]));
        assert r[j] == x || r[j] in s[1..];
      }
    }
  }

  lemma {:induction false} SortOrders<T(!new)>(less: (T, T) -> bool, s: seq<T>)
    requires StrictWeak(less)
    ensures Ordered(less, Sort(less, s))
  {
    if s != [] {
      SortOrders(less, s[1..]);
      InsertOrders(less, s[0], Sort(less, s[1..]));
    }
  }

  /** Two ordered arrangements of the same elements agree when no two elements compare equal,
      so an unstable sort of distinct keys has one possible result. */
  lemma {:induction false} OrderedUnique<T(!new)>(less: (T, T) -> bool, a: seq<T>, b: seq<T>)
    requires multiset(a) == multiset(b)
    requires Ordered(less, a) && Ordered(less, b) && Distinct(less, multiset(a))
    ensures a == b
  {
    assert |multiset(a)| == |a| && |multiset(b)| == |b|;
    if a != [] {
      HeadsAgree(less, a, b);
      assert a == [a[0]] + a[1..] && b == [b[0]] + b[1..];
      assert multiset(a[1..]) == multiset(a) - multiset{a[0]};
      OrderedUnique(less, a[1..], b[1..]);
    }
  }

  lemma HeadsAgree<T(!new)>(less: (T, T) -> bool, a: seq<T>, b: seq<T>)
    requires multiset(a) == multiset(b) && a != [] && b != []
    requires Ordered(less, a) && Ordered(less, b) && Distinct(less, multiset(a))
    ensures a[0] == b[0]
  {
    assert a[0] in multiset(b) && b[0] in multiset(a);
    var i :| 0 <= i < |a| && a[i] == b[0];
    var j :| 0 <= j < |b| && b[j] == a[0];
    assert i > 0 ==> !less(a[i], a[0]);
    assert j > 0 ==> !less(b[j], b[0]);
  }

  /** Pairwise comparable positions are what `Distinct` asks for. */
  lemma {:induction false} DistinctPositions<T(!new)>(less: (T, T) -> bool, s: seq<T>)
    requires StrictWeak(less)
    requires forall i, j :: 0 <= i < j < |s| ==> less(s[i], s[j]) || less(s[j], s[i])
    ensures Distinct(less, multiset(s))
  {
    if s != [] {
      DistinctPositions(less, s[1..]);
      assert s == [s[0]] + s[1..];
      assert forall k :: 1 <= k < |s| ==> s[k] != s[0];
      assert s[0] !in s[1..];
      forall x, y | x in multiset(s) && y in multiset(s) && x != y ensures less(x, y) || less(y, x) {
        var i :| 0 <= i < |s| && s[i] == x;
        var j :| 0 <= j < |s| && s[j] == y;
      }
    }
  }

  lemma OrderedDistinctAscends<T(!new)>(less: (T, T) -> bool, s: seq<T>)
    requires Ordered(less, s) && Distinct(less, multiset(s))
    ensures Ascending(less, s)
  {
    forall i, j | 0 <= i < j < |s| ensures less(s[i], s[j]) {
      assert s == s[..j] + s[j..];
      assert s[i] in s[..j] && s[j] in s[j..];
      assert multiset(s)[s[j]] == multiset(s[..j])[s[j]] + multiset(s[j..])[s[j]];
      assert s[i] in multiset(s) && s[j] in multiset(s);
    }
  }

  lemma AscendingDistinct<T(!new)>(less: (T, T) -> bool, s: seq<T>)
    requires StrictWeak(less) && Ascending(less, s)
    ensures Ordered(less, s) && Distinct(less, multiset(s))
  {
    DistinctPositions(less, s);
  }

  /** `sort.Slice`: some ordered arrangement, nothing said about elements that compare equal. */
  method SortSlice<T(!new)>(less: (T, T) -> bool, s: seq<T>) returns (r: seq<T>)
    requires StrictWeak(less)
    ensures multiset(r) == multiset(s) && Ordered(less, r)
  {
    r := Sort(less, s);
    SortPermutes(less, s);
    SortOrders(less, s);
  }

  /** `sort.Slice` on a slice someone else may hold: in place. */
  method SortInPlace<T(!new)>(less: (T, T) -> bool, a: array<T>)
    requires StrictWeak(less)
    modifies a
    ensures multiset(a[..]) == multiset(old(a[..])) && Ordered(less, a[..])
  {
    var sorted := SortSlice(less, a[..]);
    assert |multiset(sorted)| == |multiset(a[..])|;
    forall i | 0 <= i < a.Length {
      a[i] := sorted[i];
    }
    assert a[..] == sorted;
  }
}
