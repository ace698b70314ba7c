/** The stable sort of a JavaScript array, as a function of its comparator. */
module Sorting {

  /** A comparator that `Array.prototype.sort` can work with: total and transitive; ties are allowed. */
  ghost predicate Preorder<T(!new)>(le: (T, T) -> bool) {
    && (forall x, y :: le(x, y) || le(y, x))
    && (forall x, y, z :: le(x, y) && le(y, z) ==> le(x, z))
  }

  /** A comparator without ties, such as `localeCompare` on distinct strings. */
  ghost predicate TotalOrder<T(!new)>(le: (T, T) -> bool) {
    Preorder(le) && forall x, y :: le(x, y) && le(y, x) ==> x == y
  }

  predicate Sorted<T>(le: (T, T) -> bool, s: seq<T>) {
    forall i, j | 0 <= i < j < |s| :: le(s[i], s[j])
  }

  /** `x` came before the elements of `s`, so it goes in front of its equals. */
  function Insert<T>(le: (T, T) -> bool, x: T, s: seq<T>): seq<T> {
    if s == [] || le(x, s[0]) then [x] + s
    else [s[0]] + Insert(le, x, s[1..])
  }

  function Sort<T>(le: (T, T) -> bool, s: seq<T>): seq<T> {
    if s == [] then [] else Insert(le, s[0], Sort(le, s[1..]))
  }

  lemma {:induction false} InsertPermutes<T>(le: (T, T) -> bool, x: T, s: seq<T>)
    ensures multiset(Insert(le, x, s)) == multiset{x} + multiset(s)
  {
    if s != [] && !le(x, s[0]) {
      assert s == [s[0]] + s[1..];
      InsertPermutes(le, x, s[1..]);
    }
  }

  lemma {:induction false} InsertSorts<T(!new)>(le: (T, T) -> bool, x: T, s: seq<T>)
    requires Preorder(le) && Sorted(le, s)
    ensures Sorted(le, Insert(le, x, s))
  {
    if s != [] && !le(x, s[0]) {
      InsertSorts(le, x, s[1..]);
      InsertPermutes(le, x, s[1..]);
      var r := Insert(le, x, s[1..]);
      forall y | y in r ensures le(s[0], y) {
        assert y in multiset(r);
        assert y == x || y in s[1..];
      }
    }
  }

  lemma {:induction false} SortPermutes<T>(le: (T, T) -> bool, s: seq<T>)
    ensures multiset(Sort(le, s)) == multiset(s)
    ensures |Sort(le, s)| == |s|
    ensures forall x :: x in Sort(le, s) <==> x in s
  {
    if s != [] {
      assert s == [s[0]] + s[1..];
      SortPermutes(le, s[1..]);
      InsertPermutes(le, s[0], Sort(le, s[1..]));
    }
    assert |multiset(Sort(le, s))| == |multiset(s)|;
    forall x ensures x in Sort(le, s) <==> x in s {
      assert x in multiset(Sort(le, s)) <==> x in multiset(s);
    }
  }

  lemma {:induction false} SortSorts<T(!new)>(le: (T, T) -> bool, s: seq<T>)
    requires Preorder(le)
    ensures Sorted(le, Sort(le, s))
  {
    if s != [] {
      SortSorts(le, s[1..]);
      InsertSorts(le, s[0], Sort(le, s[1..]));
    }
  }

  /** Stability: a sequence that is already sorted, ties included, is left alone. */
  lemma {:induction false} SortOfSorted<T>(le: (T, T) -> bool, s: seq<T>)
    requires Sorted(le, s)
    ensures Sort(le, s) == s
  {
    if s != [] {
      SortOfSorted(le, s[1..]);
    }
  }

  ghost predicate Before<T(!new)>(s: seq<T>, x: T, y: T) {
    exists i, j :: 0 <= i < j < |s| && s[i] == x && s[j] == y
  }

  lemma {:induction false} InsertGoesBefore<T(!new)>(le: (T, T) -> bool, x: T, s: seq<T>, y: T)
    requires y in s && le(x, y)
    ensures Before(Insert(le, x, s), x, y)
  {
    var r := Insert(le, x, s);
    if le(x, s[0]) {
      var j :| 0 <= j < |s| && s[j] == y;
      assert r[0] == x && r[j + 1] == y;
    } else {
      InsertGoesBefore(le, x, s[1..], y);
      var i, j :| 0 <= i < j < |r[1..]| && r[1..][i] == x && r[1..][j] == y;
      assert r[i + 1] == x && r[j + 1] == y;
    }
  }

  lemma {:induction false} InsertKeepsBefore<T(!new)>(le: (T, T) -> bool, z: T, s: seq<T>, x: T, y: T)
    requires Before(s, x, y)
    ensures Before(Insert(le, z, s), x, y)
  {
    var i, j :| 0 <= i < j < |s| && s[i] == x && s[j] == y;
    var r := Insert(le, z, s);
    if le(z, s[0]) {
      assert r[i + 1] == x && r[j + 1] == y;
    } else if i == 0 {
      InsertHolds(le, z, s[1..], y);
      var k :| 0 <= k < |r[1..]| && r[1..][k] == y;
      assert r[0] == x && r[k + 1] == y;
    } else {
      assert s[1..][i - 1] == x && s[1..][j - 1] == y;
      InsertKeepsBefore(le, z, s[1..], x, y);
      var k, l :| 0 <= k < l < |r[1..]| && r[1..][k] == x && r[1..][l] == y;
      assert r[k + 1] == x && r[l + 1] == y;
    }
  }

  lemma InsertHolds<T>(le: (T, T) -> bool, z: T, s: seq<T>, y: T)
    requires y in s
    ensures y in Insert(le, z, s)
  {
    InsertPermutes(le, z, s);
    assert y in multiset(Insert(le, z, s));
  }

  /** Stability: what came first stays first unless the order forbids it. */
  lemma {:induction false} SortIsStable<T(!new)>(le: (T, T) -> bool, s: seq<T>, x: T, y: T)
    requires Before(s, x, y) && le(x, y)
    ensures Before(Sort(le, s), x, y)
  {
    var i, j :| 0 <= i < j < |s| && s[i] == x && s[j] == y;
    SortPermutes(le, s[1..]);
    if i == 0 {
      assert s[1..][j - 1] == y;
      InsertGoesBefore(le, x, Sort(le, s[1..]), y);
    } else {
      assert s[1..][i - 1] == x && s[1..][j - 1] == y;
      SortIsStable(le, s[1..], x, y);
      InsertKeepsBefore(le, s[0], Sort(le, s[1..]), x, y);
    }
  }

  /** Two sorted arrangements of the same elements agree when no two of the elements tie. */
  lemma {:induction false} SortedUnique<T>(le: (T, T) -> bool, a: seq<T>, b: seq<T>)
    requires Sorted(le, a) && Sorted(le, b) && multiset(a) == multiset(b)
    requires forall x, y | x in a && y in a :: le(x, y) && le(y, x) ==> x == y
    ensures a == b
  {
    assert |multiset(a)| == |multiset(b)|;
    if a != [] {
      assert a[0] == b[0] by {
        assert a[0] in multiset(b);
        assert b[0] in multiset(a);
      }
      TailMultiset(a);
      TailMultiset(b);
      SortedUnique(le, a[1..], b[1..]);
    }
  }

  lemma TailMultiset<T>(s: seq<T>)
    requires s != []
    ensures multiset(s[1..]) == multiset(s) - multiset{s[0]}
  {
    assert s == [s[0]] + s[1..];
  }
}
