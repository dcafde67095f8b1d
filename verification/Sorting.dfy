/** Stable sorting by a comparator, and when its result does not depend on the input order. */
module Sorting {
  /** `le(a, b)` holds when the comparator does not put `b` before `a`. */
  ghost predicate TotalPreorder<K(!new)>(le: (K, K) -> bool) {
    && (forall a, b :: le(a, b) || le(b, a))
    && (forall a, b, c :: le(a, b) && le(b, c) ==> le(a, c))
  }

  /** The comparator tells any two different values apart. */
  ghost predicate NoTies<K(!new)>(le: (K, K) -> bool) {
    forall a, b :: le(a, b) && le(b, a) ==> a == b
  }

  /** `x` goes before the first element that it does not follow. */
  function Insert<K>(le: (K, K) -> bool, x: K, s: seq<K>): seq<K> {
    if s == [] then [x]
    else if le(x, s[0]) then [x] + s
    else [s[0]] + Insert(le, x, s[1..])
  }

  function Sort<K>(le: (K, K) -> bool, s: seq<K>): seq<K> {
    if s == [] then [] else Insert(le, s[0], Sort(le, s[1..]))
  }

  ghost predicate Sorted<K>(le: (K, K) -> bool, s: seq<K>) {
    forall i, j | 0 <= i < j < |s| :: le(s[i], s[j])
  }

  lemma {:induction false} InsertKeeps<K>(le: (K, K) -> bool, x: K, s: seq<K>)
    ensures multiset(Insert(le, x, s)) == multiset{x} + multiset(s)
  {
    if s != [] {
      assert s == [s[0]] + s[1..];
      InsertKeeps(le, x, s[1..]);
    }
  }

  /** Sorting rearranges, whatever the comparator. */
  lemma {:induction false} SortRearranges<K>(le: (K, K) -> bool, s: seq<K>)
    ensures multiset(Sort(le, s)) == multiset(s) && |Sort(le, s)| == |s|
    ensures forall x :: x in Sort(le, s) <==> x in s
  {
    if s != [] {
      assert s == [s[0]] + s[1..];
      SortRearranges(le, s[1..]);
      InsertKeeps(le, s[0], Sort(le, s[1..]));
    }
    assert |multiset(s)| == |s| && |multiset(Sort(le, s))| == |Sort(le, s)|;
    forall x ensures x in Sort(le, s) <==> x in s {
      assert x in multiset(Sort(le, s)) <==> x in multiset(s);
    }
  }

  lemma {:induction false} InsertSorts<K(!new)>(le: (K, K) -> bool, x: K, s: seq<K>)
    requires TotalPreorder(le) && Sorted(le, s)
    ensures Sorted(le, Insert(le, x, s))
  {
    if s != [] && !le(x, s[0]) {
      var r := Insert(le, x, s[1..]);
      InsertSorts(le, x, s[1..]);
      InsertKeeps(le, x, s[1..]);
      forall j | 0 <= j < |r| ensures le(s[0], r[j]) {
        assert r[j] in multiset(r);
        assert r[j] == x || r[j] in s[1..];
      }
    }
  }

  lemma {:induction false} SortSorts<K(!new)>(le: (K, K) -> bool, s: seq<K>)
    requires TotalPreorder(le)
    ensures Sorted(le, Sort(le, s))
  {
    if s != [] {
      SortSorts(le, s[1..]);
      InsertSorts(le, s[0], Sort(le, s[1..]));
    }
  }

  lemma SameHead<K>(le: (K, K) -> bool, a: seq<K>, b: seq<K>)
    requires Sorted(le, a) && Sorted(le, b) && a != [] && b != [] && a[0] in b && b[0] in a
    requires forall x, y | x in a && y in a && le(x, y) && le(y, x) :: x == y
    ensures a[0] == b[0]
  {
    var i :| 0 <= i < |a| && a[i] == b[0];
    var j :| 0 <= j < |b| && b[j] == a[0];
  }

  lemma TailElements<K>(s: seq<K>)
    requires s != []
    ensures s == [s[0]] + s[1..] && multiset(s[1..]) == multiset(s) - multiset{s[0]}
  {
    assert s == [s[0]] + s[1..];
  }

  lemma SameElements<K>(a: seq<K>, b: seq<K>)
    requires multiset(a) == multiset(b)
    ensures |a| == |b| && forall x :: x in a <==> x in b
  {
    assert |a| == |multiset(a)| == |multiset(b)| == |b|;
    forall x ensures x in a <==> x in b {
      assert x in multiset(a) <==> x in multiset(b);
    }
  }

  /** Sorted lists of the same elements are equal when no two different elements tie. */
  lemma {:induction false} SortedUnique<K>(le: (K, K) -> bool, a: seq<K>, b: seq<K>)
    requires Sorted(le, a) && Sorted(le, b) && multiset(a) == multiset(b)
    requires forall x, y | x in a && y in a && le(x, y) && le(y, x) :: x == y
    ensures a == b
  {
    SameElements(a, b);
    if a != [] {
      SameHead(le, a, b);
      TailElements(a);
      TailElements(b);
      SortedUnique(le, a[1..], b[1..]);
    }
  }

  /** The sorted form depends only on the multiset of elements. */
  lemma SortForgetsOrder<K(!new)>(le: (K, K) -> bool, a: seq<K>, b: seq<K>)
    requires TotalPreorder(le) && multiset(a) == multiset(b)
    requires forall x, y | x in a && y in a && le(x, y) && le(y, x) :: x == y
    ensures Sort(le, a) == Sort(le, b)
  {
    SortSorts(le, a);
    SortSorts(le, b);
    SortRearranges(le, a);
    SortRearranges(le, b);
    SortedUnique(le, Sort(le, a), Sort(le, b));
  }

  // ------------------------------------------------------------------ stability

  ghost predicate Precedes<K>(s: seq<K>, a: K, b: K) {
    exists i, j :: 0 <= i < j < |s| && s[i] == a && s[j] == b
  }

  lemma PrecedesAfter<K>(x: K, s: seq<K>, a: K, b: K)
    requires Precedes(s, a, b)
    ensures Precedes([x] + s, a, b)
  {
    var i, j :| 0 <= i < j < |s| && s[i] == a && s[j] == b;
    assert ([x] + s)[i + 1] == a && ([x] + s)[j + 1] == b;
  }

  lemma HeadPrecedes<K>(x: K, s: seq<K>, b: K)
    requires b in s
    ensures Precedes([x] + s, x, b)
  {
    var j :| 0 <= j < |s| && s[j] == b;
    assert ([x] + s)[0] == x && ([x] + s)[j + 1] == b;
  }

  lemma {:induction false} InsertKeepsOrder<K>(le: (K, K) -> bool, x: K, s: seq<K>, a: K, b: K)
    requires Precedes(s, a, b)
    ensures Precedes(Insert(le, x, s), a, b)
  {
    if le(x, s[0]) {
      PrecedesAfter(x, s, a, b);
    } else {
      var i, j :| 0 <= i < j < |s| && s[i] == a && s[j] == b;
      InsertKeeps(le, x, s[1..]);
      if i == 0 {
        assert s[1..][j - 1] == b;
        assert b in multiset(Insert(le, x, s[1..]));
        HeadPrecedes(s[0], Insert(le, x, s[1..]), b);
      } else {
        assert s[1..][i - 1] == a && s[1..][j - 1] == b;
        InsertKeepsOrder(le, x, s[1..], a, b);
        PrecedesAfter(s[0], Insert(le, x, s[1..]), a, b);
      }
    }
  }

  lemma {:induction false} InsertGoesBefore<K>(le: (K, K) -> bool, x: K, s: seq<K>, b: K)
    requires b in s && le(x, b)
    ensures Precedes(Insert(le, x, s), x, b)
  {
    if le(x, s[0]) {
      HeadPrecedes(x, s, b);
    } else {
      InsertGoesBefore(le, x, s[1..], b);
      PrecedesAfter(s[0], Insert(le, x, s[1..]), x, b);
    }
  }

  /** Two elements that are not out of order keep their order, whatever the comparator. */
  lemma {:induction false} SortIsStable<K>(le: (K, K) -> bool, s: seq<K>, i: nat, j: nat)
    requires i < j < |s| && le(s[i], s[j])
    ensures Precedes(Sort(le, s), s[i], s[j])
  {
    if i == 0 {
      assert s[1..][j - 1] == s[j];
      SortRearranges(le, s[1..]);
      InsertGoesBefore(le, s[0], Sort(le, s[1..]), s[j]);
    } else {
      SortIsStable(le, s[1..], i - 1, j - 1);
      InsertKeepsOrder(le, s[0], Sort(le, s[1..]), s[i], s[j]);
    }
  }
}
