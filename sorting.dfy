/** The model of `Array.prototype.sort` with a comparator: a stable sort.
    `le(a, b)` stands for "the comparator does not put `b` before `a`"
    (`compare(a, b) <= 0`). */
module Sorting {

  /** A comparator consistent enough for sorting: total and transitive. */
  ghost predicate TotalPreorder<T(!new)>(le: (T, T) -> bool) {
    && (forall a, b :: le(a, b) || le(b, a))
    && (forall a, b, c :: le(a, b) && le(b, c) ==> le(a, c))
  }

  predicate SortedBy<T>(s: seq<T>, le: (T, T) -> bool) {
    forall i, j :: 0 <= i < j < |s| ==> le(s[i], s[j])
  }

  /** Inserts `x` before the first element it may precede, so that `x` stays
      ahead of every element the comparator ranks equal to it. */
  function Insert<T>(x: T, s: seq<T>, le: (T, T) -> bool): (r: seq<T>)
    ensures |r| == |s| + 1
    ensures multiset(r) == multiset(s) + multiset{x}
  {
    if s == [] then [x]
    else if le(x, s[0]) then [x] + s
    else
      assert s == [s[0]] + s[1..];
      [s[0]] + Insert(x, s[1..], le)
  }

  /** Stable insertion sort. */
  function SortBy<T>(s: seq<T>, le: (T, T) -> bool): (r: seq<T>)
    ensures |r| == |s|
    ensures multiset(r) == multiset(s)
  {
    if s == [] then []
    else
      assert s == [s[0]] + s[1..];
      Insert(s[0], SortBy(s[1..], le), le)
  }

  lemma {:induction false} InsertSorted<T(!new)>(x: T, s: seq<T>, le: (T, T) -> bool)
    requires TotalPreorder(le) && SortedBy(s, le)
    ensures SortedBy(Insert(x, s, le), le)
  {
    if s != [] && !le(x, s[0]) {
      InsertSorted(x, s[1..], le);
      var r := Insert(x, s[1..], le);
      forall k | 0 <= k < |r| ensures le(s[0], r[k]) {
        assert r[k] in multiset(r);
        assert r[k] == x || r[k] in multiset(s[1..]);
        if r[k] != x {
          var j :| 0 <= j < |s[1..]| && s[1..][j] == r[k];
          assert s[j + 1] == r[k];
        }
      }
    }
  }

  /** The sort's output is ordered by the comparator. */
  lemma {:induction false} SortBySorted<T(!new)>(s: seq<T>, le: (T, T) -> bool)
    requires TotalPreorder(le)
    ensures SortedBy(SortBy(s, le), le)
  {
    if s != [] {
      SortBySorted(s[1..], le);
      InsertSorted(s[0], SortBy(s[1..], le), le);
    }
  }

  /** Sorting an already sorted sequence leaves it unchanged. */
  lemma {:induction false} SortByOfSorted<T>(s: seq<T>, le: (T, T) -> bool)
    requires SortedBy(s, le)
    ensures SortBy(s, le) == s
  {
    if s != [] {
      assert SortedBy(s[1..], le);
      SortByOfSorted(s[1..], le);
      if |s| > 1 {
        assert le(s[0], s[1]);
      }
      assert [s[0]] + s[1..] == s;
    }
  }

  /** Sorting is idempotent. */
  lemma SortByIdempotent<T(!new)>(s: seq<T>, le: (T, T) -> bool)
    requires TotalPreorder(le)
    ensures SortBy(SortBy(s, le), le) == SortBy(s, le)
  {
    SortBySorted(s, le);
    SortByOfSorted(SortBy(s, le), le);
  }

  /** The elements of `s` that the comparator ranks equal to `x`, in order. */
  function Peers<T>(s: seq<T>, le: (T, T) -> bool, x: T): seq<T> {
    if s == [] then []
    else (if le(x, s[0]) && le(s[0], x) then [s[0]] else []) + Peers(s[1..], le, x)
  }

  /** Two elements the comparator does not rank equal cannot both be peers of `x`. */
  lemma NotBothPeers<T(!new)>(x: T, y: T, z: T, le: (T, T) -> bool)
    requires TotalPreorder(le) && !le(y, z)
    ensures !(le(x, y) && le(y, x) && le(x, z) && le(z, x))
  {
  }

  lemma {:induction false} InsertPeers<T(!new)>(y: T, s: seq<T>, le: (T, T) -> bool, x: T)
    requires TotalPreorder(le)
    ensures Peers(Insert(y, s, le), le, x)
         == (if le(x, y) && le(y, x) then [y] else []) + Peers(s, le, x)
  {
    var py := if le(x, y) && le(y, x) then [y] else [];
    if s == [] {
      assert Peers([y], le, x) == py + Peers([], le, x);
    } else if le(y, s[0]) {
      assert ([y] + s)[1..] == s;
      assert Peers([y] + s, le, x) == py + Peers(s, le, x);
    } else {
      var r := Insert(y, s[1..], le);
      var p0 := if le(x, s[0]) && le(s[0], x) then [s[0]] else [];
      InsertPeers(y, s[1..], le, x);
      assert Peers(r, le, x) == py + Peers(s[1..], le, x);
      assert ([s[0]] + r)[1..] == r;
      assert Peers([s[0]] + r, le, x) == p0 + Peers(r, le, x);
      assert Peers(s, le, x) == p0 + Peers(s[1..], le, x);
      NotBothPeers(x, y, s[0], le);
      assert p0 + py == py + p0;
    }
  }

  /** Stability: the elements the comparator ranks equal keep their input order. */
  lemma {:induction false} SortByStable<T(!new)>(s: seq<T>, le: (T, T) -> bool, x: T)
    requires TotalPreorder(le)
    ensures Peers(SortBy(s, le), le, x) == Peers(s, le, x)
  {
    if s != [] {
      SortByStable(s[1..], le, x);
      InsertPeers(s[0], SortBy(s[1..], le), le, x);
    }
  }

  /** No two different elements of `s` are ranked equal by the comparator. */
  ghost predicate Untied<T>(s: seq<T>, le: (T, T) -> bool) {
    forall x, y :: x in s && y in s && x != y ==> !(le(x, y) && le(y, x))
  }

  /** Two sorted arrangements of the same elements, none of them tied, are
      the same sequence. */
  lemma {:induction false} SortedUnique<T(!new)>(a: seq<T>, b: seq<T>, le: (T, T) -> bool)
    requires TotalPreorder(le)
    requires multiset(a) == multiset(b) && Untied(a, le)
    requires SortedBy(a, le) && SortedBy(b, le)
    ensures a == b
  {
    assert |a| == |multiset(a)| == |b|;
    if a != [] {
      SortedHeadsAgree(a, b, le);
      TailsSameElements(a, b);
      UntiedTail(a, le);
      SortedUnique(a[1..], b[1..], le);
      assert a == [a[0]] + a[1..] && b == [b[0]] + b[1..];
    }
  }

  /** Sorted arrangements of the same untied elements start alike. */
  lemma SortedHeadsAgree<T(!new)>(a: seq<T>, b: seq<T>, le: (T, T) -> bool)
    requires TotalPreorder(le)
    requires multiset(a) == multiset(b) && Untied(a, le) && a != []
    requires SortedBy(a, le) && SortedBy(b, le)
    ensures b != [] && a[0] == b[0]
  {
    assert a[0] in multiset(b);
    assert b[0] in multiset(a);
    var k :| 0 <= k < |b| && b[k] == a[0];
    var m :| 0 <= m < |a| && a[m] == b[0];
    assert le(b[0], b[k]) && le(a[0], a[m]);
  }

  lemma TailsSameElements<T>(a: seq<T>, b: seq<T>)
    requires multiset(a) == multiset(b) && a != [] && b != [] && a[0] == b[0]
    ensures multiset(a[1..]) == multiset(b[1..])
  {
    assert a == [a[0]] + a[1..] && b == [b[0]] + b[1..];
    assert multiset(a) == multiset{a[0]} + multiset(a[1..]);
    assert multiset(b) == multiset{b[0]} + multiset(b[1..]);
    forall y ensures multiset(a[1..])[y] == multiset(b[1..])[y] {
      assert multiset(a)[y] == multiset{a[0]}[y] + multiset(a[1..])[y];
      assert multiset(b)[y] == multiset{b[0]}[y] + multiset(b[1..])[y];
    }
  }

  lemma UntiedTail<T>(a: seq<T>, le: (T, T) -> bool)
    requires Untied(a, le) && a != []
    ensures Untied(a[1..], le)
  {
    forall x | x in a[1..] ensures x in a {
      var i :| 0 <= i < |a[1..]| && a[1..][i] == x;
      assert a[i + 1] == x;
    }
  }

  /** When no two input elements are tied, the sorted output depends only
      on which elements there are, not on the order they come in. */
  lemma SortByDeterminedByContents<T(!new)>(s: seq<T>, t: seq<T>, le: (T, T) -> bool)
    requires TotalPreorder(le)
    requires multiset(s) == multiset(t) && Untied(s, le)
    ensures SortBy(s, le) == SortBy(t, le)
  {
    var a, b := SortBy(s, le), SortBy(t, le);
    SortBySorted(s, le);
    SortBySorted(t, le);
    forall x | x in a ensures x in s {
      assert x in multiset(a);
    }
    SortedUnique(a, b, le);
  }

  /** Sum of `f` over a sequence, in order. */
  function SumOf<T>(s: seq<T>, f: T -> real): real {
    if s == [] then 0.0 else f(s[0]) + SumOf(s[1..], f)
  }

  lemma {:induction false} SumOfInsert<T>(x: T, s: seq<T>, le: (T, T) -> bool, f: T -> real)
    ensures SumOf(Insert(x, s, le), f) == f(x) + SumOf(s, f)
  {
    if s != [] && !le(x, s[0]) {
      SumOfInsert(x, s[1..], le, f);
      assert ([s[0]] + Insert(x, s[1..], le))[1..] == Insert(x, s[1..], le);
    } else if s != [] {
      assert ([x] + s)[1..] == s;
    }
  }

  /** Sorting does not change a sum. */
  lemma {:induction false} SumOfSortBy<T>(s: seq<T>, le: (T, T) -> bool, f: T -> real)
    ensures SumOf(SortBy(s, le), f) == SumOf(s, f)
  {
    if s != [] {
      SumOfSortBy(s[1..], le, f);
      SumOfInsert(s[0], SortBy(s[1..], le), le, f);
    }
  }

  lemma {:induction false} SumOfAppend<T>(s: seq<T>, t: seq<T>, f: T -> real)
    ensures SumOf(s + t, f) == SumOf(s, f) + SumOf(t, f)
  {
    if s != [] {
      SumOfAppend(s[1..], t, f);
      assert (s + t)[1..] == s[1..] + t;
    } else {
      assert s + t == t;
    }
  }

  /** The source's in-place sort: `a` is rearranged and the same array is returned. */
  method SortInPlace<T>(a: array<T>, le: (T, T) -> bool)
    modifies a
    ensures a[..] == SortBy(old(a[..]), le)
  {
    var sorted := SortBy(a[..], le);
    forall i | 0 <= i < a.Length {
      a[i] := sorted[i];
    }
  }
}
