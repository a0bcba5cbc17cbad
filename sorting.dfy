/**
 * Ordering by a comparator.  `le(a, b)` reads "a may come before b", i.e. a
 * Java Comparator's `compare(a, b) <= 0`.  The backend sorts twice: the
 * database returns rows in `ORDER BY` order, and one controller sorts a list
 * in place with `List.sort`.
 */
module Sorting {

  /** `le` is total and transitive, as a Java Comparator must be. */
  ghost predicate TotalPreorder<T(!new)>(le: (T, T) -> bool)
  {
    (forall a, b :: le(a, b) || le(b, a))
    && (forall a, b, c :: le(a, b) && le(b, c) ==> le(a, c))
  }

  ghost predicate SortedBy<T>(s: seq<T>, le: (T, T) -> bool)
  {
    forall i, j :: 0 <= i < j < |s| ==> le(s[i], s[j])
  }

  /** Places `x` before the first element it may precede. */
  function Insert<T>(x: T, s: seq<T>, le: (T, T) -> bool): (r: seq<T>)
    ensures multiset(r) == multiset(s) + multiset{x}
    ensures |r| == |s| + 1
  {
    if |s| == 0 then [x]
    else if le(x, s[0]) then [x] + s
    else
      assert s == [s[0]] + s[1..];
      [s[0]] + Insert(x, s[1..], le)
  }

  /** Insertion sort; the rows a query with an `ORDER BY` returns. */
  function SortBy<T>(s: seq<T>, le: (T, T) -> bool): (r: seq<T>)
    ensures multiset(r) == multiset(s)
    ensures |r| == |s|
  {
    if |s| == 0 then []
    else
      assert s == [s[0]] + s[1..];
      Insert(s[0], SortBy(s[1..], le), le)
  }

  /** A head that may precede every element of a sorted tail keeps it sorted. */
  lemma {:induction false} ConsSorted<T>(h: T, u: seq<T>, le: (T, T) -> bool)
    requires SortedBy(u, le)
    requires forall y :: y in u ==> le(h, y)
    ensures SortedBy([h] + u, le)
  {
    var r := [h] + u;
    forall i, j | 0 <= i < j < |r| ensures le(r[i], r[j]) {
      if i == 0 {
        assert r[j] == u[j - 1] && r[j] in u;
      } else {
        assert r[i] == u[i - 1] && r[j] == u[j - 1];
      }
    }
  }

  /** Inserting keeps exactly the old elements and the new one. */
  lemma {:induction false} InsertMembers<T>(x: T, s: seq<T>, le: (T, T) -> bool)
    ensures forall y :: y in Insert(x, s, le) <==> y == x || y in s
  {
    var r := Insert(x, s, le);
    forall y ensures y in r <==> y == x || y in s {
      assert y in r <==> y in multiset(r);
      assert y in s <==> y in multiset(s);
    }
  }

  lemma {:induction false} InsertSorted<T(!new)>(x: T, s: seq<T>, le: (T, T) -> bool)
    requires TotalPreorder(le)
    requires SortedBy(s, le)
    ensures SortedBy(Insert(x, s, le), le)
    decreases |s|
  {
    if |s| > 0 && !le(x, s[0]) {
      var t := s[1..];
      assert SortedBy(t, le) by {
        forall i, j | 0 <= i < j < |t| ensures le(t[i], t[j]) {
          assert t[i] == s[i + 1] && t[j] == s[j + 1];
        }
      }
      InsertSorted(x, t, le);
      var u := Insert(x, t, le);
      assert Insert(x, s, le) == [s[0]] + u;
      InsertMembers(x, t, le);
      forall y | y in u ensures le(s[0], y) {
        if y != x {
          var k :| 0 <= k < |t| && t[k] == y;
          assert s[k + 1] == y;
        }
      }
      ConsSorted(s[0], u, le);
    } else if |s| > 0 {
      assert Insert(x, s, le) == [x] + s;
      forall y | y in s ensures le(x, y) {
        var k :| 0 <= k < |s| && s[k] == y;
        if k > 0 {
          assert le(s[0], s[k]);
        }
      }
      ConsSorted(x, s, le);
    }
  }

  /** The result is sorted and a permutation of the input. */
  lemma {:induction false} SortBySorted<T(!new)>(s: seq<T>, le: (T, T) -> bool)
    requires TotalPreorder(le)
    ensures SortedBy(SortBy(s, le), le)
    ensures multiset(SortBy(s, le)) == multiset(s)
    decreases |s|
  {
    if |s| > 0 {
      SortBySorted(s[1..], le);
      InsertSorted(s[0], SortBy(s[1..], le), le);
    }
  }

  /** Sorting keeps exactly the elements it was given. */
  lemma {:induction false} SortByMembers<T(!new)>(s: seq<T>, le: (T, T) -> bool)
    requires TotalPreorder(le)
    ensures forall x :: x in SortBy(s, le) <==> x in s
  {
    SortBySorted(s, le);
    forall x ensures x in SortBy(s, le) <==> x in s {
      assert x in SortBy(s, le) <==> x in multiset(SortBy(s, le));
    }
  }

  /** The first element of a sorted list may precede every element, and
      every element may precede the last. */
  lemma {:induction false} SortByEnds<T(!new)>(s: seq<T>, le: (T, T) -> bool)
    requires TotalPreorder(le) && |s| > 0
    ensures forall x :: x in s ==> le(SortBy(s, le)[0], x) && le(x, SortBy(s, le)[|s| - 1])
  {
    var r := SortBy(s, le);
    SortBySorted(s, le);
    forall x | x in s ensures le(r[0], x) && le(x, r[|s| - 1]) {
      assert x in multiset(r);
      var k :| 0 <= k < |r| && r[k] == x;
      if 0 < k {
        assert le(r[0], r[k]);
      }
      if k < |r| - 1 {
        assert le(r[k], r[|r| - 1]);
      }
    }
  }

  /** During the insertion of element `i`: the prefix before `j` and the run
      from `j` to `i` are each sorted, and everything before `j` may precede
      everything after `j` up to `i`. */
  ghost predicate Inserting<T>(s: seq<T>, j: int, i: int, le: (T, T) -> bool)
  {
    0 <= j <= i < |s|
    && (forall k, l :: 0 <= k < l < j ==> le(s[k], s[l]))
    && (forall k, l :: j <= k < l <= i ==> le(s[k], s[l]))
    && (forall k, l :: 0 <= k < j && j < l <= i ==> le(s[k], s[l]))
  }

  function Swap<T>(s: seq<T>, j: int): (r: seq<T>)
    requires 0 < j < |s|
    ensures |r| == |s| && multiset(r) == multiset(s)
  {
    s[j - 1 := s[j]][j := s[j - 1]]
  }

  lemma {:induction false} StartInserting<T>(s: seq<T>, i: int, le: (T, T) -> bool)
    requires 0 <= i < |s| && SortedBy(s[..i], le)
    ensures Inserting(s, i, i, le)
  {
    forall k, l | 0 <= k < l < i ensures le(s[k], s[l]) {
      assert s[..i][k] == s[k] && s[..i][l] == s[l];
    }
  }

  lemma {:induction false} SwapStep<T(!new)>(s: seq<T>, j: int, i: int, le: (T, T) -> bool)
    requires TotalPreorder(le)
    requires Inserting(s, j, i, le) && j > 0 && !le(s[j - 1], s[j])
    ensures Inserting(Swap(s, j), j - 1, i, le)
  {
    var r := Swap(s, j);
    assert le(s[j], s[j - 1]);
    forall k, l | j - 1 <= k < l <= i ensures le(r[k], r[l]) {
      if k == j - 1 && l == j {
      } else if k == j - 1 {
        assert r[k] == s[j] && r[l] == s[l];
        assert le(s[j], s[l]);
      } else if k == j {
        assert r[k] == s[j - 1] && r[l] == s[l];
      } else {
        assert r[k] == s[k] && r[l] == s[l];
      }
    }
    forall k, l | 0 <= k < j - 1 && j - 1 < l <= i ensures le(r[k], r[l]) {
      assert r[k] == s[k];
      if l == j {
        assert r[l] == s[j - 1];
      } else {
        assert r[l] == s[l];
      }
    }
  }

  lemma {:induction false} FinishInserting<T(!new)>(s: seq<T>, j: int, i: int, le: (T, T) -> bool)
    requires TotalPreorder(le)
    requires Inserting(s, j, i, le) && (j == 0 || le(s[j - 1], s[j]))
    ensures SortedBy(s[..i + 1], le)
  {
    forall k, l | 0 <= k < l < i + 1 ensures le(s[k], s[l]) {
      if k < j - 1 && l == j {
        assert le(s[k], s[j - 1]);
      }
    }
    var t := s[..i + 1];
    forall k, l | 0 <= k < l < |t| ensures le(t[k], t[l]) {
      assert t[k] == s[k] && t[l] == s[l];
    }
  }

  /** `List.sort(comparator)` in place (insertion by adjacent swaps, so
      elements that compare equal keep their order). */
  method SortInPlace<T(!new)>(a: array<T>, le: (T, T) -> bool)
    requires TotalPreorder(le)
    modifies a
    ensures SortedBy(a[..], le)
    ensures multiset(a[..]) == multiset(old(a[..]))
  {
    var i := 0;
    while i < a.Length
      invariant 0 <= i <= a.Length
      invariant SortedBy(a[..i], le)
      invariant multiset(a[..]) == multiset(old(a[..]))
    {
      var j := i;
      StartInserting(a[..], i, le);
      assert a[..][..i] == a[..i];
      while j > 0 && !le(a[j - 1], a[j])
        invariant Inserting(a[..], j, i, le)
        invariant multiset(a[..]) == multiset(old(a[..]))
      {
        SwapStep(a[..], j, i, le);
        ghost var before := a[..];
        a[j - 1], a[j] := a[j], a[j - 1];
        assert a[..] == Swap(before, j);
        j := j - 1;
      }
      FinishInserting(a[..], j, i, le);
      assert a[..][..i + 1] == a[..i + 1];
      i := i + 1;
    }
    assert a[..a.Length] == a[..];
  }
}
