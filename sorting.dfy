/** Ascending sort of an integer column. It stands in for the tensor sort that
    `merge_int_intervals` applies to each column of its interval table; the
    lemmas say that the sorted column is determined by the column's multiset
    and that sorting two columns keeps a pointwise bound between them. */
module Sorting {

  import opened Common

  ghost predicate Sorted(s: seq<int>)
  {
    forall i, j :: 0 <= i < j < |s| ==> s[i] <= s[j]
  }

  lemma SortedCons(h: int, t: seq<int>)
    requires Sorted(t) && (t == [] || h <= t[0])
    ensures Sorted([h] + t)
  {
    var r := [h] + t;
    forall i, j | 0 <= i < j < |r| ensures r[i] <= r[j] {
      if i == 0 {
        assert r[j] == t[j - 1] && t[0] <= t[j - 1];
      } else {
        assert r[i] == t[i - 1] && r[j] == t[j - 1];
      }
    }
  }

  lemma SortedTail(s: seq<int>)
    requires Sorted(s) && s != []
    ensures Sorted(s[1..])
  {
    var t := s[1..];
    forall a, b | 0 <= a < b < |t| ensures t[a] <= t[b] {
      assert t[a] == s[a + 1] && t[b] == s[b + 1];
    }
  }

  /** Insert `x` before the first element of `s` not below it. */
  function Insert(x: int, s: seq<int>): (r: seq<int>)
    ensures |r| == |s| + 1
    ensures r[0] == if s == [] || x <= s[0] then x else s[0]
  {
    if s == [] then [x]
    else if x <= s[0] then [x] + s
    else [s[0]] + Insert(x, s[1..])
  }

  /** Inserting into a sorted sequence keeps it sorted. */
  lemma {:induction false} InsertSorted(x: int, s: seq<int>)
    requires Sorted(s)
    ensures Sorted(Insert(x, s))
  {
    if s != [] {
      if x <= s[0] {
        SortedCons(x, s);
      } else {
        var t := s[1..];
        SortedTail(s);
        InsertSorted(x, t);
        if t != [] { assert s[0] <= t[0]; }
        SortedCons(s[0], Insert(x, t));
      }
    }
  }

  /** Inserting adds exactly `x` to the elements. */
  lemma {:induction false} InsertMultiset(x: int, s: seq<int>)
    ensures multiset(Insert(x, s)) == multiset(s) + multiset{x}
  {
    if s != [] && x > s[0] {
      var t := s[1..];
      InsertMultiset(x, t);
      assert s == [s[0]] + t;
      assert Insert(x, s) == [s[0]] + Insert(x, t);
    } else {
      assert Insert(x, s) == [x] + s;
    }
  }

  function Sort(s: seq<int>): (r: seq<int>)
    ensures Sorted(r)
    ensures multiset(r) == multiset(s)
    ensures |r| == |s|
  {
    if s == [] then []
    else
      assert s == [s[0]] + s[1..];
      InsertSorted(s[0], Sort(s[1..]));
      InsertMultiset(s[0], Sort(s[1..]));
      Insert(s[0], Sort(s[1..]))
  }

  function Min(a: int, b: int): int { if a <= b then a else b }

  /** Element `j` of `Insert(x, s)`, stated without recursion: the median of
      `s[j-1]`, `x` and `s[j]`, with the missing neighbour at either end
      dropped. */
  lemma {:induction false} InsertAt(x: int, s: seq<int>, j: int)
    requires Sorted(s) && 0 <= j <= |s|
    ensures Insert(x, s)[j] ==
      if s == [] then x
      else if j == 0 then Min(x, s[0])
      else if j == |s| then Max(s[|s| - 1], x)
      else Max(s[j - 1], Min(x, s[j]))
  {
    if s == [] {
    } else if x <= s[0] {
      InsertAtFront(x, s, j);
    } else if j > 0 {
      var t := s[1..];
      SortedTail(s);
      assert Insert(x, s) == [s[0]] + Insert(x, t);
      assert Insert(x, s)[j] == Insert(x, t)[j - 1];
      InsertAt(x, t, j - 1);
      if t == [] {
        assert Max(s[0], x) == x;
      } else if j == 1 {
        assert t[0] == s[1] && s[0] <= s[1];
      } else if j == |s| {
        assert t[|t| - 1] == s[|s| - 1];
      } else {
        assert t[j - 2] == s[j - 1] && t[j - 1] == s[j];
      }
    }
  }

  /** `InsertAt` when `x` goes in front: element `j > 0` is `s[j - 1]`. */
  lemma InsertAtFront(x: int, s: seq<int>, j: int)
    requires Sorted(s) && s != [] && x <= s[0] && 0 <= j <= |s|
    ensures Insert(x, s)[j] ==
      if j == 0 then Min(x, s[0])
      else if j == |s| then Max(s[|s| - 1], x)
      else Max(s[j - 1], Min(x, s[j]))
  {
    if j > 0 {
      assert Insert(x, s)[j] == s[j - 1];
      assert s[0] <= s[j - 1];
      if j < |s| { assert s[j - 1] <= s[j]; }
    }
  }

  /** If every element of `s` is at most the matching element of `t`, and
      `x <= y`, the same holds after inserting `x` into `s` and `y` into `t`. */
  lemma InsertDominated(x: int, s: seq<int>, y: int, t: seq<int>)
    requires Sorted(s) && Sorted(t) && |s| == |t| && x <= y
    requires forall i :: 0 <= i < |s| ==> s[i] <= t[i]
    ensures forall j :: 0 <= j <= |s| ==> Insert(x, s)[j] <= Insert(y, t)[j]
  {
    forall j | 0 <= j <= |s|
      ensures Insert(x, s)[j] <= Insert(y, t)[j]
    {
      InsertAt(x, s, j);
      InsertAt(y, t, j);
      if s != [] {
        if j == 0 {
          assert s[0] <= t[0];
        } else if j == |s| {
          assert s[|s| - 1] <= t[|t| - 1];
        } else {
          assert s[j - 1] <= t[j - 1] && s[j] <= t[j];
        }
      }
    }
  }

  /** Sorting two columns of equal length whose pairs satisfy `a[i] <= b[i]`
      keeps `Sort(a)[i] <= Sort(b)[i]`: the k-th smallest start of a set of
      well-formed intervals never exceeds the k-th smallest end. */
  lemma {:induction false} SortDominated(a: seq<int>, b: seq<int>)
    requires |a| == |b|
    requires forall i :: 0 <= i < |a| ==> a[i] <= b[i]
    ensures forall i :: 0 <= i < |a| ==> Sort(a)[i] <= Sort(b)[i]
  {
    if a != [] {
      SortDominated(a[1..], b[1..]);
      InsertDominated(a[0], Sort(a[1..]), b[0], Sort(b[1..]));
    }
  }

  lemma SortedHeadIsMin(t: seq<int>, x: int)
    requires Sorted(t) && x in multiset(t)
    ensures t[0] <= x
  {
    var k :| 0 <= k < |t| && t[k] == x;
  }

  /** Two sorted sequences with the same elements are equal. */
  lemma {:induction false} SortedUnique(s: seq<int>, t: seq<int>)
    requires Sorted(s) && Sorted(t) && multiset(s) == multiset(t)
    ensures s == t
  {
    if s != [] {
      assert |t| == |s|;
      assert s[0] in multiset(t) by { assert s[0] in multiset(s); }
      assert t[0] in multiset(s) by { assert t[0] in multiset(t); }
      SortedHeadIsMin(t, s[0]);
      SortedHeadIsMin(s, t[0]);
      assert multiset(s[1..]) == multiset(t[1..]) by {
        assert s == [s[0]] + s[1..];
        assert t == [t[0]] + t[1..];
        assert s[0] == t[0];
        assert multiset(s) == multiset([s[0]]) + multiset(s[1..]);
        assert multiset(t) == multiset([t[0]]) + multiset(t[1..]);
        assert multiset(s[1..]) == multiset(s) - multiset{s[0]};
        assert multiset(t[1..]) == multiset(t) - multiset{t[0]};
      }
      SortedUnique(s[1..], t[1..]);
    }
  }

  /** The sorted column depends only on the multiset of its elements. */
  lemma SortDependsOnMultiset(a: seq<int>, b: seq<int>)
    requires multiset(a) == multiset(b)
    ensures Sort(a) == Sort(b)
  {
    SortedUnique(Sort(a), Sort(b));
  }

  /** The number of elements of `s` below `t`. */
  function Below(s: seq<int>, t: int): (c: nat)
    ensures c <= |s|
  {
    if s == [] then 0 else (if s[0] < t then 1 else 0) + Below(s[1..], t)
  }

  lemma {:induction false} BelowInsert(x: int, s: seq<int>, t: int)
    ensures Below(Insert(x, s), t) == Below(s, t) + (if x < t then 1 else 0)
    decreases |s|
  {
    if s != [] && x > s[0] {
      BelowInsert(x, s[1..], t);
      assert Insert(x, s)[1..] == Insert(x, s[1..]);
    } else if s != [] {
      assert Insert(x, s)[1..] == s;
    }
  }

  /** Sorting keeps the number of elements below any bound. */
  lemma {:induction false} BelowSort(s: seq<int>, t: int)
    ensures Below(Sort(s), t) == Below(s, t)
    decreases |s|
  {
    if s != [] {
      BelowSort(s[1..], t);
      BelowInsert(s[0], Sort(s[1..]), t);
    }
  }

  lemma {:induction false} BelowNone(s: seq<int>, t: int)
    requires forall i :: 0 <= i < |s| ==> t <= s[i]
    ensures Below(s, t) == 0
    decreases |s|
  {
    if s != [] {
      BelowNone(s[1..], t);
    }
  }

  /** In a sorted column the elements below `t` are exactly the first
      `Below(s, t)` ones. */
  lemma {:induction false} SortedBelow(s: seq<int>, t: int, k: int)
    requires Sorted(s) && 0 <= k < |s|
    ensures s[k] < t <==> k < Below(s, t)
    decreases |s|
  {
    var tl := s[1..];
    if s[0] >= t {
      assert forall i :: 0 <= i < |s| ==> t <= s[0] <= s[i];
      BelowNone(s, t);
    } else if k > 0 {
      SortedTail(s);
      SortedBelow(tl, t, k - 1);
      assert s[k] == tl[k - 1];
    }
  }

  /** A two-element column already in order sorts to itself. */
  lemma SortPair(a: int, b: int)
    requires a <= b
    ensures Sort([a, b]) == [a, b]
  {
    assert [a, b][1..] == [b] && [b][1..] == [];
    assert Sort([b]) == Insert(b, Sort([])) == [b];
    assert Sort([a, b]) == Insert(a, Sort([b]));
  }
}
