/** Python's `sorted(xs, key=k, reverse=True)` / `xs.sort(key=k, reverse=True)`,
    written as an insertion sort that keeps earlier elements ahead of later ones with
    an equal key. */
module Sorting {
  import Seqs

  ghost predicate SortedDesc<T>(s: seq<T>, key: T -> real) {
    forall i, j :: 0 <= i < j < |s| ==> key(s[i]) >= key(s[j])
  }

  /** A head whose key is at least that of a sorted list's head keeps it sorted. */
  lemma ConsSorted<T>(h: T, t: seq<T>, key: T -> real)
    requires SortedDesc(t, key)
    requires |t| == 0 || key(t[0]) <= key(h)
    ensures SortedDesc([h] + t, key)
  {
    var r := [h] + t;
    forall i, j | 0 <= i < j < |r|
      ensures key(r[i]) >= key(r[j])
    {
      if i == 0 {
        assert r[j] == t[j - 1];
        if j > 1 {
          assert key(t[0]) >= key(t[j - 1]);
        }
      } else {
        assert r[i] == t[i - 1] && r[j] == t[j - 1];
      }
    }
  }

  /** Puts `x` in front of the first element whose key does not exceed its own. The
      result starts with `x` or with the list's old head. */
  function Insert<T(==)>(x: T, s: seq<T>, key: T -> real): (r: seq<T>)
    requires SortedDesc(s, key)
    ensures SortedDesc(r, key)
    ensures multiset(r) == multiset(s) + multiset{x}
    ensures |r| == |s| + 1 && (r[0] == x || (|s| > 0 && r[0] == s[0]))
  {
    if |s| == 0 then [x]
    else if key(s[0]) <= key(x) then
      ConsSorted(x, s, key);
      [x] + s
    else
      var rest := Insert(x, s[1..], key);
      assert key(rest[0]) <= key(s[0]) by {
        if rest[0] != x {
          assert rest[0] == s[1];
        }
      }
      ConsSorted(s[0], rest, key);
      assert s == [s[0]] + s[1..];
      [s[0]] + rest
  }

  /** The head after an insertion: `x` unless the list's head has a larger key. */
  lemma InsertHead<T>(x: T, s: seq<T>, key: T -> real)
    requires SortedDesc(s, key)
    ensures Insert(x, s, key)[0] == if |s| == 0 || key(s[0]) <= key(x) then x else s[0]
  {
  }

  function SortDesc<T(==)>(s: seq<T>, key: T -> real): (r: seq<T>)
    ensures SortedDesc(r, key)
    ensures multiset(r) == multiset(s)
    ensures |r| == |s|
  {
    if |s| == 0 then []
    else
      var tail := SortDesc(s[1..], key);
      assert s == [s[0]] + s[1..];
      Insert(s[0], tail, key)
  }

  /** The elements whose key is `k`. */
  function KeyIs<T>(key: T -> real, k: real): T -> bool {
    x => key(x) == k
  }

  lemma SortedTail<T>(s: seq<T>, key: T -> real)
    requires |s| > 0 && SortedDesc(s, key)
    ensures SortedDesc(s[1..], key)
  {
    forall i, j | 0 <= i < j < |s[1..]|
      ensures key(s[1..][i]) >= key(s[1..][j])
    {
      assert s[1..][i] == s[i + 1] && s[1..][j] == s[j + 1];
    }
  }

  /** An insertion goes in front of every element with the same key. */
  lemma {:induction false} InsertAheadOfTies<T(!new)>(x: T, s: seq<T>, key: T -> real, k: real)
    requires SortedDesc(s, key)
    ensures Seqs.Filter(Insert(x, s, key), KeyIs(key, k))
      == if key(x) == k then [x] + Seqs.Filter(s, KeyIs(key, k)) else Seqs.Filter(s, KeyIs(key, k))
  {
    var p := KeyIs(key, k);
    if |s| == 0 {
      Seqs.FilterSingle(x, p);
    } else if key(s[0]) <= key(x) {
      assert Insert(x, s, key) == [x] + s;
      Seqs.FilterConcat([x], s, p);
      Seqs.FilterSingle(x, p);
    } else {
      SortedTail(s, key);
      var rest := Insert(x, s[1..], key);
      assert Insert(x, s, key) == [s[0]] + rest;
      InsertAheadOfTies(x, s[1..], key, k);
      Seqs.FilterConcat([s[0]], rest, p);
      Seqs.FilterHead(s, p);
    }
  }

  /** Stability: for every key, the elements with that key keep their input order
      (and their number), as in Python's stable sort. */
  lemma {:induction false} SortDescStable<T(!new)>(s: seq<T>, key: T -> real, k: real)
    ensures Seqs.Filter(SortDesc(s, key), KeyIs(key, k)) == Seqs.Filter(s, KeyIs(key, k))
  {
    if |s| > 0 {
      var p := KeyIs(key, k);
      var tail := SortDesc(s[1..], key);
      assert SortDesc(s, key) == Insert(s[0], tail, key);
      SortDescStable(s[1..], key, k);
      InsertAheadOfTies(s[0], tail, key, k);
      Seqs.FilterHead(s, p);
      Seqs.FilterSingle(s[0], p);
    }
  }

  /** The first element with the largest key: the reference for the head of a
      stable descending sort. */
  function FirstMax<T>(s: seq<T>, key: T -> real): (m: T)
    requires |s| > 0
  {
    if |s| == 1 then s[0]
    else
      var rest := FirstMax(s[1..], key);
      if key(rest) <= key(s[0]) then s[0] else rest
  }

  /** The stable sort puts the first of the largest keys in front. */
  lemma {:induction false} SortDescHead<T>(s: seq<T>, key: T -> real)
    requires |s| > 0
    ensures SortDesc(s, key)[0] == FirstMax(s, key)
  {
    var tail := SortDesc(s[1..], key);
    InsertHead(s[0], tail, key);
    if |s| > 1 {
      SortDescHead(s[1..], key);
    }
  }

  /** The head of the sorted list is an element of the input with the largest key. */
  lemma SortDescHeadMax<T>(s: seq<T>, key: T -> real)
    requires |s| > 0
    ensures SortDesc(s, key)[0] in s
    ensures forall x :: x in s ==> key(x) <= key(SortDesc(s, key)[0])
  {
    var r := SortDesc(s, key);
    assert r[0] in multiset(s);
    forall x | x in s
      ensures key(x) <= key(r[0])
    {
      assert x in multiset(r);
      var i :| 0 <= i < |r| && r[i] == x;
    }
  }
}
