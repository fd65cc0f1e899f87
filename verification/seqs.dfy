/** List comprehensions `[x for x in xs if p(x)]`, the counts built from them,
    first-match searches, and a dict's values in insertion order. */
module Seqs {
  import opened Wrappers

  function Filter<T(==,!new)>(s: seq<T>, p: T -> bool): (r: seq<T>)
    ensures |r| <= |s|
    ensures forall i :: 0 <= i < |r| ==> p(r[i])
    ensures forall x :: x in r <==> x in s && p(x)
    ensures forall x :: multiset(r)[x] == if p(x) then multiset(s)[x] else 0
  {
    if |s| == 0 then []
    else
      assert s == [s[0]] + s[1..];
      if p(s[0]) then [s[0]] + Filter(s[1..], p) else Filter(s[1..], p)
  }

  /** `len([x for x in xs if p(x)])`. */
  function Count<T(==,!new)>(s: seq<T>, p: T -> bool): (n: nat)
    ensures n <= |s|
  {
    |Filter(s, p)|
  }

  lemma FilterSingle<T(!new)>(x: T, p: T -> bool)
    ensures Filter([x], p) == if p(x) then [x] else []
  {
    assert [x][1..] == [];
  }

  /** A comprehension splits off the list's head. */
  lemma FilterHead<T(!new)>(s: seq<T>, p: T -> bool)
    requires |s| > 0
    ensures Filter(s, p) == Filter([s[0]], p) + Filter(s[1..], p)
  {
    FilterSingle(s[0], p);
  }

  lemma {:induction false} FilterConcat<T(!new)>(a: seq<T>, b: seq<T>, p: T -> bool)
    ensures Filter(a + b, p) == Filter(a, p) + Filter(b, p)
  {
    if |a| == 0 {
      assert a + b == b;
    } else {
      assert (a + b)[1..] == a[1..] + b;
      FilterConcat(a[1..], b, p);
    }
  }

  /** A counting loop, `n = 0; for x in xs: if p(x): n += 1`: it agrees with the
      comprehension's length, and reaches the full length exactly when every element
      passes. */
  function CountLoop<T(!new)>(s: seq<T>, p: T -> bool): (n: nat)
    ensures n == Count(s, p)
    ensures n == |s| <==> forall i :: 0 <= i < |s| ==> p(s[i])
  {
    if |s| == 0 then 0
    else
      var rest := CountLoop(s[1..], p);
      CountCons(s, p);
      AllPassCons(s, p);
      (if p(s[0]) then 1 else 0) + rest
  }

  lemma CountCons<T(!new)>(s: seq<T>, p: T -> bool)
    requires |s| > 0
    ensures Count(s, p) == (if p(s[0]) then 1 else 0) + Count(s[1..], p)
  {
  }

  lemma AllPassCons<T>(s: seq<T>, p: T -> bool)
    requires |s| > 0
    ensures (forall i :: 0 <= i < |s| ==> p(s[i])) <==> p(s[0]) && forall i :: 0 <= i < |s[1..]| ==> p(s[1..][i])
  {
    if p(s[0]) && forall i :: 0 <= i < |s[1..]| ==> p(s[1..][i]) {
      forall i | 1 <= i < |s|
        ensures p(s[i])
      {
        assert s[i] == s[1..][i - 1];
      }
    }
  }

  /** Elements fail `p` exactly when they pass its negation, so the two counts
      partition the list. */
  lemma {:induction false} CountSplits<T(!new)>(s: seq<T>, p: T -> bool, q: T -> bool)
    requires forall x :: q(x) == !p(x)
    ensures Count(s, p) + Count(s, q) == |s|
  {
    if |s| > 0 {
      CountSplits(s[1..], p, q);
    }
  }

  /** Strengthening the condition never adds elements. */
  lemma {:induction false} CountMonotone<T(!new)>(s: seq<T>, p: T -> bool, q: T -> bool)
    requires forall x :: p(x) ==> q(x)
    ensures Count(s, p) <= Count(s, q)
  {
    if |s| > 0 {
      CountMonotone(s[1..], p, q);
    }
  }

  /** No element occurs twice. */
  predicate Distinct<T(==)>(s: seq<T>) {
    forall i, j :: 0 <= i < j < |s| ==> s[i] != s[j]
  }

  /** Dropping elements from a list without repeats leaves a list without repeats. */
  lemma {:induction false} FilterDistinct<T(!new)>(s: seq<T>, p: T -> bool)
    ensures Distinct(s) ==> Distinct(Filter(s, p))
  {
    if |s| > 0 && Distinct(s) {
      DistinctTail(s);
      FilterDistinct(s[1..], p);
      var rest := Filter(s[1..], p);
      assert s == [s[0]] + s[1..];
      if p(s[0]) {
        assert s[0] !in rest;
        DistinctCons(s[0], rest);
      }
    }
  }

  lemma DistinctTail<T>(s: seq<T>)
    requires |s| > 0 && Distinct(s)
    ensures Distinct(s[1..]) && s[0] !in s[1..]
  {
    forall i, j | 0 <= i < j < |s[1..]|
      ensures s[1..][i] != s[1..][j]
    {
      assert s[1..][i] == s[i + 1] && s[1..][j] == s[j + 1];
    }
    forall k | 0 <= k < |s[1..]|
      ensures s[1..][k] != s[0]
    {
      assert s[1..][k] == s[k + 1];
    }
  }

  lemma DistinctCons<T>(x: T, t: seq<T>)
    requires Distinct(t) && x !in t
    ensures Distinct([x] + t)
  {
    var r := [x] + t;
    forall i, j | 0 <= i < j < |r|
      ensures r[i] != r[j]
    {
      assert r[j] == t[j - 1];
      if i > 0 {
        assert r[i] == t[i - 1];
      }
    }
  }

  lemma DistinctSnoc<T>(t: seq<T>, x: T)
    requires Distinct(t) && x !in t
    ensures Distinct(t + [x])
  {
    var r := t + [x];
    forall i, j | 0 <= i < j < |r|
      ensures r[i] != r[j]
    {
      assert r[i] == t[i];
      if j < |t| {
        assert r[j] == t[j];
      } else {
        assert r[i] in t;
      }
    }
  }

  /** The position of the first element passing `p`, as a loop that returns on its
      first match finds it. */
  function FindFirst<T>(s: seq<T>, p: T -> bool): (r: Option<nat>)
    ensures r.None? <==> forall i :: 0 <= i < |s| ==> !p(s[i])
    ensures r.Some? ==> r.value < |s| && p(s[r.value])
    ensures r.Some? ==> forall j :: 0 <= j < r.value ==> !p(s[j])
  {
    if |s| == 0 then None
    else if p(s[0]) then Some(0)
    else
      match FindFirst(s[1..], p)
      case None => None
      case Some(k) => Some(k + 1)
  }

  /** The position of the last element passing `p`, as a dictionary built from the
      list keeps the last entry under a key. */
  function FindLast<T>(s: seq<T>, p: T -> bool): (r: Option<nat>)
    ensures r.None? <==> forall i :: 0 <= i < |s| ==> !p(s[i])
    ensures r.Some? ==> r.value < |s| && p(s[r.value])
    ensures r.Some? ==> forall j :: r.value < j < |s| ==> !p(s[j])
  {
    if |s| == 0 then None
    else if p(s[|s| - 1]) then Some(|s| - 1)
    else FindLast(s[..|s| - 1], p)
  }

  /** A dict's `values()` in insertion order: the value of each key of `order` that
      the map holds, in the order of `order`. */
  function ValuesInOrder<K, V(==)>(order: seq<K>, m: map<K, V>): (vs: seq<V>)
    ensures |vs| <= |order|
    ensures forall v :: v in vs ==> v in m.Values
  {
    if |order| == 0 then []
    else
      var rest := ValuesInOrder(order[1..], m);
      if order[0] in m then [m[order[0]]] + rest else rest
  }

  /** The distinct elements of `s` passing `p`. */
  function Passing<T(!new)>(s: seq<T>, p: T -> bool): (xs: set<T>)
    ensures forall x :: x in xs <==> x in s && p(x)
  {
    set x | x in s && p(x)
  }

  /** Filtering a list without repeats keeps one element per distinct passing value. */
  lemma {:induction false} CountDistinct<T(!new)>(s: seq<T>, p: T -> bool)
    requires Distinct(s)
    ensures Count(s, p) == |Passing(s, p)|
  {
    if |s| == 0 {
      assert Passing(s, p) == {};
    } else {
      DistinctTail(s);
      CountDistinct(s[1..], p);
      CountCons(s, p);
      PassingCons(s, p);
    }
  }

  lemma PassingCons<T(!new)>(s: seq<T>, p: T -> bool)
    requires |s| > 0 && s[0] !in s[1..]
    ensures |Passing(s, p)| == (if p(s[0]) then 1 else 0) + |Passing(s[1..], p)|
  {
    var rest := Passing(s[1..], p);
    assert s == [s[0]] + s[1..];
    if p(s[0]) {
      assert Passing(s, p) == rest + {s[0]};
    } else {
      assert Passing(s, p) == rest;
    }
  }

  /** Passes both `p` and `q`. */
  function Both<T>(p: T -> bool, q: T -> bool): T -> bool {
    x => p(x) && q(x)
  }

  /** Two successive comprehensions are one comprehension over the conjunction. */
  lemma {:induction false} FilterFilter<T(!new)>(s: seq<T>, p: T -> bool, q: T -> bool)
    ensures Filter(Filter(s, p), q) == Filter(s, Both(p, q))
  {
    if |s| > 0 {
      FilterFilter(s[1..], p, q);
      if p(s[0]) {
        assert Filter(s, p) == [s[0]] + Filter(s[1..], p);
        assert Filter(s, p)[1..] == Filter(s[1..], p);
      }
    }
  }

  /** The keys the map holds with a value passing `p`. */
  function KeyPasses<K, V>(m: map<K, V>, p: V -> bool): K -> bool {
    k => k in m && p(m[k])
  }

  /** Filtering a dict's values counts the keys of `order` whose value passes. */
  lemma {:induction false} FilterValuesInOrder<K(!new), V(!new)>(order: seq<K>, m: map<K, V>, p: V -> bool)
    ensures |Filter(ValuesInOrder(order, m), p)| == Count(order, KeyPasses(m, p))
  {
    if |order| > 0 {
      FilterValuesInOrder(order[1..], m, p);
      var rest := ValuesInOrder(order[1..], m);
      if order[0] in m {
        assert ValuesInOrder(order, m) == [m[order[0]]] + rest;
        FilterConcat([m[order[0]]], rest, p);
      }
    }
  }

  /** The keys whose value in the map passes `p`. */
  function KeysWhere<K(!new), V>(m: map<K, V>, p: V -> bool): (ks: set<K>)
    ensures forall k :: k in ks <==> k in m && p(m[k])
  {
    set k | k in m && p(m[k])
  }

  /** When `order` lists each key of the map once, filtering the dict's values keeps
      one element per key whose value passes. */
  lemma CountHeldKeys<K(!new), V(!new)>(order: seq<K>, m: map<K, V>, p: V -> bool)
    requires Distinct(order) && forall k :: k in m <==> k in order
    ensures |Filter(ValuesInOrder(order, m), p)| == |KeysWhere(m, p)|
  {
    FilterValuesInOrder(order, m, p);
    CountDistinct(order, KeyPasses(m, p));
    PassingKeys(order, m, p);
  }

  lemma PassingKeys<K(!new), V>(order: seq<K>, m: map<K, V>, p: V -> bool)
    requires forall k :: k in m <==> k in order
    ensures Passing(order, KeyPasses(m, p)) == KeysWhere(m, p)
  {
  }

  /** Every key of `order` held in the map contributes its value. */
  lemma {:induction false} ValuesInOrderComplete<K, V>(order: seq<K>, m: map<K, V>, k: K)
    requires k in order && k in m
    ensures m[k] in ValuesInOrder(order, m)
  {
    if order[0] != k {
      ValuesInOrderComplete(order[1..], m, k);
    }
  }
}
