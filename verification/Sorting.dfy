/**
 The stable descending sort by weight that the coordinator applies to weighted models, with
 the properties that pin it down and say how it commutes with relabelling and reordering.
 */
module Sorting {

  function Insert<T>(x: (T, int), s: seq<(T, int)>): seq<(T, int)> {
    if s == [] || s[0].1 <= x.1 then [x] + s else [s[0]] + Insert(x, s[1..])
  }

  /** Of two entries of equal weight, the earlier one stays first. */
  function SortDescending<T>(s: seq<(T, int)>): seq<(T, int)> {
    if s == [] then [] else Insert(s[0], SortDescending(s[1..]))
  }

  ghost predicate Descending<T>(s: seq<(T, int)>) {
    forall i, j | 0 <= i < j < |s| :: s[i].1 >= s[j].1
  }

  /** The entries of one weight, in order. */
  function WithWeight<T>(s: seq<(T, int)>, w: int): seq<(T, int)> {
    if s == [] then []
    else (if s[0].1 == w then [s[0]] else []) + WithWeight(s[1..], w)
  }

  ghost predicate StableDescendingOrderOf<T>(r: seq<(T, int)>, s: seq<(T, int)>) {
    Descending(r) && forall w :: WithWeight(r, w) == WithWeight(s, w)
  }

  lemma {:induction false} InsertKeepsMembers<T>(x: (T, int), s: seq<(T, int)>)
    ensures |Insert(x, s)| == |s| + 1
    ensures multiset(Insert(x, s)) == multiset(s) + multiset{x}
  {
    if s == [] || s[0].1 <= x.1 {
    } else {
      InsertKeepsMembers(x, s[1..]);
      assert s == [s[0]] + s[1..];
    }
  }

  lemma {:induction false} SortKeepsMembers<T>(s: seq<(T, int)>)
    ensures |SortDescending(s)| == |s|
    ensures multiset(SortDescending(s)) == multiset(s)
  {
    if s == [] {
    } else {
      SortKeepsMembers(s[1..]);
      InsertKeepsMembers(s[0], SortDescending(s[1..]));
      assert s == [s[0]] + s[1..];
    }
  }

  lemma {:induction false} InsertDescends<T>(x: (T, int), s: seq<(T, int)>)
    requires Descending(s)
    ensures Descending(Insert(x, s))
  {
    if s == [] || s[0].1 <= x.1 {
    } else {
      InsertDescends(x, s[1..]);
      var rest := Insert(x, s[1..]);
      InsertKeepsMembers(x, s[1..]);
      forall j | 0 <= j < |rest|
        ensures s[0].1 >= rest[j].1
      {
        assert rest[j] in multiset(rest);
        assert rest[j] == x || rest[j] in s[1..];
      }
    }
  }

  lemma {:induction false} InsertIsStable<T>(x: (T, int), s: seq<(T, int)>, w: int)
    ensures WithWeight(Insert(x, s), w) == WithWeight([x] + s, w)
  {
    if s == [] || s[0].1 <= x.1 {
    } else {
      InsertIsStable(x, s[1..], w);
      assert ([x] + s[1..])[1..] == s[1..];
      assert ([x] + s)[1..] == s;
    }
  }

  lemma {:induction false} SortIsStableDescending<T>(s: seq<(T, int)>)
    ensures StableDescendingOrderOf(SortDescending(s), s)
  {
    if s == [] {
    } else {
      var rest := SortDescending(s[1..]);
      SortIsStableDescending(s[1..]);
      InsertDescends(s[0], rest);
      forall w
        ensures WithWeight(SortDescending(s), w) == WithWeight(s, w)
      {
        InsertIsStable(s[0], rest, w);
        assert ([s[0]] + rest)[1..] == rest;
      }
    }
  }

  lemma {:induction false} WithWeightIsEmpty<T>(s: seq<(T, int)>, w: int)
    ensures WithWeight(s, w) == [] <==> forall i | 0 <= i < |s| :: s[i].1 != w
  {
    if s != [] {
      WithWeightIsEmpty(s[1..], w);
      assert forall i | 1 <= i < |s| :: s[i] == s[1..][i - 1];
    }
  }

  lemma HeaviestFirst<T>(r: seq<(T, int)>, q: seq<(T, int)>)
    requires Descending(r) && Descending(q) && r != []
    requires forall w :: WithWeight(r, w) == WithWeight(q, w)
    ensures q != [] && q[0].1 >= r[0].1
  {
    WithWeightIsEmpty(r, r[0].1);
    WithWeightIsEmpty(q, r[0].1);
  }

  /** Descending order and stability leave no choice: the sort has one possible result. */
  lemma {:induction false} StableOrderIsUnique<T>(r: seq<(T, int)>, q: seq<(T, int)>)
    requires Descending(r) && Descending(q)
    requires forall w :: WithWeight(r, w) == WithWeight(q, w)
    ensures r == q
  {
    if r == [] {
      if q != [] { HeaviestFirst(q, r); }
    } else {
      HeaviestFirst(r, q);
      HeaviestFirst(q, r);
      assert WithWeight(r, r[0].1)[0] == r[0] && WithWeight(q, r[0].1)[0] == q[0];
      forall w
        ensures WithWeight(r[1..], w) == WithWeight(q[1..], w)
      {
        var hd := if r[0].1 == w then [r[0]] else [];
        assert WithWeight(r, w) == hd + WithWeight(r[1..], w);
        assert WithWeight(q, w) == hd + WithWeight(q[1..], w);
        assert WithWeight(r[1..], w) == WithWeight(r, w)[|hd|..];
        assert WithWeight(q[1..], w) == WithWeight(q, w)[|hd|..];
      }
      StableOrderIsUnique(r[1..], q[1..]);
      assert r == [r[0]] + r[1..] && q == [q[0]] + q[1..];
    }
  }

  /** Applies f to every entry and multiplies every weight by c. */
  function Relabel<T, U>(s: seq<(T, int)>, f: T -> U, c: int): seq<(U, int)> {
    seq(|s|, i requires 0 <= i < |s| => (f(s[i].0), s[i].1 * c))
  }

  lemma ScaleKeepsOrder(a: int, b: int, c: int)
    requires c > 0
    ensures a <= b <==> a * c <= b * c
  {
    if a < b {
      assert (b - a) * c > 0;
    } else if a > b {
      assert (a - b) * c > 0;
    }
  }

  lemma {:induction false} InsertRelabel<T, U>(x: (T, int), s: seq<(T, int)>, f: T -> U, c: int)
    requires c > 0
    ensures Insert((f(x.0), x.1 * c), Relabel(s, f, c)) == Relabel(Insert(x, s), f, c)
  {
    var y := (f(x.0), x.1 * c);
    if s == [] {
    } else {
      ScaleKeepsOrder(s[0].1, x.1, c);
      assert Relabel(s, f, c)[1..] == Relabel(s[1..], f, c);
      InsertRelabel(x, s[1..], f, c);
    }
  }

  /** Sorting looks at nothing but the order of the weights. */
  lemma {:induction false} SortRelabel<T, U>(s: seq<(T, int)>, f: T -> U, c: int)
    requires c > 0
    ensures SortDescending(Relabel(s, f, c)) == Relabel(SortDescending(s), f, c)
  {
    if s == [] {
    } else {
      assert Relabel(s, f, c)[1..] == Relabel(s[1..], f, c);
      SortRelabel(s[1..], f, c);
      InsertRelabel(s[0], SortDescending(s[1..]), f, c);
    }
  }

  /** No two different entries share a weight. */
  ghost predicate WeightsSeparate<T>(s: seq<(T, int)>) {
    forall i, j | 0 <= i < |s| && 0 <= j < |s| && s[i].1 == s[j].1 :: s[i] == s[j]
  }

  lemma PermutationHas<E>(a: seq<E>, b: seq<E>, i: nat) returns (j: nat)
    requires multiset(a) == multiset(b) && i < |a|
    ensures j < |b| && b[j] == a[i]
  {
    assert a[i] in multiset(a);
    assert a[i] in b;
    j :| 0 <= j < |b| && b[j] == a[i];
  }

  lemma SameLength<E>(a: seq<E>, b: seq<E>)
    requires multiset(a) == multiset(b)
    ensures |a| == |b|
  {
    assert |multiset(a)| == |a| && |multiset(b)| == |b|;
  }

  lemma DropSameHead<E>(a: seq<E>, b: seq<E>)
    requires multiset(a) == multiset(b) && a != [] && b != [] && a[0] == b[0]
    ensures multiset(a[1..]) == multiset(b[1..])
  {
    assert a == [a[0]] + a[1..] && b == [b[0]] + b[1..];
    assert multiset(a) == multiset{a[0]} + multiset(a[1..]);
    assert multiset(b) == multiset{b[0]} + multiset(b[1..]);
    assert multiset(a[1..]) == multiset(a) - multiset{a[0]};
  }

  lemma PermutationKeepsSeparation<T>(a: seq<(T, int)>, b: seq<(T, int)>)
    requires multiset(a) == multiset(b) && WeightsSeparate(a)
    ensures WeightsSeparate(b)
  {
    forall i, j | 0 <= i < |b| && 0 <= j < |b| && b[i].1 == b[j].1
      ensures b[i] == b[j]
    {
      var k := PermutationHas(b, a, i);
      var l := PermutationHas(b, a, j);
    }
  }

  lemma {:induction false} DescendingPermutationIsUnique<T>(r: seq<(T, int)>, q: seq<(T, int)>)
    requires Descending(r) && Descending(q)
    requires multiset(r) == multiset(q)
    requires WeightsSeparate(r)
    ensures r == q
  {
    SameLength(r, q);
    if r != [] {
      var i := PermutationHas(q, r, 0);
      var j := PermutationHas(r, q, 0);
      assert r[0].1 == r[i].1;
      DropSameHead(r, q);
      DescendingPermutationIsUnique(r[1..], q[1..]);
      assert r == [r[0]] + r[1..] && q == [q[0]] + q[1..];
    }
  }

  /** Without ties, the order in which the entries arrive is forgotten. */
  lemma SortOfPermutation<T>(a: seq<(T, int)>, b: seq<(T, int)>)
    requires multiset(a) == multiset(b)
    requires WeightsSeparate(a)
    ensures SortDescending(a) == SortDescending(b)
  {
    SortKeepsMembers(a);
    SortKeepsMembers(b);
    SortIsStableDescending(a);
    SortIsStableDescending(b);
    PermutationKeepsSeparation(a, SortDescending(a));
    DescendingPermutationIsUnique(SortDescending(a), SortDescending(b));
  }

  // ---------- Permutations ----------

  lemma {:induction false} DistinctMeansOnce<E>(s: seq<E>, e: E)
    requires forall i, j | 0 <= i < j < |s| :: s[i] != s[j]
    ensures multiset(s)[e] <= 1
  {
    if s != [] {
      assert s == [s[0]] + s[1..];
      DistinctMeansOnce(s[1..], e);
      if e == s[0] {
        assert e !in s[1..];
      }
    }
  }

  lemma RepeatMeansTwice<E>(s: seq<E>, i: nat, j: nat)
    requires i < j < |s| && s[i] == s[j]
    ensures multiset(s)[s[i]] >= 2
  {
    assert s == s[..j] + s[j..];
    assert s[i] in s[..j] && s[i] in s[j..] by {
      assert s[..j][i] == s[i] && s[j..][0] == s[j];
    }
    assert multiset(s) == multiset(s[..j]) + multiset(s[j..]);
  }

  lemma PermutationStaysDistinct<E>(s: seq<E>, r: seq<E>)
    requires multiset(r) == multiset(s)
    requires forall i, j | 0 <= i < |s| && 0 <= j < |s| && i != j :: s[i] != s[j]
    ensures forall i, j | 0 <= i < |r| && 0 <= j < |r| && i != j :: r[i] != r[j]
  {
    forall i, j | 0 <= i < j < |r|
      ensures r[i] != r[j]
    {
      if r[i] == r[j] {
        RepeatMeansTwice(r, i, j);
        DistinctMeansOnce(s, r[i]);
      }
    }
  }
}
