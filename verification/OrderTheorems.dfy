/**
 Exactly when the order in which uploads arrive cannot change the merge. Equally weighted models may
 come in any order, so what matters is whether their shares commute, as far as the cap lets them show.
 */
module OrderTheorems {
  import opened Wrappers
  import opened Trees
  import opened Sorting
  import opened Aggregation
  import opened AggregationTheorems

  // ---------- Cutting ----------

  /** The first n trees, none if n is negative. */
  function Cut(s: seq<Tree>, n: int): seq<Tree> {
    if n <= 0 then [] else Prefix(s, n)
  }

  lemma CutLess(p: seq<Tree>, q: seq<Tree>, n: int, m: int)
    requires Cut(p, n) == Cut(q, n) && m <= n
    ensures Cut(p, m) == Cut(q, m)
  {
    assert Cut(p, m) == Cut(Cut(p, n), m);
    assert Cut(q, m) == Cut(Cut(q, n), m);
  }

  lemma CutAppend(a: seq<Tree>, x: seq<Tree>, n: int)
    ensures Cut(a + x, n) == if n <= |a| then Cut(a, n) else a + Cut(x, n - |a|)
  {
  }

  lemma CutAfter(a: seq<Tree>, x: seq<Tree>, y: seq<Tree>, n: int)
    ensures Cut(x, n - |a|) == Cut(y, n - |a|) ==> Cut(a + x, n) == Cut(a + y, n)
    ensures Cut(a + x, n) == Cut(a + y, n) ==> Cut(x, n - |a|) == Cut(y, n - |a|)
  {
    CutAppend(a, x, n);
    CutAppend(a, y, n);
    if n > |a| && Cut(a + x, n) == Cut(a + y, n) {
      assert Cut(x, n - |a|) == (a + Cut(x, n - |a|))[|a|..];
      assert Cut(y, n - |a|) == (a + Cut(y, n - |a|))[|a|..];
    }
  }

  lemma CutBefore(p: seq<Tree>, q: seq<Tree>, z: seq<Tree>, n: int)
    requires |p| == |q|
    ensures Cut(p, n) == Cut(q, n) <==> Cut(p + z, n) == Cut(q + z, n)
  {
    CutAppend(p, z, n);
    CutAppend(q, z, n);
    if n > |p| && Cut(p + z, n) == Cut(q + z, n) {
      assert p == (p + Cut(z, n - |p|))[..|p|];
      assert q == (q + Cut(z, n - |q|))[..|q|];
    }
  }

  // ---------- Shares ----------

  /** The trees a model brings when it is not the base. The arguments about order hold for any such function. */
  type Sharer = WeightedModel -> seq<Tree>

  function Sharing(total: int): Sharer {
    (p: WeightedModel) => if total > 0 && p.1 > 0 then Bodies(Included(p, total)) else []
  }

  function Shares(s: seq<WeightedModel>, f: Sharer): seq<Tree>
  {
    if s == [] then [] else f(s[0]) + Shares(s[1..], f)
  }

  lemma {:induction false} SharesAreAppended(s: seq<WeightedModel>, total: nat)
    requires total > 0 && Positive(s)
    ensures Shares(s, Sharing(total)) == Bodies(Appended(s, total))
  {
    if s != [] {
      SharesAreAppended(s[1..], total);
      var a, b := Included(s[0], total), Appended(s[1..], total);
      assert Bodies(a + b) == Bodies(a) + Bodies(b);
    }
  }

  lemma {:induction false} SharesConcat(a: seq<WeightedModel>, b: seq<WeightedModel>, f: Sharer)
    ensures Shares(a + b, f) == Shares(a, f) + Shares(b, f)
  {
    if a == [] {
      assert a + b == b;
    } else {
      assert (a + b)[0] == a[0] && (a + b)[1..] == a[1..] + b;
      SharesConcat(a[1..], b, f);
    }
  }

  /** How many trees the shares of heavier models hold. */
  function Heavier(s: seq<WeightedModel>, f: Sharer, w: int): nat
  {
    if s == [] then 0 else (if s[0].1 > w then |f(s[0])| else 0) + Heavier(s[1..], f, w)
  }

  lemma {:induction false} HeavierConcat(a: seq<WeightedModel>, b: seq<WeightedModel>, f: Sharer, w: int)
    ensures Heavier(a + b, f, w) == Heavier(a, f, w) + Heavier(b, f, w)
  {
    if a == [] {
      assert a + b == b;
    } else {
      assert (a + b)[0] == a[0] && (a + b)[1..] == a[1..] + b;
      HeavierConcat(a[1..], b, f, w);
    }
  }

  lemma {:induction false} NoneHeavier(s: seq<WeightedModel>, f: Sharer, w: int)
    requires forall i | 0 <= i < |s| :: s[i].1 <= w
    ensures Heavier(s, f, w) == 0
  {
    if s != [] {
      NoneHeavier(s[1..], f, w);
    }
  }

  lemma {:induction false} AllHeavier(s: seq<WeightedModel>, f: Sharer, w: int)
    requires forall i | 0 <= i < |s| :: s[i].1 > w
    ensures Heavier(s, f, w) == |Shares(s, f)|
  {
    if s != [] {
      AllHeavier(s[1..], f, w);
    }
  }

  /** Two shares can change places without changing the first n trees. */
  ghost predicate Commute(p: WeightedModel, q: WeightedModel, f: Sharer, n: int)
  {
    Cut(f(p) + f(q), n) == Cut(f(q) + f(p), n)
  }

  /** Two models' shares commute in the room that heavier ones leave. */
  ghost predicate TieCommutes(s: seq<WeightedModel>, f: Sharer, room: int, i: nat, j: nat)
    requires i < |s| && j < |s|
  {
    Commute(s[i], s[j], f, room - Heavier(s, f, s[i].1))
  }

  ghost predicate TiesCommute(s: seq<WeightedModel>, f: Sharer, room: int) {
    forall i, j | 0 <= i < j < |s| && s[i].1 == s[j].1 :: TieCommutes(s, f, room, i, j)
  }

  // ---------- Commuting is enough ----------

  function Without<T>(s: seq<T>, k: nat): seq<T>
    requires k < |s|
  {
    s[..k] + s[k + 1..]
  }

  /** u passes over the first share, having passed over the rest. */
  lemma PassOver(first: seq<Tree>, u: seq<Tree>, rest: seq<Tree>, z: seq<Tree>, room: int)
    requires Cut(first + u, room) == Cut(u + first, room)
    requires Cut(rest, room - |first|) == Cut(u + z, room - |first|)
    ensures Cut(first + rest, room) == Cut(u + (first + z), room)
  {
    CutAfter(first, rest, u + z, room);
    CutBefore(first + u, u + first, z, room);
    assert first + (u + z) == first + u + z;
    assert u + (first + z) == u + first + z;
  }

  lemma SharesWithout(s: seq<WeightedModel>, k: nat, f: Sharer)
    requires 0 < k < |s|
    ensures Shares(Without(s, k), f) == f(s[0]) + Shares(Without(s[1..], k - 1), f)
  {
    assert Without(s, k)[0] == s[0] && Without(s, k)[1..] == Without(s[1..], k - 1);
  }

  lemma CommuteInLess(s: seq<WeightedModel>, k: nat, f: Sharer, room: int)
    requires 0 < k < |s| && forall i | 0 <= i < k :: Commute(s[i], s[k], f, room)
    ensures forall i | 0 <= i < k - 1 :: Commute(s[1..][i], s[1..][k - 1], f, room - |f(s[0])|)
  {
    forall i | 0 <= i < k - 1
      ensures Commute(s[1..][i], s[1..][k - 1], f, room - |f(s[0])|)
    {
      assert Commute(s[i + 1], s[k], f, room);
      var a, u := f(s[i + 1]), f(s[k]);
      CutLess(a + u, u + a, room, room - |f(s[0])|);
    }
  }

  lemma {:induction false} MoveToFront(s: seq<WeightedModel>, k: nat, f: Sharer, room: int)
    requires k < |s| && forall i | 0 <= i < k :: Commute(s[i], s[k], f, room)
    ensures Cut(Shares(s, f), room) == Cut(f(s[k]) + Shares(Without(s, k), f), room)
    decreases k
  {
    if k == 0 {
      assert Without(s, 0) == s[1..];
    } else {
      var first, u := f(s[0]), f(s[k]);
      CommuteInLess(s, k, f, room);
      MoveToFront(s[1..], k - 1, f, room - |first|);
      assert Commute(s[0], s[k], f, room);
      PassOver(first, u, Shares(s[1..], f), Shares(Without(s[1..], k - 1), f), room);
      SharesWithout(s, k, f);
    }
  }

  lemma HeavierWithout(s: seq<WeightedModel>, k: nat, f: Sharer, w: int)
    requires k < |s|
    ensures Heavier(s, f, w)
         == Heavier(Without(s, k), f, w) + if s[k].1 > w then |f(s[k])| else 0
  {
    assert s == s[..k] + ([s[k]] + s[k + 1..]);
    HeavierConcat(s[..k], [s[k]] + s[k + 1..], f, w);
    HeavierConcat([s[k]], s[k + 1..], f, w);
    HeavierConcat(s[..k], s[k + 1..], f, w);
    assert [s[k]][1..] == [];
  }

  /** Where a place of Without(s, k) is in s. */
  function Back(k: nat, i: nat): nat {
    if i < k then i else i + 1
  }

  /** Taking out one of the heaviest leaves a pair as much room as it had, or less. */
  lemma TieStillCommutes(s: seq<WeightedModel>, k: nat, f: Sharer, room: int, i: nat, j: nat)
    requires k < |s| && i < |s| - 1 && j < |s| - 1 && s[Back(k, i)].1 <= s[k].1
    requires TieCommutes(s, f, room, Back(k, i), Back(k, j))
    ensures TieCommutes(Without(s, k), f, room - |f(s[k])|, i, j)
  {
    var p, q := s[Back(k, i)], s[Back(k, j)];
    assert Without(s, k)[i] == p && Without(s, k)[j] == q;
    HeavierWithout(s, k, f, p.1);
    CutLess(f(p) + f(q), f(q) + f(p), room - Heavier(s, f, p.1), room - |f(s[k])| - Heavier(Without(s, k), f, p.1));
  }

  lemma TiesStillCommute(s: seq<WeightedModel>, k: nat, f: Sharer, room: int)
    requires k < |s| && (forall i | 0 <= i < |s| :: s[i].1 <= s[k].1)
    requires TiesCommute(s, f, room)
    ensures TiesCommute(Without(s, k), f, room - |f(s[k])|)
  {
    var rest := Without(s, k);
    forall i, j | 0 <= i < j < |rest| && rest[i].1 == rest[j].1
      ensures TieCommutes(rest, f, room - |f(s[k])|, i, j)
    {
      assert rest[i] == s[Back(k, i)] && rest[j] == s[Back(k, j)];
      TieStillCommutes(s, k, f, room, i, j);
    }
  }

  lemma WithoutDescends(s: seq<WeightedModel>, k: nat)
    requires Descending(s) && k < |s|
    ensures Descending(Without(s, k))
  {
  }

  lemma MultisetWithout<T>(s: seq<T>, k: nat)
    requires k < |s|
    ensures multiset(Without(s, k)) == multiset(s) - multiset{s[k]}
  {
    assert s == s[..k] + ([s[k]] + s[k + 1..]);
  }

  /** The first element of one descending order, found in the other; nothing there is heavier. */
  lemma HeadIn(s: seq<WeightedModel>, t: seq<WeightedModel>) returns (k: nat)
    requires Descending(s) && Descending(t) && multiset(s) == multiset(t) && t != []
    ensures k < |s| && s[k] == t[0] && s[k].1 == s[0].1
    ensures forall i | 0 <= i < k :: s[i].1 == s[k].1
  {
    SameLength(s, t);
    k := PermutationHas(t, s, 0);
    var l := PermutationHas(s, t, 0);
  }

  lemma HeadCommutes(s: seq<WeightedModel>, k: nat, f: Sharer, room: int)
    requires Descending(s) && k < |s| && TiesCommute(s, f, room)
    requires s[k].1 == s[0].1 && forall i | 0 <= i < k :: s[i].1 == s[k].1
    ensures forall i | 0 <= i < k :: Commute(s[i], s[k], f, room)
  {
    NoneHeavier(s, f, s[k].1);
    forall i | 0 <= i < k
      ensures Commute(s[i], s[k], f, room)
    {
      assert TieCommutes(s, f, room, i, k);
    }
  }

  lemma HeadToFront(s: seq<WeightedModel>, k: nat, f: Sharer, room: int)
    requires Descending(s) && k < |s| && TiesCommute(s, f, room)
    requires s[k].1 == s[0].1 && forall i | 0 <= i < k :: s[i].1 == s[k].1
    ensures Cut(Shares(s, f), room) == Cut(f(s[k]) + Shares(Without(s, k), f), room)
    ensures TiesCommute(Without(s, k), f, room - |f(s[k])|) && Descending(Without(s, k))
  {
    HeadCommutes(s, k, f, room);
    assert Cut(Shares(s, f), room) == Cut(f(s[k]) + Shares(Without(s, k), f), room) by {
      MoveToFront(s, k, f, room);
    }
    assert TiesCommute(Without(s, k), f, room - |f(s[k])|) by {
      TiesStillCommute(s, k, f, room);
    }
    WithoutDescends(s, k);
  }

  lemma CutSameHead(all: seq<Tree>, u: seq<Tree>, x: seq<Tree>, y: seq<Tree>, other: seq<Tree>, room: int)
    requires Cut(all, room) == Cut(u + x, room) && other == u + y
    requires Cut(x, room - |u|) == Cut(y, room - |u|)
    ensures Cut(all, room) == Cut(other, room)
  {
    CutAfter(u, x, y, room);
  }

  lemma SameTails(s: seq<WeightedModel>, t: seq<WeightedModel>, k: nat)
    requires k < |s| && t != [] && s[k] == t[0] && multiset(s) == multiset(t)
    ensures multiset(Without(s, k)) == multiset(t[1..])
  {
    MultisetWithout(s, k);
    assert t == [t[0]] + t[1..];
  }

  lemma HeadThenTails(s: seq<WeightedModel>, t: seq<WeightedModel>, k: nat, f: Sharer, room: int)
    requires k < |s| && t != [] && s[k] == t[0]
    requires Cut(Shares(s, f), room) == Cut(f(s[k]) + Shares(Without(s, k), f), room)
    requires Cut(Shares(Without(s, k), f), room - |f(s[k])|) == Cut(Shares(t[1..], f), room - |f(s[k])|)
    ensures Cut(Shares(s, f), room) == Cut(Shares(t, f), room)
  {
    CutSameHead(Shares(s, f), f(s[k]), Shares(Without(s, k), f), Shares(t[1..], f), Shares(t, f), room);
  }

  lemma {:induction false} CommutingTiesSuffice(s: seq<WeightedModel>, t: seq<WeightedModel>, f: Sharer, room: int)
    requires Descending(s) && Descending(t) && multiset(s) == multiset(t)
    requires TiesCommute(s, f, room)
    ensures Cut(Shares(s, f), room) == Cut(Shares(t, f), room)
    decreases |s|
  {
    SameLength(s, t);
    if t == [] {
      assert s == t;
    } else {
      var k := HeadIn(s, t);
      HeadToFront(s, k, f, room);
      SameTails(s, t, k);
      CommutingTiesSuffice(Without(s, k), t[1..], f, room - |f(s[k])|);
      HeadThenTails(s, t, k, f, room);
    }
  }

  // ---------- Commuting is needed ----------

  ghost predicate CutsLike(s: seq<WeightedModel>, t: seq<WeightedModel>, f: Sharer, room: int) {
    Descending(t) && multiset(t) == multiset(s) ==> Cut(Shares(t, f), room) == Cut(Shares(s, f), room)
  }

  /** Whatever descending order the same models come in, the cut is the same. */
  ghost predicate AnyOrderCuts(s: seq<WeightedModel>, f: Sharer, room: int) {
    forall t :: CutsLike(s, t, f, room)
  }

  lemma {:induction false} GroupStart(s: seq<WeightedModel>, i: nat) returns (g: nat)
    requires Descending(s) && i < |s|
    ensures g <= i && s[g].1 == s[i].1
    ensures forall x | 0 <= x < g :: s[x].1 > s[i].1
    decreases i
  {
    if i > 0 && s[i - 1].1 == s[i].1 {
      g := GroupStart(s, i - 1);
    } else {
      g := i;
    }
  }

  /** s with the places i and j, taken in this order, moved to the place g before both. */
  function Moved(s: seq<WeightedModel>, g: nat, p: WeightedModel, q: WeightedModel, i: nat, j: nat): seq<WeightedModel>
    requires g <= i < j < |s|
  {
    s[..g] + ([p, q] + (s[g..i] + s[i + 1..j] + s[j + 1..]))
  }

  lemma DescendingConcat(a: seq<WeightedModel>, b: seq<WeightedModel>, w: int)
    requires Descending(a) && Descending(b)
    requires (forall x | 0 <= x < |a| :: a[x].1 >= w) && forall y | 0 <= y < |b| :: b[y].1 <= w
    ensures Descending(a + b)
  {
  }

  lemma MovedDescends(s: seq<WeightedModel>, g: nat, p: WeightedModel, q: WeightedModel, i: nat, j: nat)
    requires Descending(s) && g <= i < j < |s| && s[g].1 == s[i].1 == s[j].1 == p.1 == q.1
    ensures Descending(Moved(s, g, p, q, i, j))
  {
    var w := p.1;
    var rest := s[g..i] + s[i + 1..j] + s[j + 1..];
    DescendingConcat(s[g..i], s[i + 1..j], w);
    DescendingConcat(s[g..i] + s[i + 1..j], s[j + 1..], w);
    DescendingConcat([p, q], rest, w);
    DescendingConcat(s[..g], [p, q] + rest, w);
  }

  lemma TwoApart<T>(s: seq<T>, g: nat, i: nat, j: nat)
    requires g <= i < j < |s|
    ensures s == s[..g] + (s[g..i] + ([s[i]] + (s[i + 1..j] + ([s[j]] + s[j + 1..]))))
  {
  }

  lemma BroughtForward<T>(a: seq<T>, b: seq<T>, x: T, c: seq<T>, y: T, d: seq<T>)
    ensures multiset(a + ([x, y] + (b + c + d))) == multiset(a + (b + ([x] + (c + ([y] + d)))))
  {
  }

  lemma PairSwapped<T>(a: seq<T>, x: T, y: T, d: seq<T>)
    ensures multiset(a + ([x, y] + d)) == multiset(a + ([y, x] + d))
  {
  }

  lemma MovedPermutes(s: seq<WeightedModel>, g: nat, i: nat, j: nat)
    requires g <= i < j < |s|
    ensures multiset(Moved(s, g, s[i], s[j], i, j)) == multiset(s)
    ensures multiset(Moved(s, g, s[j], s[i], i, j)) == multiset(s)
  {
    TwoApart(s, g, i, j);
    BroughtForward(s[..g], s[g..i], s[i], s[i + 1..j], s[j], s[j + 1..]);
    PairSwapped(s[..g], s[i], s[j], s[g..i] + s[i + 1..j] + s[j + 1..]);
  }

  lemma MovedShares(s: seq<WeightedModel>, g: nat, p: WeightedModel, q: WeightedModel, i: nat, j: nat, f: Sharer)
    requires g <= i < j < |s|
    ensures var rest := s[g..i] + s[i + 1..j] + s[j + 1..];
      Shares(Moved(s, g, p, q, i, j), f)
        == Shares(s[..g], f) + (f(p) + f(q) + Shares(rest, f))
  {
    var rest := s[g..i] + s[i + 1..j] + s[j + 1..];
    SharesConcat(s[..g], [p, q] + rest, f);
    SharesConcat([p, q], rest, f);
    assert [p, q][1..] == [q] && [q][1..] == [];
    assert Shares([q], f) == f(q);
  }

  lemma CommutingIsNeeded(s: seq<WeightedModel>, f: Sharer, room: int)
    requires Descending(s) && AnyOrderCuts(s, f, room)
    ensures TiesCommute(s, f, room)
  {
    forall i, j | 0 <= i < j < |s| && s[i].1 == s[j].1
      ensures TieCommutes(s, f, room, i, j)
    {
      TieIsForced(s, f, room, i, j);
    }
  }

  lemma MovedCuts(s: seq<WeightedModel>, f: Sharer, room: int, g: nat, i: nat, j: nat)
    requires Descending(s) && AnyOrderCuts(s, f, room)
    requires g <= i < j < |s| && s[g].1 == s[i].1 == s[j].1
    ensures Cut(Shares(Moved(s, g, s[i], s[j], i, j), f), room)
         == Cut(Shares(Moved(s, g, s[j], s[i], i, j), f), room)
  {
    MovedDescends(s, g, s[i], s[j], i, j);
    MovedDescends(s, g, s[j], s[i], i, j);
    MovedPermutes(s, g, i, j);
    assert CutsLike(s, Moved(s, g, s[i], s[j], i, j), f, room);
    assert CutsLike(s, Moved(s, g, s[j], s[i], i, j), f, room);
  }

  /** Equal cuts agree on what stands between a common start and a common end. */
  lemma Squeeze(h: seq<Tree>, p: seq<Tree>, q: seq<Tree>, z: seq<Tree>, room: int)
    requires |p| == |q| && Cut(h + (p + z), room) == Cut(h + (q + z), room)
    ensures Cut(p, room - |h|) == Cut(q, room - |h|)
  {
    CutAfter(h, p + z, q + z, room);
    CutBefore(p, q, z, room - |h|);
  }

  lemma TieIsForced(s: seq<WeightedModel>, f: Sharer, room: int, i: nat, j: nat)
    requires Descending(s) && AnyOrderCuts(s, f, room)
    requires i < j < |s| && s[i].1 == s[j].1
    ensures TieCommutes(s, f, room, i, j)
  {
    var g := GroupStart(s, i);
    MovedCuts(s, f, room, g, i, j);
    TieFromCuts(s, f, room, g, i, j);
  }

  lemma TieFromCuts(s: seq<WeightedModel>, f: Sharer, room: int, g: nat, i: nat, j: nat)
    requires Descending(s) && g <= i < j < |s| && s[g].1 == s[i].1 == s[j].1
    requires forall x | 0 <= x < g :: s[x].1 > s[i].1
    requires Cut(Shares(Moved(s, g, s[i], s[j], i, j), f), room) == Cut(Shares(Moved(s, g, s[j], s[i], i, j), f), room)
    ensures TieCommutes(s, f, room, i, j)
  {
    MovedForces(s, f, room, g, i, j);
    HeavierOfGroup(s, g, i, f);
  }

  lemma MovedForces(s: seq<WeightedModel>, f: Sharer, room: int, g: nat, i: nat, j: nat)
    requires g <= i < j < |s|
    requires Cut(Shares(Moved(s, g, s[i], s[j], i, j), f), room)
          == Cut(Shares(Moved(s, g, s[j], s[i], i, j), f), room)
    ensures Commute(s[i], s[j], f, room - |Shares(s[..g], f)|)
  {
    var p, q := f(s[i]), f(s[j]);
    var rest := s[g..i] + s[i + 1..j] + s[j + 1..];
    MovedShares(s, g, s[i], s[j], i, j, f);
    MovedShares(s, g, s[j], s[i], i, j, f);
    Squeeze(Shares(s[..g], f), p + q, q + p, Shares(rest, f), room);
  }

  lemma HeavierOfGroup(s: seq<WeightedModel>, g: nat, i: nat, f: Sharer)
    requires Descending(s) && g <= i < |s| && s[g].1 == s[i].1
    requires forall x | 0 <= x < g :: s[x].1 > s[i].1
    ensures Heavier(s, f, s[i].1) == |Shares(s[..g], f)|
  {
    assert s == s[..g] + s[g..];
    HeavierConcat(s[..g], s[g..], f, s[i].1);
    AllHeavier(s[..g], f, s[i].1);
    NoneHeavier(s[g..], f, s[i].1);
  }

  // ---------- The merge ----------

  /** The trees before the cap. */
  function PoolBodies(s: seq<WeightedModel>, f: Sharer): seq<Tree>
    requires s != []
  {
    Bodies(s[0].0.trees) + Shares(s[1..], f)
  }

  /** All that a merge result consists of: what is kept of the base, the trees, and whether the cap bit. */
  datatype View = View(names: seq<string>, numFeature: Option<int>, counted: bool, kept: seq<Tree>, capped: bool)

  function ViewOf(s: seq<WeightedModel>, f: Sharer): View
    requires s != []
  {
    var pool := PoolBodies(s, f);
    View(s[0].0.featureNames, s[0].0.numFeature, s[0].0.numTrees.Some?,
         Cut(pool, MAX_GLOBAL_TREES), |pool| > MAX_GLOBAL_TREES)
  }

  lemma PoolBodiesOf(s: seq<WeightedModel>, total: nat)
    requires total > 0 && s != [] && Positive(s)
    ensures Bodies(Pool(s, total)) == PoolBodies(s, Sharing(total))
    ensures Bodies(Prefix(Pool(s, total), MAX_GLOBAL_TREES)) == Cut(PoolBodies(s, Sharing(total)), MAX_GLOBAL_TREES)
  {
    SharesAreAppended(s[1..], total);
    var a, b := s[0].0.trees, Appended(s[1..], total);
    assert Bodies(a + b) == Bodies(a) + Bodies(b);
  }

  lemma RenumberedIffBodies(a: seq<NumberedTree>, b: seq<NumberedTree>)
    ensures Renumbered(a) == Renumbered(b) <==> Bodies(a) == Bodies(b)
  {
    if Bodies(a) == Bodies(b) {
      assert |a| == |Bodies(a)| == |Bodies(b)| == |b|;
      forall i | 0 <= i < |a|
        ensures Renumbered(a)[i] == Renumbered(b)[i]
      {
        assert Bodies(a)[i] == a[i].body && Bodies(b)[i] == b[i].body;
      }
      assert Renumbered(a) == Renumbered(b);
    }
    if Renumbered(a) == Renumbered(b) {
      assert |a| == |Renumbered(a)| == |Renumbered(b)| == |b|;
      forall i | 0 <= i < |a|
        ensures Bodies(a)[i] == Bodies(b)[i]
      {
        assert Renumbered(a)[i].body == a[i].body && Renumbered(b)[i].body == b[i].body;
      }
    }
  }

  lemma SameMergeIff(s: seq<WeightedModel>, t: seq<WeightedModel>, total: nat)
    requires total > 0 && s != [] && t != [] && Positive(s) && Positive(t) && |s| == |t|
    ensures MergeSorted(s, total) == MergeSorted(t, total) <==> ViewOf(s, Sharing(total)) == ViewOf(t, Sharing(total))
  {
    var a, b := Prefix(Pool(s, total), MAX_GLOBAL_TREES), Prefix(Pool(t, total), MAX_GLOBAL_TREES);
    PoolBodiesOf(s, total);
    PoolBodiesOf(t, total);
    RenumberedIffBodies(a, b);
    assert |a| == |Bodies(a)| && |b| == |Bodies(b)|;
    assert |Pool(s, total)| == |PoolBodies(s, Sharing(total))| && |Pool(t, total)| == |PoolBodies(t, Sharing(total))|;
    if ViewOf(s, Sharing(total)) == ViewOf(t, Sharing(total)) {
      assert WithTrees(s[0].0, a) == WithTrees(t[0].0, b);
    }
  }

  lemma SharesTakeOut(s: seq<WeightedModel>, k: nat, f: Sharer)
    requires k < |s|
    ensures |Shares(s, f)| == |f(s[k])| + |Shares(Without(s, k), f)|
  {
    assert s == s[..k] + ([s[k]] + s[k + 1..]);
    SharesConcat(s[..k], [s[k]] + s[k + 1..], f);
    SharesConcat([s[k]], s[k + 1..], f);
    SharesConcat(s[..k], s[k + 1..], f);
    assert [s[k]][1..] == [];
  }

  lemma {:induction false} SharesLength(s: seq<WeightedModel>, t: seq<WeightedModel>, f: Sharer)
    requires multiset(s) == multiset(t)
    ensures |Shares(s, f)| == |Shares(t, f)|
    decreases |s|
  {
    SameLength(s, t);
    if s == [] {
      assert t == s;
    } else {
      var k := PermutationHas(s, t, 0);
      SameWithoutSame(s, 0, t, k);
      SharesLength(Without(s, 0), Without(t, k), f);
      SharesTakeOut(s, 0, f);
      SharesTakeOut(t, k, f);
    }
  }

  lemma ViewOfCons(p: WeightedModel, u: seq<WeightedModel>, f: Sharer)
    ensures var a, x, v := Bodies(p.0.trees), Shares(u, f), ViewOf([p] + u, f);
      && v == View(p.0.featureNames, p.0.numFeature, p.0.numTrees.Some?, Cut(a + x, MAX_GLOBAL_TREES), v.capped)
      && (v.capped <==> |p.0.trees| + |x| > MAX_GLOBAL_TREES)
  {
    assert ([p] + u)[1..] == u;
  }

  /** With the same base, two orders of the others merge alike exactly if they agree up to the cap. */
  lemma SameBaseIff(p: WeightedModel, u: seq<WeightedModel>, v: seq<WeightedModel>, f: Sharer)
    requires multiset(u) == multiset(v)
    ensures var room := MAX_GLOBAL_TREES - |p.0.trees|;
      ViewOf([p] + u, f) == ViewOf([p] + v, f) <==> Cut(Shares(u, f), room) == Cut(Shares(v, f), room)
  {
    var a, x, y := Bodies(p.0.trees), Shares(u, f), Shares(v, f);
    assert |a| == |p.0.trees|;
    SharesLength(u, v, f);
    ViewOfCons(p, u, f);
    ViewOfCons(p, v, f);
    CutAfter(a, x, y, MAX_GLOBAL_TREES);
  }

  // ---------- Arrivals ----------

  function AsInputs(s: seq<WeightedModel>): seq<Contribution> {
    seq(|s|, i requires 0 <= i < |s| => Contribution(Some(s[i].0), s[i].1))
  }

  function Unusable(inputs: seq<Contribution>): seq<Contribution> {
    if inputs == [] then [] else (if IsUsable(inputs[0]) then [] else [inputs[0]]) + Unusable(inputs[1..])
  }

  lemma {:induction false} NoneOfThemUsable(inputs: seq<Contribution>)
    ensures Usable(Unusable(inputs)) == []
  {
    if inputs != [] {
      NoneOfThemUsable(inputs[1..]);
      if IsUsable(inputs[0]) {
        assert Unusable(inputs) == Unusable(inputs[1..]);
      } else {
        assert Unusable(inputs) == [inputs[0]] + Unusable(inputs[1..]);
        UsableConcat([inputs[0]], Unusable(inputs[1..]));
        assert [inputs[0]][1..] == [] && Usable([inputs[0]]) == [];
      }
    }
  }

  lemma FirstUsable(first: Contribution, rest: seq<Contribution>)
    ensures var inputs := [first] + rest;
      if IsUsable(first)
      then AsInputs(Usable(inputs)) == [first] + AsInputs(Usable(rest)) && Unusable(inputs) == Unusable(rest)
      else AsInputs(Usable(inputs)) == AsInputs(Usable(rest)) && Unusable(inputs) == [first] + Unusable(rest)
  {
    var inputs := [first] + rest;
    assert inputs[1..] == rest;
    if IsUsable(first) {
      assert Usable(inputs) == [(first.document.value, first.weight)] + Usable(rest);
    } else {
      assert Usable(inputs) == Usable(rest);
    }
  }

  lemma MultisetCons<T>(x: T, a: seq<T>, b: seq<T>, c: seq<T>)
    requires multiset(a) == multiset(b) + multiset(c)
    ensures multiset([x] + a) == multiset([x] + b) + multiset(c)
    ensures multiset([x] + a) == multiset(b) + multiset([x] + c)
  {
  }

  lemma {:induction false} UsableAndNot(inputs: seq<Contribution>)
    ensures multiset(inputs) == multiset(AsInputs(Usable(inputs))) + multiset(Unusable(inputs))
  {
    if inputs != [] {
      var first, rest := inputs[0], inputs[1..];
      UsableAndNot(rest);
      assert inputs == [first] + rest;
      FirstUsable(first, rest);
      MultisetCons(first, rest, AsInputs(Usable(rest)), Unusable(rest));
    }
  }

  lemma {:induction false} UsableOfInputs(s: seq<WeightedModel>)
    requires forall i | 0 <= i < |s| :: s[i].1 > 0 && s[i].0.trees != []
    ensures Usable(AsInputs(s)) == s
  {
    if s != [] {
      assert AsInputs(s)[1..] == AsInputs(s[1..]);
      UsableOfInputs(s[1..]);
    }
  }

  lemma AsInputsWithout(s: seq<WeightedModel>, k: nat)
    requires k < |s|
    ensures AsInputs(Without(s, k)) == Without(AsInputs(s), k)
  {
  }

  lemma SameWithoutSame<T>(a: seq<T>, i: nat, b: seq<T>, j: nat)
    requires i < |a| && j < |b| && a[i] == b[j]
    ensures multiset(a) == multiset(b) <==> multiset(Without(a, i)) == multiset(Without(b, j))
  {
    MultisetWithout(a, i);
    MultisetWithout(b, j);
    assert multiset(a) == multiset(a) - multiset{a[i]} + multiset{a[i]};
    assert multiset(b) == multiset(b) - multiset{b[j]} + multiset{b[j]};
  }

  lemma {:induction false} InputsPermute(s: seq<WeightedModel>, t: seq<WeightedModel>)
    requires multiset(s) == multiset(t)
    ensures multiset(AsInputs(s)) == multiset(AsInputs(t))
    decreases |s|
  {
    SameLength(s, t);
    if s == [] {
      assert t == s;
    } else {
      var k := PermutationHas(s, t, 0);
      SameWithoutSame(s, 0, t, k);
      InputsPermute(Without(s, 0), Without(t, k));
      AsInputsWithout(s, 0);
      AsInputsWithout(t, k);
      SameWithoutSame(AsInputs(s), 0, AsInputs(t), k);
    }
  }

  /** Every order of the usable models is one in which the inputs can arrive. */
  lemma AnyOrderArrives(inputs: seq<Contribution>, t: seq<WeightedModel>) returns (b: seq<Contribution>)
    requires multiset(t) == multiset(Usable(inputs))
    ensures multiset(b) == multiset(inputs) && Usable(b) == t
  {
    b := AsInputs(t) + Unusable(inputs);
    UsableAndNot(inputs);
    NoneOfThemUsable(inputs);
    InputsPermute(t, Usable(inputs));
    UsableIsPositive(inputs);
    SamePermutationMembers(t, Usable(inputs));
    assert forall i | 0 <= i < |t| :: t[i] in t;
    UsableOfInputs(t);
    UsableConcat(AsInputs(t), Unusable(inputs));
  }

  ghost predicate OrderIrrelevant(inputs: seq<Contribution>) {
    forall b | multiset(b) == multiset(inputs) :: Merge(b) == Merge(inputs)
  }

  /** The sorted list with the k-th model as its base. */
  function Front(s: seq<WeightedModel>, k: nat): seq<WeightedModel>
    requires k < |s|
  {
    [s[k]] + Without(s, k)
  }

  /**
   With the k-th model as the base the merge is the same, and the shares of equally weighted others
   commute in the room that is left.
   */
  ghost predicate HarmlessAsBase(s: seq<WeightedModel>, k: nat, f: Sharer)
    requires k < |s|
  {
    ViewOf(Front(s, k), f) == ViewOf(s, f) && TiesCommute(Without(s, k), f, MAX_GLOBAL_TREES - |s[k].0.trees|)
  }

  /** That is so of each of the heaviest models. */
  ghost predicate TiesHarmless(s: seq<WeightedModel>, f: Sharer)
    requires s != []
  {
    forall k | 0 <= k < |s| && s[k].1 == s[0].1 :: HarmlessAsBase(s, k, f)
  }

  lemma FrontDescends(s: seq<WeightedModel>, k: nat)
    requires Descending(s) && k < |s| && s[k].1 == s[0].1
    ensures Descending(Front(s, k)) && multiset(Front(s, k)) == multiset(s)
  {
    WithoutDescends(s, k);
    MultisetWithout(s, k);
  }

  ghost predicate MergesLike(s: seq<WeightedModel>, t: seq<WeightedModel>, f: Sharer)
    requires s != []
  {
    t != [] && Descending(t) && multiset(t) == multiset(s) ==> ViewOf(t, f) == ViewOf(s, f)
  }

  /** Any two descending orders of the same models give the same result. */
  ghost predicate AnyOrderMerges(s: seq<WeightedModel>, f: Sharer)
    requires s != []
  {
    forall t :: MergesLike(s, t, f)
  }

  lemma HarmlessFor(s: seq<WeightedModel>, t: seq<WeightedModel>, f: Sharer)
    requires s != [] && Descending(s) && TiesHarmless(s, f)
    requires t != [] && Descending(t) && multiset(t) == multiset(s)
    ensures ViewOf(t, f) == ViewOf(s, f)
  {
    var k := HeadIn(s, t);
    assert HarmlessAsBase(s, k, f);
    HarmlessAt(s, t, k, f);
  }

  lemma HarmlessAt(s: seq<WeightedModel>, t: seq<WeightedModel>, k: nat, f: Sharer)
    requires Descending(s) && k < |s| && TiesCommute(Without(s, k), f, MAX_GLOBAL_TREES - |s[k].0.trees|)
    requires t != [] && Descending(t) && multiset(t) == multiset(s) && t[0] == s[k]
    ensures ViewOf(t, f) == ViewOf(Front(s, k), f)
  {
    SameTails(s, t, k);
    WithoutDescends(s, k);
    assert t == [s[k]] + t[1..];
    HarmlessTail(s[k], Without(s, k), t[1..], f);
  }

  lemma HarmlessTail(p: WeightedModel, u: seq<WeightedModel>, v: seq<WeightedModel>, f: Sharer)
    requires Descending(u) && Descending(v) && multiset(u) == multiset(v)
    requires TiesCommute(u, f, MAX_GLOBAL_TREES - |p.0.trees|)
    ensures ViewOf([p] + u, f) == ViewOf([p] + v, f)
  {
    CommutingTiesSuffice(u, v, f, MAX_GLOBAL_TREES - |p.0.trees|);
    ViewsFromTail(p, u, v, f);
  }

  lemma ViewsFromTail(p: WeightedModel, u: seq<WeightedModel>, v: seq<WeightedModel>, f: Sharer)
    requires multiset(u) == multiset(v)
    requires Cut(Shares(u, f), MAX_GLOBAL_TREES - |p.0.trees|) == Cut(Shares(v, f), MAX_GLOBAL_TREES - |p.0.trees|)
    ensures ViewOf([p] + u, f) == ViewOf([p] + v, f)
  {
    SameBaseIff(p, u, v, f);
  }

  lemma HarmlessSuffices(s: seq<WeightedModel>, f: Sharer)
    requires s != [] && Descending(s) && TiesHarmless(s, f)
    ensures AnyOrderMerges(s, f)
  {
    forall t
      ensures MergesLike(s, t, f)
    {
      if t != [] && Descending(t) && multiset(t) == multiset(s) {
        HarmlessFor(s, t, f);
      }
    }
  }

  lemma HarmlessIsNeeded(s: seq<WeightedModel>, f: Sharer)
    requires s != [] && Descending(s) && AnyOrderMerges(s, f)
    ensures TiesHarmless(s, f)
  {
    forall k | 0 <= k < |s| && s[k].1 == s[0].1
      ensures HarmlessAsBase(s, k, f)
    {
      ViewIsForced(s, k, f);
      TiesAreForced(s, k, f);
    }
  }

  lemma ViewIsForced(s: seq<WeightedModel>, k: nat, f: Sharer)
    requires k < |s| && s[k].1 == s[0].1 && Descending(s) && AnyOrderMerges(s, f)
    ensures ViewOf(Front(s, k), f) == ViewOf(s, f)
  {
    FrontDescends(s, k);
    assert MergesLike(s, Front(s, k), f);
  }

  lemma TiesAreForced(s: seq<WeightedModel>, k: nat, f: Sharer)
    requires k < |s| && s[k].1 == s[0].1 && Descending(s) && AnyOrderMerges(s, f)
    ensures TiesCommute(Without(s, k), f, MAX_GLOBAL_TREES - |s[k].0.trees|)
  {
    var u, room := Without(s, k), MAX_GLOBAL_TREES - |s[k].0.trees|;
    forall v
      ensures CutsLike(u, v, f, room)
    {
      if Descending(v) && multiset(v) == multiset(u) {
        TailIsForced(s, k, u, v, f);
      }
    }
    WithoutDescends(s, k);
    CommutingIsNeeded(u, f, room);
  }

  lemma TailIsForced(s: seq<WeightedModel>, k: nat, u: seq<WeightedModel>, v: seq<WeightedModel>, f: Sharer)
    requires k < |s| && s[k].1 == s[0].1 && Descending(s) && AnyOrderMerges(s, f) && u == Without(s, k)
    requires Descending(v) && multiset(v) == multiset(u)
    ensures Cut(Shares(v, f), MAX_GLOBAL_TREES - |s[k].0.trees|) == Cut(Shares(u, f), MAX_GLOBAL_TREES - |s[k].0.trees|)
  {
    ViewsAgree(s, k, u, v, f);
    TailFromViews(s[k], v, u, f);
  }

  lemma TailFromViews(p: WeightedModel, u: seq<WeightedModel>, v: seq<WeightedModel>, f: Sharer)
    requires multiset(u) == multiset(v) && ViewOf([p] + u, f) == ViewOf([p] + v, f)
    ensures Cut(Shares(u, f), MAX_GLOBAL_TREES - |p.0.trees|) == Cut(Shares(v, f), MAX_GLOBAL_TREES - |p.0.trees|)
  {
    SameBaseIff(p, u, v, f);
  }

  lemma ViewsAgree(s: seq<WeightedModel>, k: nat, u: seq<WeightedModel>, v: seq<WeightedModel>, f: Sharer)
    requires k < |s| && s[k].1 == s[0].1 && Descending(s) && AnyOrderMerges(s, f) && u == Without(s, k)
    requires Descending(v) && multiset(v) == multiset(u)
    ensures ViewOf([s[k]] + v, f) == ViewOf([s[k]] + u, f)
  {
    ConsMergesAlike(s, k, v, f);
    ViewIsForced(s, k, f);
  }

  lemma ConsMergesAlike(s: seq<WeightedModel>, k: nat, v: seq<WeightedModel>, f: Sharer)
    requires k < |s| && s[k].1 == s[0].1 && Descending(s) && AnyOrderMerges(s, f)
    requires Descending(v) && multiset(v) == multiset(Without(s, k))
    ensures ViewOf([s[k]] + v, f) == ViewOf(s, f)
  {
    ConsDescends(s, k, v);
    assert MergesLike(s, [s[k]] + v, f);
  }

  lemma ConsDescends(s: seq<WeightedModel>, k: nat, v: seq<WeightedModel>)
    requires Descending(s) && k < |s| && s[k].1 == s[0].1
    requires Descending(v) && multiset(v) == multiset(Without(s, k))
    ensures Descending([s[k]] + v) && multiset([s[k]] + v) == multiset(s)
  {
    MultisetWithout(s, k);
    SamePermutationMembers(v, Without(s, k));
    forall i | 0 <= i < |v|
      ensures v[i].1 <= s[k].1
    {
      assert v[i] in Without(s, k);
    }
  }

  /** The sorted usable models of a permutation of the inputs are a descending order of the same models. */
  lemma SortedOfPermutation(inputs: seq<Contribution>, b: seq<Contribution>)
    requires multiset(b) == multiset(inputs)
    ensures var s, t := SortDescending(Usable(inputs)), SortDescending(Usable(b));
      && multiset(t) == multiset(s) && Descending(t) && |t| == |s| && Positive(t)
      && TotalWeight(Usable(b)) == TotalWeight(Usable(inputs)) && Schemas(Usable(b)) == Schemas(Usable(inputs))
  {
    UsableOfPermutation(b, inputs);
    SortIsStableDescending(Usable(b));
    SortKeepsMembers(Usable(b));
    SortKeepsMembers(Usable(inputs));
    SameLength(SortDescending(Usable(b)), SortDescending(Usable(inputs)));
    UsableIsPositive(b);
    SortKeepsPositive(Usable(b));
    TotalOfPermutation(Usable(b), Usable(inputs));
    SamePermutationMembers(Usable(b), Usable(inputs));
  }

  lemma TotalTakeOut(s: seq<WeightedModel>, k: nat)
    requires k < |s|
    ensures TotalWeight(s) == s[k].1 + TotalWeight(Without(s, k))
  {
    assert s == s[..k] + ([s[k]] + s[k + 1..]);
    TotalConcat(s[..k], [s[k]] + s[k + 1..]);
    TotalConcat(s[..k], s[k + 1..]);
    assert ([s[k]] + s[k + 1..])[1..] == s[k + 1..];
  }

  lemma {:induction false} TotalOfPermutation(s: seq<WeightedModel>, t: seq<WeightedModel>)
    requires multiset(s) == multiset(t)
    ensures TotalWeight(s) == TotalWeight(t)
    decreases |s|
  {
    SameLength(s, t);
    if s == [] {
      assert t == s;
    } else {
      var k := PermutationHas(s, t, 0);
      SameWithoutSame(s, 0, t, k);
      TotalOfPermutation(Without(s, 0), Without(t, k));
      TotalTakeOut(s, 0);
      TotalTakeOut(t, k);
    }
  }

  lemma {:induction false} TotalConcat(a: seq<WeightedModel>, b: seq<WeightedModel>)
    ensures TotalWeight(a + b) == TotalWeight(a) + TotalWeight(b)
  {
    if a == [] {
      assert a + b == b;
    } else {
      assert (a + b)[0] == a[0] && (a + b)[1..] == a[1..] + b;
      TotalConcat(a[1..], b);
    }
  }

  lemma MergeOfPermutationIff(inputs: seq<Contribution>, b: seq<Contribution>)
    requires multiset(b) == multiset(inputs) && Merge(inputs).Success?
    ensures Usable(inputs) != [] && TotalWeight(Usable(inputs)) > 0
    ensures var s, t := SortDescending(Usable(inputs)), SortDescending(Usable(b));
      var f := Sharing(TotalWeight(Usable(inputs)));
      s != [] && t != [] && (Merge(b) == Merge(inputs) <==> ViewOf(t, f) == ViewOf(s, f))
  {
    var s, t, total := SortDescending(Usable(inputs)), SortDescending(Usable(b)), TotalWeight(Usable(inputs));
    SortedOfPermutation(inputs, b);
    SortedOfPermutation(inputs, inputs);
    UsableIsPositive(inputs);
    TotalIsPositive(Usable(inputs));
    SortKeepsMembers(Usable(inputs));
    SortKeepsMembers(Usable(b));
    assert Merge(inputs) == Success(MergeSorted(s, total)) && Merge(b) == Success(MergeSorted(t, total));
    SameMergeIff(t, s, total);
  }

  /** A refusal never depends on the order. */
  lemma FailureIgnoresOrder(inputs: seq<Contribution>)
    requires Merge(inputs).Failure?
    ensures OrderIrrelevant(inputs)
  {
    forall b | multiset(b) == multiset(inputs)
      ensures Merge(b) == Merge(inputs)
    {
      SortedOfPermutation(inputs, b);
      SortKeepsMembers(Usable(inputs));
      SortKeepsMembers(Usable(b));
    }
  }

  /** A descending order is what sorting it gives. */
  lemma SortOfDescending(t: seq<WeightedModel>)
    requires Descending(t)
    ensures SortDescending(t) == t
  {
    SortIsStableDescending(t);
    StableOrderIsUnique(SortDescending(t), t);
  }

  /**
   Exactly when no permutation of the inputs changes the merge in any way: it is refused, or ties are
   harmless, which takes comparing pairs of equally weighted models rather than all orders.
   */
  lemma MergeIgnoresOrderIff(inputs: seq<Contribution>)
    ensures Merge(inputs).Success? ==> SortDescending(Usable(inputs)) != [] && TotalWeight(Usable(inputs)) > 0
    ensures OrderIrrelevant(inputs) <==>
      (Merge(inputs).Success? ==> TiesHarmless(SortDescending(Usable(inputs)), Sharing(TotalWeight(Usable(inputs)))))
  {
    if Merge(inputs).Failure? {
      FailureIgnoresOrder(inputs);
    } else {
      var s, f := SortDescending(Usable(inputs)), Sharing(TotalWeight(Usable(inputs)));
      MergeOfPermutationIff(inputs, inputs);
      SortedOfPermutation(inputs, inputs);
      OrdersAreArrivals(inputs);
      if TiesHarmless(s, f) {
        HarmlessSuffices(s, f);
      }
      if AnyOrderMerges(s, f) {
        HarmlessIsNeeded(s, f);
      }
    }
  }

  lemma OrdersAreArrivals(inputs: seq<Contribution>)
    requires Merge(inputs).Success?
    ensures SortDescending(Usable(inputs)) != [] && TotalWeight(Usable(inputs)) > 0
    ensures var s, f := SortDescending(Usable(inputs)), Sharing(TotalWeight(Usable(inputs)));
      OrderIrrelevant(inputs) <==> AnyOrderMerges(s, f)
  {
    var s, f := SortDescending(Usable(inputs)), Sharing(TotalWeight(Usable(inputs)));
    MergeOfPermutationIff(inputs, inputs);
    SortKeepsMembers(Usable(inputs));
    if OrderIrrelevant(inputs) {
      forall t
        ensures MergesLike(s, t, f)
      {
        if t != [] && Descending(t) && multiset(t) == multiset(s) {
          var b := AnyOrderArrives(inputs, t);
          SortOfDescending(t);
          MergeOfPermutationIff(inputs, b);
        }
      }
    }
    if AnyOrderMerges(s, f) {
      forall b | multiset(b) == multiset(inputs)
        ensures Merge(b) == Merge(inputs)
      {
        SortedOfPermutation(inputs, b);
        MergeOfPermutationIff(inputs, b);
        assert MergesLike(s, SortDescending(Usable(b)), f);
      }
    }
  }

  /** With one heaviest model there is nothing to compare but the shares of equally weighted others. */
  lemma OneHeaviestIff(inputs: seq<Contribution>, s: seq<WeightedModel>, f: Sharer)
    requires Merge(inputs).Success?
    requires s == SortDescending(Usable(inputs)) && f == Sharing(TotalWeight(Usable(inputs)))
    requires s != [] && OneHeaviest(s)
    ensures OrderIrrelevant(inputs) <==> TiesCommute(Without(s, 0), f, MAX_GLOBAL_TREES - |s[0].0.trees|)
  {
    assert OrderIrrelevant(inputs) <==> TiesHarmless(s, f) by {
      MergeIgnoresOrderIff(inputs);
    }
    HarmlessWithOneHeaviest(s, f);
  }

  ghost predicate OneHeaviest(s: seq<WeightedModel>)
    requires s != []
  {
    forall k | 0 < k < |s| :: s[k].1 < s[0].1
  }

  lemma HarmlessWithOneHeaviest(s: seq<WeightedModel>, f: Sharer)
    requires s != [] && OneHeaviest(s)
    ensures TiesHarmless(s, f) <==> TiesCommute(Without(s, 0), f, MAX_GLOBAL_TREES - |s[0].0.trees|)
  {
    OnlyHeadMatters(s, f);
    HeadAsBase(s, 0, f);
  }

  lemma OnlyHeadMatters(s: seq<WeightedModel>, f: Sharer)
    requires s != [] && OneHeaviest(s)
    ensures TiesHarmless(s, f) <==> HarmlessAsBase(s, 0, f)
  {
    if HarmlessAsBase(s, 0, f) {
      forall k | 0 <= k < |s| && s[k].1 == s[0].1
        ensures HarmlessAsBase(s, k, f)
      {
        assert k == 0;
      }
    }
  }

  lemma HeadAsBase(s: seq<WeightedModel>, k: nat, f: Sharer)
    requires s != [] && k == 0
    ensures HarmlessAsBase(s, k, f) <==> TiesCommute(Without(s, k), f, MAX_GLOBAL_TREES - |s[k].0.trees|)
  {
    HeadView(s, k, f);
  }

  lemma HeadView(s: seq<WeightedModel>, k: nat, f: Sharer)
    requires s != [] && k == 0
    ensures ViewOf(Front(s, k), f) == ViewOf(s, f)
  {
    assert Front(s, k) == s;
  }
}
