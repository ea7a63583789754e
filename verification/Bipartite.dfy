/**
 Matching in a bipartite graph of slots and candidates, as an augmenting-path search needs it.

 A graph is given by its adjacency: `g[c]` is the set of slots candidate `c` can use. The search keeps
 a partial matching as an assignment, from each slot to the candidate it is given to.
 */
module Bipartite {
  import opened Options

  type Graph = seq<set<int>>
  type Assignment = seq<Option<int>>

  function UpTo(n: nat): (r: set<int>)
    ensures forall i :: i in r <==> 0 <= i < n
  {
    if n == 0 then {} else UpTo(n - 1) + {n - 1}
  }

  predicate NoDup<T(==)>(xs: seq<T>) {
    forall i, j :: 0 <= i < j < |xs| ==> xs[i] != xs[j]
  }

  /** `m` gives every candidate in `d` a slot it can use, no two the same. */
  ghost predicate IsMatching(g: Graph, d: set<int>, m: seq<int>) {
    && |m| == |g|
    && (forall c {:trigger m[c]} :: 0 <= c < |g| && c in d ==> m[c] in g[c])
    && (forall b, c {:trigger m[b], m[c]} ::
          0 <= b < |g| && 0 <= c < |g| && b in d && c in d && m[b] == m[c] ==> b == c)
  }

  /** The candidates in `d` can all be given slots at once. */
  ghost predicate Matchable(g: Graph, d: set<int>)
    requires d <= UpTo(|g|)
  {
    exists m: seq<int> :: IsMatching(g, d, m)
  }

  predicate ValidAssignment(g: Graph, a: Assignment) {
    && (forall s :: 0 <= s < |a| && a[s].Some? ==> 0 <= a[s].value < |g| && s in g[a[s].value])
    && (forall s, t :: 0 <= s < |a| && 0 <= t < |a| && a[s].Some? && a[s] == a[t] ==> s == t)
  }

  function Matched(a: Assignment): set<int> {
    set s | 0 <= s < |a| && a[s].Some? :: a[s].value
  }

  predicate GivenWithin(a: Assignment, u: set<int>, s: int) {
    0 <= s < |a| && a[s].Some? && a[s].value in u
  }

  /** Every slot a member of `u` could use is given to a member of `u`: no alternating path leaves
      `u`. */
  ghost predicate Closed(g: Graph, a: Assignment, u: set<int>) {
    && u <= UpTo(|g|)
    && (forall c, s {:trigger s in g[c]} :: 0 <= c < |g| && c in u && s in g[c] ==> GivenWithin(a, u, s))
  }

  ghost function SlotOf(a: Assignment, c: int): (s: int)
    requires c in Matched(a)
    ensures 0 <= s < |a| && a[s] == Some(c)
  {
    var s :| 0 <= s < |a| && a[s] == Some(c);
    s
  }

  // ------------------------------------------------------------------------------------------
  // Counting
  // ------------------------------------------------------------------------------------------

  predicate Injective<A, B(==)>(m: map<A, B>) {
    forall x, y {:trigger m[x], m[y]} :: x in m && y in m && m[x] == m[y] ==> x == y
  }

  lemma {:induction false} InjectionBound<A, B>(f: map<A, B>, b: set<B>)
    requires Injective(f) && forall x {:trigger f[x]} :: x in f ==> f[x] in b
    ensures |f.Keys| <= |b|
    decreases |f.Keys|
  {
    if f.Keys == {} {
    } else {
      var x :| x in f.Keys;
      var g := map y | y in f && y != x :: f[y];
      assert g.Keys == f.Keys - {x};
      InjectionBound(g, b - {f[x]});
    }
  }

  lemma {:induction false} UpToSize(n: nat)
    ensures |UpTo(n)| == n
  {
    if n > 0 {
      UpToSize(n - 1);
    }
  }

  lemma SubsetSize<T>(a: set<T>, b: set<T>)
    requires a <= b
    ensures |a| <= |b|
  {
    assert b == a + (b - a);
  }

  lemma SmallerSubset<T>(a: set<T>, b: set<T>, x: T)
    requires a <= b && x in b && x !in a
    ensures |a| < |b|
  {
    SubsetSize(a, b - {x});
  }

  // ------------------------------------------------------------------------------------------
  // Closed sets
  // ------------------------------------------------------------------------------------------

  lemma ClosedUnion(g: Graph, a: Assignment, u: set<int>, v: set<int>)
    requires Closed(g, a, u) && Closed(g, a, v)
    ensures Closed(g, a, u + v)
  {
    forall c, s | 0 <= c < |g| && c in u + v && s in g[c]
      ensures GivenWithin(a, u + v, s)
    {
      assert GivenWithin(a, u, s) || GivenWithin(a, v, s);
    }
  }

  /** The slots given to members of `u`. */
  function Given(a: Assignment, u: set<int>): set<int> {
    set s | 0 <= s < |a| && GivenWithin(a, u, s)
  }

  /** There are as many of those as `u` has matched members. */
  lemma GivenSize(g: Graph, a: Assignment, u: set<int>)
    requires ValidAssignment(g, a)
    ensures |Given(a, u)| == |u * Matched(a)|
  {
    var there := map s | s in Given(a, u) :: a[s].value;
    InjectionBound(there, u * Matched(a));
    var back := map c | c in u * Matched(a) :: SlotOf(a, c);
    InjectionBound(back, Given(a, u));
    assert there.Keys == Given(a, u) && back.Keys == u * Matched(a);
  }

  /** No more candidates share those slots than there are. */
  lemma GivenBound(g: Graph, a: Assignment, u: set<int>, d: set<int>, m: seq<int>, v: set<int>)
    requires IsMatching(g, d, m) && v <= d <= UpTo(|g|)
    requires forall c {:trigger m[c]} :: c in v ==> m[c] in Given(a, u)
    ensures |v| <= |Given(a, u)|
  {
    var f := map c | c in v :: m[c];
    assert f.Keys == v;
    InjectionBound(f, Given(a, u));
  }

  lemma ClosedUsesGiven(g: Graph, a: Assignment, u: set<int>, d: set<int>, m: seq<int>)
    requires Closed(g, a, u) && IsMatching(g, d, m) && u <= d
    ensures forall c {:trigger m[c]} :: c in u ==> m[c] in Given(a, u)
  {
    forall c | c in u
      ensures m[c] in Given(a, u)
    {
      assert m[c] in g[c];
      assert GivenWithin(a, u, m[c]);
    }
  }

  /** Hall's condition fails on a closed set with an unmatched member: no matching at all covers
      candidates that include it. */
  lemma ClosedBlocks(g: Graph, a: Assignment, u: set<int>, c: int, d: set<int>)
    requires ValidAssignment(g, a) && Closed(g, a, u)
    requires c in u && c !in Matched(a) && u <= d <= UpTo(|g|)
    ensures !Matchable(g, d)
  {
    if Matchable(g, d) {
      var m :| IsMatching(g, d, m);
      ClosedUsesGiven(g, a, u, d, m);
      GivenBound(g, a, u, d, m, u);
      GivenSize(g, a, u);
      SmallerSubset(u * Matched(a), u, c);
      assert false;
    }
  }

  /** An assignment is itself a matching of what it matches. */
  lemma AssignmentMatches(g: Graph, a: Assignment, d: set<int>)
    requires ValidAssignment(g, a) && d <= Matched(a)
    ensures d <= UpTo(|g|) && Matchable(g, d)
  {
    var m := seq(|g|, c requires 0 <= c < |g| => if c in Matched(a) then SlotOf(a, c) else 0);
    assert IsMatching(g, d, m);
  }

  /** A tight closed set (all of it matched) takes up every slot it can use in any matching that
      covers it, so the other candidates never hold one of those. */
  lemma TightSetOwnsItsSlots(g: Graph, a: Assignment, f: set<int>, d: set<int>, m: seq<int>, c: int)
    requires ValidAssignment(g, a) && Closed(g, a, f) && f <= Matched(a)
    requires IsMatching(g, d, m) && f <= d <= UpTo(|g|) && c in d && c !in f
    ensures !GivenWithin(a, f, m[c])
  {
    if GivenWithin(a, f, m[c]) {
      assert f * Matched(a) == f;
      GivenSize(g, a, f);
      ClosedUsesGiven(g, a, f, d, m);
      GivenBound(g, a, f, d, m, f + {c});
      assert false;
    }
  }

  /** The slots pruning keeps: those given to a candidate outside the forced set. */
  predicate Kept(a: Assignment, f: set<int>, s: int) {
    0 <= s < |a| && a[s].Some? && a[s].value !in f
  }

  ghost predicate IsKeptMatching(g: Graph, a: Assignment, f: set<int>, d: set<int>, k: seq<int>)
    requires d <= UpTo(|g|)
  {
    IsMatching(g, d, k) && forall c {:trigger k[c]} :: c in d ==> Kept(a, f, k[c])
  }

  /**
   Pruning loses nothing. Given an assignment in which every unmatched candidate lies in a closed
   set `u`, and a closed set `f` of forced candidates, candidates that contain `f` and can be
   matched leave the rest a matching into the slots given outside `f`.
   */
  lemma KeptSlotsSuffice(g: Graph, a: Assignment, u: set<int>, f: set<int>, d: set<int>) returns (k: seq<int>)
    requires ValidAssignment(g, a)
    requires Closed(g, a, u) && UpTo(|g|) - Matched(a) <= u
    requires Closed(g, a, f) && f <= Matched(a) && f <= d <= UpTo(|g|) && Matchable(g, d)
    ensures IsKeptMatching(g, a, f, d - f, k)
  {
    var m :| IsMatching(g, d, m);
    k := seq(|g|, c requires 0 <= c < |g| => if c in u then m[c] else SlotOf(a, c));
    forall c | c in d - f
      ensures Kept(a, f, k[c]) && k[c] in g[c] && (c in u ==> GivenWithin(a, u, k[c]))
    {
      if c in u {
        TightSetOwnsItsSlots(g, a, f, d, m, c);
        assert m[c] in g[c];
      }
    }
    forall b, c | b in d - f && c in d - f && k[b] == k[c]
      ensures b == c
    {
      assert b in u <==> c in u;
    }
  }

  /** The other half of pruning: forced candidates keep the slots they were given. */
  lemma ForcedReturn(g: Graph, a: Assignment, f: set<int>, d: set<int>, k: seq<int>)
    requires ValidAssignment(g, a) && f <= Matched(a) && f <= d <= UpTo(|g|)
    requires IsKeptMatching(g, a, f, d - f, k)
    ensures Matchable(g, d)
  {
    var m := seq(|g|, c requires 0 <= c < |g| => if c in f then SlotOf(a, c) else k[c]);
    assert IsMatching(g, d, m);
  }
}
