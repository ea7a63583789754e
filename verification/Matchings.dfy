/**
 Matching values of any kind into slots: `inc(s, w)` says slot `s` can take `w`. Slots are a sequence,
 as equal ones count apart; what is matched is a set.
 */
module Matchings {
  import B = Bipartite

  ghost predicate IsMatching<S, W>(inc: (S, W) -> bool, slots: seq<S>, ws: set<W>, m: map<W, int>) {
    && m.Keys == ws
    && (forall w {:trigger m[w]} :: w in ws ==> 0 <= m[w] < |slots| && inc(slots[m[w]], w))
    && (forall v, w {:trigger m[v], m[w]} :: v in ws && w in ws && m[v] == m[w] ==> v == w)
  }

  /** All of `ws` can be matched into `slots` at once, no two of them to the same slot. */
  ghost predicate Matchable<S, W(!new)>(inc: (S, W) -> bool, slots: seq<S>, ws: set<W>) {
    exists m: map<W, int> :: IsMatching(inc, slots, ws, m)
  }

  // ------------------------------------------------------------------------------------------
  // Between candidate indices, which a search works on, and the candidates
  // ------------------------------------------------------------------------------------------

  /** Which slots each candidate can use. */
  ghost function Graph<S, W>(inc: (S, W) -> bool, slots: seq<S>, cands: seq<W>): (g: B.Graph)
    ensures |g| == |cands|
    ensures forall c, s {:trigger s in g[c]} ::
              0 <= c < |g| ==> (s in g[c] <==> 0 <= s < |slots| && inc(slots[s], cands[c]))
  {
    seq(|cands|, c requires 0 <= c < |cands| => set s | 0 <= s < |slots| && inc(slots[s], cands[c]))
  }

  ghost function Picked<W>(cands: seq<W>, d: set<int>): set<W> {
    set c | c in d && 0 <= c < |cands| :: cands[c]
  }

  ghost function IndexOf<T>(xs: seq<T>, x: T): (i: int)
    requires x in xs
    ensures 0 <= i < |xs| && xs[i] == x
  {
    var i :| 0 <= i < |xs| && xs[i] == x;
    i
  }

  predicate Within(xs: seq<int>, n: nat) {
    forall i :: 0 <= i < |xs| ==> 0 <= xs[i] < n
  }

  /** The slots with these indices, as a sequence of their own. */
  function Pick<S>(slots: seq<S>, kept: seq<int>): (r: seq<S>)
    requires Within(kept, |slots|)
    ensures |r| == |kept| && forall i {:trigger r[i]} :: 0 <= i < |r| ==> r[i] == slots[kept[i]]
  {
    seq(|kept|, i requires 0 <= i < |kept| => slots[kept[i]])
  }

  /** The candidate index of each picked value. */
  ghost function Places<W>(cands: seq<W>, d: set<int>): (at: map<W, int>)
    ensures at.Keys == Picked(cands, d)
    ensures forall w {:trigger at[w]} :: w in at ==> 0 <= at[w] < |cands| && at[w] in d && cands[at[w]] == w
  {
    map w | w in Picked(cands, d) :: var c :| c in d && 0 <= c < |cands| && cands[c] == w; c
  }

  /** A matching of the candidates into kept slots matches the values into those slots. */
  lemma IndicesToValues<S, W(!new)>(inc: (S, W) -> bool, slots: seq<S>, cands: seq<W>, d: set<int>, m: seq<int>,
                                    kept: seq<int>)
    requires B.IsMatching(Graph(inc, slots, cands), d, m)
    requires Within(kept, |slots|)
    requires forall c {:trigger m[c]} :: 0 <= c < |m| && c in d ==> m[c] in kept
    ensures Matchable(inc, Pick(slots, kept), Picked(cands, d))
  {
    var at := Places(cands, d);
    var n := map w | w in at :: IndexOf(kept, m[at[w]]);
    var picked := Pick(slots, kept);
    forall w | w in n
      ensures 0 <= n[w] < |kept| && inc(picked[n[w]], w)
    {
      assert m[at[w]] in Graph(inc, slots, cands)[at[w]];
    }
    assert IsMatching(inc, picked, Picked(cands, d), n);
  }

  /** And back, when no candidate is listed twice. */
  lemma ValuesToIndices<S, W(!new)>(inc: (S, W) -> bool, slots: seq<S>, cands: seq<W>, d: set<int>, kept: seq<int>)
    returns (m: seq<int>)
    requires B.NoDup(cands) && B.NoDup(kept) && Within(kept, |slots|)
    requires Matchable(inc, Pick(slots, kept), Picked(cands, d))
    ensures B.IsMatching(Graph(inc, slots, cands), d, m)
    ensures forall c {:trigger m[c]} :: 0 <= c < |m| && c in d ==> m[c] in kept
  {
    var n :| IsMatching(inc, Pick(slots, kept), Picked(cands, d), n);
    forall c | 0 <= c < |cands| && c in d
      ensures cands[c] in n && 0 <= n[cands[c]] < |kept|
    {
      assert cands[c] in Picked(cands, d);
    }
    m := seq(|cands|, c requires 0 <= c < |cands| => if c in d then kept[n[cands[c]]] else 0);
    forall b, c | 0 <= b < |cands| && 0 <= c < |cands| && b in d && c in d && m[b] == m[c]
      ensures b == c
    {
      assert n[cands[b]] == n[cands[c]];
    }
  }

  // ------------------------------------------------------------------------------------------
  // The laws of matchability
  // ------------------------------------------------------------------------------------------

  lemma RemoveAt<T>(b: seq<T>, j: int) returns (r: seq<T>)
    requires 0 <= j < |b|
    ensures multiset(r) == multiset(b) - multiset{b[j]}
    ensures |r| == |b| - 1
    ensures forall i {:trigger r[i]} :: 0 <= i < |r| ==> r[i] == b[if i < j then i else i + 1]
  {
    r := b[..j] + b[j + 1..];
    Dropped(b, j);
  }

  lemma Dropped<T>(b: seq<T>, j: int)
    requires 0 <= j < |b|
    ensures multiset(b[..j] + b[j + 1..]) == multiset(b) - multiset{b[j]}
  {
    assert b == b[..j] + [b[j]] + b[j + 1..];
  }

  /** `j`, then the indices `g` moved past `j`. */
  function Shifted(g: seq<int>, j: int): (f: seq<int>)
    ensures |f| == |g| + 1
    ensures forall i {:trigger f[i]} :: 0 <= i < |f| ==>
              f[i] == if i == 0 then j else if g[i - 1] < j then g[i - 1] else g[i - 1] + 1
  {
    [j] + seq(|g|, i requires 0 <= i < |g| => if g[i] < j then g[i] else g[i] + 1)
  }

  lemma ShiftedFresh(g: seq<int>, j: int)
    requires B.NoDup(g)
    ensures B.NoDup(Shifted(g, j))
  {
  }

  /** A sequence whose elements occur in another can be embedded in it. */
  lemma {:induction false} Embed<T>(a: seq<T>, b: seq<T>) returns (f: seq<int>)
    requires multiset(a) <= multiset(b)
    ensures |f| == |a| && B.NoDup(f) && Within(f, |b|)
    ensures forall i {:trigger f[i]} :: 0 <= i < |a| ==> b[f[i]] == a[i]
    decreases |a|
  {
    if a == [] {
      f := [];
    } else {
      assert a[0] in multiset(a);
      var j := IndexOf(b, a[0]);
      var a' := RemoveAt(a, 0);
      var b' := RemoveAt(b, j);
      var g := Embed(a', b');
      f := Shifted(g, j);
      ShiftedFresh(g, j);
      forall i | 0 <= i < |a|
        ensures 0 <= f[i] < |b| && b[f[i]] == a[i]
      {
        if i > 0 {
          assert b'[g[i - 1]] == a'[i - 1];
        }
      }
    }
  }

  /** Only how many slots of each kind there are matters, and more of them never hurt. */
  lemma MoreSlots<S, W(!new)>(inc: (S, W) -> bool, a: seq<S>, b: seq<S>, ws: set<W>)
    requires multiset(a) <= multiset(b) && Matchable(inc, a, ws)
    ensures Matchable(inc, b, ws)
  {
    var m :| IsMatching(inc, a, ws, m);
    var f := Embed(a, b);
    var n := map w | w in ws :: f[m[w]];
    assert IsMatching(inc, b, ws, n);
  }

  lemma NothingToMatch<S, W(!new)>(inc: (S, W) -> bool, slots: seq<S>)
    ensures Matchable(inc, slots, {})
  {
    var m: map<W, int> := map[];
    assert IsMatching(inc, slots, {}, m);
  }

  /** No more are matched than there are slots. */
  lemma MatchableBound<S, W(!new)>(inc: (S, W) -> bool, slots: seq<S>, ws: set<W>)
    requires Matchable(inc, slots, ws)
    ensures |ws| <= |slots|
  {
    var m :| IsMatching(inc, slots, ws, m);
    B.InjectionBound(m, B.UpTo(|slots|));
    B.UpToSize(|slots|);
  }

  /** What is matched is reached by some slot. */
  lemma Reached<S, W(!new)>(inc: (S, W) -> bool, slots: seq<S>, ws: set<W>, w: W) returns (i: int)
    requires w in ws && Matchable(inc, slots, ws)
    ensures 0 <= i < |slots| && inc(slots[i], w)
  {
    var m :| IsMatching(inc, slots, ws, m);
    i := m[w];
  }

  /** Matchability only sees which slots take a value: one that fits wherever `w` does can stand in for it. */
  lemma Renamed<S, W(!new)>(inc: (S, W) -> bool, slots: seq<S>, c: set<W>, w: W, w': W)
    requires w !in c && w' !in c && Matchable(inc, slots, c + {w})
    requires forall i :: 0 <= i < |slots| && inc(slots[i], w) ==> inc(slots[i], w')
    ensures Matchable(inc, slots, c + {w'})
  {
    var m :| IsMatching(inc, slots, c + {w}, m);
    var n := map v | v in c + {w'} :: if v in c then m[v] else m[w];
    forall v {:trigger n[v]} | v in c + {w'}
      ensures 0 <= n[v] < |slots| && inc(slots[n[v]], v) && (v == w' ==> n[v] == m[w]) && (v in c ==> n[v] == m[v])
    {
      assert v in c ==> n[v] == m[v];
      assert v !in c ==> n[v] == m[w];
    }
    assert IsMatching(inc, slots, c + {w'}, n);
  }

  // ------------------------------------------------------------------------------------------
  // Equal slots
  // ------------------------------------------------------------------------------------------

  function Copies<S>(slot: S, n: nat): (r: seq<S>)
    ensures |r| == n && forall i :: 0 <= i < n ==> r[i] == slot
  {
    seq(n, _ => slot)
  }

  /** `s` is `a` followed by `n` slots equal to `slot`. */
  ghost predicate Extends<S>(s: seq<S>, a: seq<S>, slot: S, n: nat) {
    && |s| == |a| + n
    && (forall i :: 0 <= i < |a| ==> s[i] == a[i])
    && (forall i :: |a| <= i < |s| ==> s[i] == slot)
  }

  /** What a matching puts in the added slots fits them, and the rest needs only the others. */
  lemma SplitAdded<S, W(!new)>(inc: (S, W) -> bool, s: seq<S>, a: seq<S>, slot: S, n: nat, ws: set<W>)
    returns (x: set<W>)
    requires Extends(s, a, slot, n) && Matchable(inc, s, ws)
    ensures x <= ws && |x| <= n && Matchable(inc, a, ws - x)
    ensures forall w :: w in x ==> inc(slot, w)
  {
    var m :| IsMatching(inc, s, ws, m);
    x := set w | w in ws && m[w] >= |a|;
    var p := map w | w in ws - x :: m[w];
    assert IsMatching(inc, a, ws - x, p);
    var q := map w | w in x :: m[w] - |a|;
    assert q.Keys == x;
    B.InjectionBound(q, B.UpTo(n));
    B.UpToSize(n);
  }

  lemma JoinAdded<S, W(!new)>(inc: (S, W) -> bool, s: seq<S>, a: seq<S>, slot: S, n: nat, v: set<W>, x: set<W>)
    requires Extends(s, a, slot, n) && Matchable(inc, a, v) && v !! x
    requires |x| <= n && forall w :: w in x ==> inc(slot, w)
    ensures Matchable(inc, s, v + x)
  {
    var p :| IsMatching(inc, a, v, p);
    var q := Enumerate(x);
    var m := JoinMaps(p, q, |a|);
    forall w {:trigger m[w]} | w in v + x
      ensures 0 <= m[w] < |s| && inc(s[m[w]], w)
    {
      if w in v {
        assert m[w] == p[w];
      } else {
        assert m[w] == |a| + q[w];
      }
    }
    assert IsMatching(inc, s, v + x, m);
  }

  lemma JoinMaps<W>(p: map<W, int>, q: map<W, int>, k: int) returns (m: map<W, int>)
    requires B.Injective(p) && B.Injective(q) && p.Keys !! q.Keys
    requires forall w {:trigger p[w]} :: w in p ==> p[w] < k
    requires forall w {:trigger q[w]} :: w in q ==> 0 <= q[w]
    ensures m.Keys == p.Keys + q.Keys && B.Injective(m)
    ensures forall w {:trigger m[w]} :: w in p ==> m[w] == p[w]
    ensures forall w {:trigger m[w]} :: w in q ==> m[w] == k + q[w]
  {
    m := map w | w in p.Keys + q.Keys :: if w in p then p[w] else k + q[w];
  }

  /** Equal slots take exactly what fits one of them, up to their number. */
  lemma MatchCopies<S, W(!new)>(inc: (S, W) -> bool, slot: S, n: nat, ws: set<W>)
    ensures Matchable(inc, Copies(slot, n), ws) <==> |ws| <= n && forall w :: w in ws ==> inc(slot, w)
  {
    if Matchable(inc, Copies(slot, n), ws) {
      var x := SplitAdded(inc, Copies(slot, n), [], slot, n, ws);
      MatchableBound<S, W>(inc, [], ws - x);
      assert x == ws;
    }
    if |ws| <= n && forall w :: w in ws ==> inc(slot, w) {
      NothingToMatch<S, W>(inc, []);
      JoinAdded(inc, Copies(slot, n), [], slot, n, {}, ws);
      assert {} + ws == ws;
    }
  }

  lemma {:induction false} Enumerate<T>(s: set<T>) returns (m: map<T, int>)
    ensures m.Keys == s && B.Injective(m) && forall x {:trigger m[x]} :: x in s ==> 0 <= m[x] < |s|
    decreases |s|
  {
    if s == {} {
      m := map[];
    } else {
      var x :| x in s;
      var n := Enumerate(s - {x});
      m := n[x := |s| - 1];
    }
  }
}
