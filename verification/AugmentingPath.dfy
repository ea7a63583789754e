/**
 The searches of the release matcher: Kuhn's augmenting path, and whether a fulfilled receipt can still
 move to another slot.
 */
module AugmentingPath {
  import opened Options
  import opened WakeMatching
  import B = Bipartite

  /** Who a visited candidate was reached from, and over which slot. */
  type Parents = seq<Option<(int, int)>>

  /** The visited candidates (`rank >= 0`) form a tree rooted at `root`: each other one is given, in
      `a`, the slot its parent wants. */
  ghost predicate Tree(g: B.Graph, a: B.Assignment, root: int, parents: Parents, rank: seq<int>) {
    && |parents| == |rank| == |g|
    && 0 <= root < |g| && rank[root] >= 0 && parents[root].None?
    && (forall x {:trigger parents[x]} :: 0 <= x < |g| && (rank[x] < 0 || x == root) ==> parents[x].None?)
    && (forall x {:trigger parents[x]} :: 0 <= x < |g| && rank[x] >= 0 && x != root ==>
          parents[x].Some? && Hangs(g, a, rank, x, parents[x].value.0, parents[x].value.1))
  }

  ghost predicate Hangs(g: B.Graph, a: B.Assignment, rank: seq<int>, x: int, p: int, s: int)
    requires |rank| == |g| && 0 <= x < |g|
  {
    0 <= p < |g| && 0 <= rank[p] < rank[x] && 0 <= s < |a| && s in g[p] && a[s] == Some(x)
  }

  /** Part-way back along the tree, with `cur` the last candidate moved, to slot `at`: `b` is `a` but
      for slots given to `cur` and candidates below it, and only `cur` may still hold its old slot
      as well as its new one. */
  ghost predicate Flipping(g: B.Graph, a: B.Assignment, b: B.Assignment, parents: Parents, rank: seq<int>, cur: int,
                           at: int)
  {
    && |parents| == |rank| == |g| && |a| == |b| && 0 <= cur < |g|
    && Moved(g, a, b, rank, cur)
    && Holds(b, parents, cur, at)
    && B.Matched(b) == B.Matched(a) + {cur}
  }

  ghost predicate Moved(g: B.Graph, a: B.Assignment, b: B.Assignment, rank: seq<int>, cur: int)
    requires |rank| == |g| && |a| == |b| && 0 <= cur < |g|
  {
    && (forall s {:trigger b[s]} :: 0 <= s < |b| && b[s].Some? ==> 0 <= b[s].value < |g| && s in g[b[s].value])
    && (forall s {:trigger a[s]} :: 0 <= s < |a| && b[s] != a[s] ==>
          b[s].Some? && rank[b[s].value] >= rank[cur] && Below(a, rank, cur, s))
  }

  ghost predicate Holds(b: B.Assignment, parents: Parents, cur: int, at: int) {
    && (forall s, t {:trigger b[s], b[t]} :: 0 <= s < t < |b| && b[s].Some? && b[s] == b[t] ==> b[s].value == cur)
    && (forall s {:trigger b[s]} :: 0 <= s < |b| && b[s] == Some(cur) ==> s == at || OldSlot(parents, cur, s))
    && 0 <= at < |b| && b[at] == Some(cur) && !OldSlot(parents, cur, at)
  }

  ghost predicate Below(a: B.Assignment, rank: seq<int>, cur: int, s: int)
    requires 0 <= s < |a| && 0 <= cur < |rank|
  {
    a[s].None? || (0 <= a[s].value < |rank| && rank[a[s].value] > rank[cur])
  }

  predicate OldSlot(parents: Parents, cur: int, s: int) {
    0 <= cur < |parents| && parents[cur].Some? && parents[cur].value.1 == s
  }

  /** No closed set notices the flip: the path it follows lies outside all of them. */
  ghost predicate Unnoticed(g: B.Graph, a: B.Assignment, b: B.Assignment, cur: int) {
    && |a| == |b|
    && forall u {:trigger B.Closed(g, a, u)} :: B.Closed(g, a, u) ==>
         cur !in u && forall s :: 0 <= s < |a| && b[s] != a[s] ==> a[s].None? || a[s].value !in u
  }

  lemma MatchedUpdate(a: B.Assignment, s: int, c: int)
    requires 0 <= s < |a|
    ensures B.Matched(a) <= B.Matched(a[s := Some(c)]) + (if a[s].Some? then {a[s].value} else {})
    ensures c in B.Matched(a[s := Some(c)])
    ensures B.Matched(a[s := Some(c)]) <= B.Matched(a) + {c}
  {
    var b := a[s := Some(c)];
    assert b[s] == Some(c);
    forall x | x in B.Matched(a)
      ensures x in B.Matched(b) || a[s] == Some(x)
    {
      var t := B.SlotOf(a, x);
      assert b[t] == if t == s then Some(c) else a[t];
    }
  }

  lemma FlipStarts(g: B.Graph, a: B.Assignment, root: int, parents: Parents, rank: seq<int>, cur: int, slot: int)
    requires B.ValidAssignment(g, a) && root !in B.Matched(a) && Tree(g, a, root, parents, rank)
    requires 0 <= cur < |g| && rank[cur] >= 0 && 0 <= slot < |a| && a[slot].None? && slot in g[cur]
    ensures Flipping(g, a, a[slot := Some(cur)], parents, rank, cur, slot)
    ensures Unnoticed(g, a, a[slot := Some(cur)], cur)
  {
  }

  lemma HoldsAdvances(g: B.Graph, a: B.Assignment, b: B.Assignment, root: int, parents: Parents, rank: seq<int>,
                      cur: int, at: int, p: int, s: int)
    requires B.ValidAssignment(g, a) && root !in B.Matched(a) && Tree(g, a, root, parents, rank)
    requires Flipping(g, a, b, parents, rank, cur, at)
    requires parents[cur] == Some((p, s)) && Hangs(g, a, rank, cur, p, s)
    ensures Holds(b[s := Some(p)], parents, p, s)
  {
    assert p != root ==> Hangs(g, a, rank, p, parents[p].value.0, parents[p].value.1);
    var c := b[s := Some(p)];
    forall t | 0 <= t < |c| && c[t] == Some(p)
      ensures t == s || OldSlot(parents, p, t)
    {
      if t != s {
        assert a[t] == Some(p) && p in B.Matched(a);
      }
    }
    forall t, r | 0 <= t < r < |c| && c[t].Some? && c[t] == c[r]
      ensures c[t].value == p
    {
    }
  }

  lemma FlipAdvances(g: B.Graph, a: B.Assignment, b: B.Assignment, root: int, parents: Parents, rank: seq<int>,
                     cur: int, at: int, p: int, s: int)
    requires B.ValidAssignment(g, a) && root !in B.Matched(a) && Tree(g, a, root, parents, rank)
    requires Flipping(g, a, b, parents, rank, cur, at)
    requires rank[cur] >= 0 && parents[cur] == Some((p, s))
    ensures Hangs(g, a, rank, cur, p, s) && Flipping(g, a, b[s := Some(p)], parents, rank, p, s)
  {
    assert Hangs(g, a, rank, cur, p, s);
    HoldsAdvances(g, a, b, root, parents, rank, cur, at, p, s);
    var c := b[s := Some(p)];
    assert b[s] == a[s] && c[at] == Some(cur);
    MatchedUpdate(b, s, p);
    assert cur in B.Matched(a) && cur in B.Matched(c);
    assert Moved(g, a, c, rank, p);
  }

  lemma UnnoticedAdvances(g: B.Graph, a: B.Assignment, b: B.Assignment, rank: seq<int>, cur: int, p: int, s: int)
    requires |rank| == |g| && 0 <= cur < |g| && Hangs(g, a, rank, cur, p, s) && Unnoticed(g, a, b, cur)
    ensures Unnoticed(g, a, b[s := Some(p)], p)
  {
  }

  lemma FlipEnds(g: B.Graph, a: B.Assignment, b: B.Assignment, parents: Parents, rank: seq<int>, root: int, at: int)
    requires Flipping(g, a, b, parents, rank, root, at) && parents[root].None?
    ensures B.ValidAssignment(g, b)
  {
  }

  lemma UnnoticedStaysClosed(g: B.Graph, a: B.Assignment, b: B.Assignment, cur: int, u: set<int>)
    requires Unnoticed(g, a, b, cur) && B.Closed(g, a, u)
    ensures B.Closed(g, b, u)
  {
  }

  /** Gives `slot`, which is free, to `current`, and each slot on the way back to the root to the
      parent that wanted it. */
  method Flip(ghost g: B.Graph, ghost root: int, current: int, slot: int, parents: Parents, ghost rank: seq<int>,
              given: array<Option<int>>)
    requires B.ValidAssignment(g, given[..]) && root !in B.Matched(given[..])
    requires Tree(g, given[..], root, parents, rank)
    requires 0 <= current < |g| && rank[current] >= 0
    requires 0 <= slot < given.Length && given[slot].None? && slot in g[current]
    modifies given
    ensures B.ValidAssignment(g, given[..])
    ensures B.Matched(given[..]) == B.Matched(old(given[..])) + {root}
    ensures forall u :: B.Closed(g, old(given[..]), u) ==> B.Closed(g, given[..], u)
  {
    ghost var a, at := given[..], slot;
    FlipStarts(g, a, root, parents, rank, current, slot);
    given[slot] := Some(current);
    assert given[..] == a[slot := Some(current)];
    var cur := current;
    while parents[cur].Some?
      invariant Flipping(g, a, given[..], parents, rank, cur, at) && rank[cur] >= 0
      invariant Unnoticed(g, a, given[..], cur)
      decreases rank[cur]
    {
      var (previous, slot) := parents[cur].value;
      FlipAdvances(g, a, given[..], root, parents, rank, cur, at, previous, slot);
      UnnoticedAdvances(g, a, given[..], rank, cur, previous, slot);
      ghost var b := given[..];
      given[slot] := Some(previous);
      assert given[..] == b[slot := Some(previous)];
      cur, at := previous, slot;
    }
    FlipEnds(g, a, given[..], parents, rank, cur, at);
    forall u | B.Closed(g, a, u)
      ensures B.Closed(g, given[..], u)
    {
      UnnoticedStaysClosed(g, a, given[..], cur, u);
    }
  }

  // ------------------------------------------------------------------------------------------
  // The frontier of a search
  // ------------------------------------------------------------------------------------------

  /** Every slot a visited candidate wants has been seen, unless the candidate is still pending or is
      `current`, whose slots before `k` have been looked at; every slot seen is given to a visited
      candidate. */
  ghost predicate Explored(g: B.Graph, a: B.Assignment, visited: set<int>, seen: seq<bool>, pending: seq<int>,
                           current: int, k: int)
  {
    && |seen| == |a|
    && visited <= B.UpTo(|g|)
    && (forall c :: c in pending ==> c in visited)
    && (forall s {:trigger seen[s]} :: 0 <= s < |seen| && seen[s] ==> B.GivenWithin(a, visited, s))
    && (forall c, s {:trigger s in g[c]} :: 0 <= c < |g| && c in visited && s in g[c] ==>
          0 <= s < |a| && (seen[s] || c in pending || (c == current && k <= s)))
  }

  function Unseen(seen: seq<bool>): set<int> {
    set s | 0 <= s < |seen| && !seen[s]
  }

  lemma MarkSeen(seen: seq<bool>, s: int)
    requires 0 <= s < |seen| && !seen[s]
    ensures |Unseen(seen[s := true])| == |Unseen(seen)| - 1
  {
    assert Unseen(seen[s := true]) == Unseen(seen) - {s};
  }

  lemma Pop(g: B.Graph, a: B.Assignment, visited: set<int>, seen: seq<bool>, pending: seq<int>, k: int)
    requires pending != [] && Explored(g, a, visited, seen, pending, -1, k)
    ensures Explored(g, a, visited, seen, pending[..|pending| - 1], pending[|pending| - 1], 0)
  {
  }

  lemma Skip(g: B.Graph, a: B.Assignment, visited: set<int>, seen: seq<bool>, pending: seq<int>, current: int, k: int)
    requires Explored(g, a, visited, seen, pending, current, k) && 0 <= k < |a|
    requires 0 <= current < |g| && (seen[k] || k !in g[current])
    ensures Explored(g, a, visited, seen, pending, current, k + 1)
  {
  }

  lemma See(g: B.Graph, a: B.Assignment, visited: set<int>, seen: seq<bool>, pending: seq<int>, current: int, k: int)
    requires Explored(g, a, visited, seen, pending, current, k) && B.GivenWithin(a, visited, k)
    ensures Explored(g, a, visited, seen[k := true], pending, current, k + 1)
  {
  }

  lemma Push(g: B.Graph, a: B.Assignment, visited: set<int>, seen: seq<bool>, pending: seq<int>, current: int, k: int,
             c: int)
    requires Explored(g, a, visited, seen, pending, current, k)
    requires 0 <= k < |a| && a[k] == Some(c) && 0 <= c < |g|
    requires forall s :: s in g[c] ==> 0 <= s < |a|
    ensures Explored(g, a, visited + {c}, seen[k := true], pending + [c], current, k + 1)
  {
  }

  lemma Exhausted(g: B.Graph, a: B.Assignment, visited: set<int>, seen: seq<bool>, current: int)
    requires Explored(g, a, visited, seen, [], current, |a|)
    ensures B.Closed(g, a, visited)
  {
  }

  method Clear(seen: array<bool>)
    modifies seen
    ensures forall s :: 0 <= s < seen.Length ==> !seen[s]
  {
    forall s | 0 <= s < seen.Length {
      seen[s] := false;
    }
  }

  // ------------------------------------------------------------------------------------------
  // Augmenting
  // ------------------------------------------------------------------------------------------

  function Visited(rank: seq<int>): set<int> {
    set x | 0 <= x < |rank| && rank[x] >= 0
  }

  lemma TreeGrows(g: B.Graph, a: B.Assignment, root: int, parents: Parents, rank: seq<int>, current: int, slot: int,
                  c: int)
    requires Tree(g, a, root, parents, rank)
    requires 0 <= current < |g| && rank[current] >= 0 && 0 <= slot < |a| && slot in g[current]
    requires 0 <= c < |g| && a[slot] == Some(c) && c != root && parents[c].None?
    ensures Tree(g, a, root, parents[c := Some((current, slot))], rank[c := rank[current] + 1])
    ensures Visited(rank[c := rank[current] + 1]) == Visited(rank) + {c}
  {
  }

  /**
   Finds `candidate` a slot, moving candidates already given one to others they can use. On success the
   assignment is still one, it covers all it covered and `candidate` too, and no set closed before is
   open after. On failure nothing changed and no matching at all covers those candidates: `stuck` is
   why, a closed set with `candidate` in it.
   */
  method Augment(candidate: int, slots: seq<Wake>, cands: seq<Wait>, seen: array<bool>, given: array<Option<int>>)
    returns (found: bool, ghost stuck: set<int>)
    requires 0 <= candidate < |cands| && seen.Length == given.Length == |slots|
    requires forall s :: 0 <= s < seen.Length ==> !seen[s]
    requires B.ValidAssignment(Graph(slots, cands), given[..]) && candidate !in B.Matched(given[..])
    modifies seen, given
    ensures B.ValidAssignment(Graph(slots, cands), given[..])
    ensures found ==> B.Matched(given[..]) == B.Matched(old(given[..])) + {candidate}
    ensures found ==> forall u :: B.Closed(Graph(slots, cands), old(given[..]), u) ==>
                                    B.Closed(Graph(slots, cands), given[..], u)
    ensures !found ==> given[..] == old(given[..])
    ensures !found ==> B.Closed(Graph(slots, cands), given[..], stuck) && candidate in stuck
                       && stuck <= B.Matched(given[..]) + {candidate}
  {
    ghost var g, a := Graph(slots, cands), given[..];
    var parents: Parents := seq(|cands|, _ => None);
    ghost var rank := seq(|cands|, i => if i == candidate then 0 else -1);
    var pending := [candidate];
    stuck := {candidate};
    assert Visited(rank) == {candidate};
    while pending != []
      invariant given[..] == a
      invariant Tree(g, a, candidate, parents, rank) && stuck == Visited(rank)
      invariant stuck <= B.Matched(a) + {candidate}
      invariant Explored(g, a, stuck, seen[..], pending, -1, 0)
      decreases |Unseen(seen[..])| + |pending|
    {
      Pop(g, a, stuck, seen[..], pending, 0);
      ghost var fuel := |Unseen(seen[..])| + |pending|;
      var current := pending[|pending| - 1];
      pending := pending[..|pending| - 1];
      var slot := 0;
      while slot < |slots|
        invariant 0 <= slot <= |slots|
        invariant given[..] == a
        invariant Tree(g, a, candidate, parents, rank) && stuck == Visited(rank) && current in stuck
        invariant stuck <= B.Matched(a) + {candidate}
        invariant Explored(g, a, stuck, seen[..], pending, current, slot)
        invariant |Unseen(seen[..])| + |pending| < fuel
      {
        ghost var was := seen[..];
        if seen[slot] || !Includes(slots[slot], cands[current]) {
          Skip(g, a, stuck, was, pending, current, slot);
        } else {
          assert slot in g[current];
          MarkSeen(was, slot);
          seen[slot] := true;
          assert seen[..] == was[slot := true];
          match given[slot]
          case None =>
            Flip(g, candidate, current, slot, parents, rank, given);
            return true, {};
          case Some(previous) =>
            assert previous in B.Matched(a);
            if previous != candidate && parents[previous].None? {
              Push(g, a, stuck, was, pending, current, slot, previous);
              TreeGrows(g, a, candidate, parents, rank, current, slot, previous);
              rank := rank[previous := rank[current] + 1];
              stuck := stuck + {previous};
              parents := parents[previous := Some((current, slot))];
              pending := pending + [previous];
            } else {
              See(g, a, stuck, was, pending, current, slot);
            }
        }
        slot := slot + 1;
      }
      assert Explored(g, a, stuck, seen[..], pending, -1, 0);
    }
    Exhausted(g, a, stuck, seen[..], -1);
    return false, stuck;
  }

  // ------------------------------------------------------------------------------------------
  // Whether a receipt can still move
  // ------------------------------------------------------------------------------------------

  /** `c` is confined to candidates below `required`: no alternating path from it reaches a free slot
      or one given to a candidate at or past `required`. */
  ghost predicate Trapped(g: B.Graph, a: B.Assignment, required: nat, c: int) {
    exists u :: B.Closed(g, a, u) && c in u && u <= B.UpTo(required)
  }

  /** Any closed set below `required` that holds `c` holds all of `visited`. */
  ghost predicate Drags(g: B.Graph, a: B.Assignment, required: nat, c: int, visited: set<int>) {
    forall u {:trigger B.Closed(g, a, u)} :: B.Closed(g, a, u) && c in u && u <= B.UpTo(required) ==> visited <= u
  }

  lemma DragsNext(g: B.Graph, a: B.Assignment, required: nat, c: int, visited: set<int>, current: int, slot: int)
    requires Drags(g, a, required, c, visited)
    requires current in visited && 0 <= current < |g| && slot in g[current] && 0 <= slot < |a|
    ensures a[slot].None? || a[slot].value >= required ==> !Trapped(g, a, required, c)
    ensures a[slot].Some? ==> Drags(g, a, required, c, visited + {a[slot].value})
  {
  }

  /** Whether the slot `candidate` was given can still be freed for another: exactly when no closed set
      of candidates below `required` holds it. */
  method CanEscape(candidate: int, required: nat, slots: seq<Wake>, cands: seq<Wait>, given: seq<Option<int>>,
                   seen: array<bool>)
    returns (escapes: bool)
    requires 0 <= candidate < required <= |cands| && seen.Length == |given| == |slots|
    requires forall s :: 0 <= s < seen.Length ==> !seen[s]
    requires B.ValidAssignment(Graph(slots, cands), given)
    modifies seen
    ensures escapes <==> !Trapped(Graph(slots, cands), given, required, candidate)
  {
    ghost var g, visited := Graph(slots, cands), {candidate};
    var pending := [candidate];
    while pending != []
      invariant Explored(g, given, visited, seen[..], pending, -1, 0)
      invariant candidate in visited && visited <= B.UpTo(required) && Drags(g, given, required, candidate, visited)
      decreases |Unseen(seen[..])| + |pending|
    {
      Pop(g, given, visited, seen[..], pending, 0);
      ghost var fuel := |Unseen(seen[..])| + |pending|;
      var current := pending[|pending| - 1];
      pending := pending[..|pending| - 1];
      var slot := 0;
      while slot < |slots|
        invariant 0 <= slot <= |slots|
        invariant Explored(g, given, visited, seen[..], pending, current, slot)
        invariant candidate in visited && visited <= B.UpTo(required) && Drags(g, given, required, candidate, visited)
        invariant current in visited && |Unseen(seen[..])| + |pending| < fuel
      {
        ghost var was := seen[..];
        if seen[slot] || !Includes(slots[slot], cands[current]) {
          Skip(g, given, visited, was, pending, current, slot);
        } else {
          assert slot in g[current];
          DragsNext(g, given, required, candidate, visited, current, slot);
          MarkSeen(was, slot);
          seen[slot] := true;
          assert seen[..] == was[slot := true];
          if given[slot].None? || given[slot].value >= required {
            return true;
          }
          var next := given[slot].value;
          Push(g, given, visited, was, pending, current, slot, next);
          visited := visited + {next};
          pending := pending + [next];
        }
        slot := slot + 1;
      }
      assert Explored(g, given, visited, seen[..], pending, -1, 0);
    }
    Exhausted(g, given, visited, seen[..], -1);
    return false;
  }

  /** The trapped candidates are together a closed set. */
  lemma TrappedClosed(g: B.Graph, a: B.Assignment, required: nat, f: set<int>)
    requires required <= |g|
    requires f == set c | c in B.UpTo(required) && Trapped(g, a, required, c)
    ensures B.Closed(g, a, f)
  {
  }
}
