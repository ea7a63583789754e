/**
 The receipts of one futex word: wakes not yet taken and waits already credited, and the pruning that
 keeps only what can still matter (`Releases`).
 */
module ReleaseMatcher {
  import opened Options
  import opened WakeMatching
  import opened Credits
  import A = AugmentingPath
  import B = Bipartite
  import M = Matchings

  /** The wakes on one word, oldest first (`first`, then `rest`), and the waits credited to them. */
  datatype Releases = Releases(first: Release<Wake>, rest: seq<Release<Wake>>, claims: seq<Wait>) {
    function Records(): seq<Release<Wake>> {
      [first] + rest
    }

    /** One slot for each remaining credit. */
    function Slots(): seq<Wake> {
      Expand(Records())
    }
  }

  function Elements<T>(xs: seq<T>): set<T> {
    set x | x in xs
  }

  // ------------------------------------------------------------------------------------------
  // can_claim
  // ------------------------------------------------------------------------------------------

  /** Every one of `cands` can be given a slot at once, equal candidates counted apart. */
  ghost predicate Coverable(slots: seq<Wake>, cands: seq<Wait>) {
    B.Matchable(Graph(slots, cands), B.UpTo(|cands|))
  }

  /** For candidates all different, matching indices is matching the set of waits. */
  lemma IndexAll(slots: seq<Wake>, cands: seq<Wait>, d: set<int>)
    requires B.NoDup(cands) && d <= B.UpTo(|cands|)
    ensures B.Matchable(Graph(slots, cands), d) <==> Matchable(slots, M.Picked(cands, d))
  {
    var g, all := Graph(slots, cands), seq(|slots|, i => i);
    assert M.Pick(slots, all) == slots;
    if m: seq<int> :| B.IsMatching(g, d, m) {
      forall c | 0 <= c < |m| && c in d
        ensures m[c] in all
      {
        assert m[c] in g[c];
        assert all[m[c]] == m[c];
      }
      M.IndicesToValues(Includes, slots, cands, d, m, all);
    }
    if Matchable(slots, M.Picked(cands, d)) {
      var m := M.ValuesToIndices(Includes, slots, cands, d, all);
    }
  }

  lemma CoverableIsMatchable(slots: seq<Wake>, cands: seq<Wait>)
    requires B.NoDup(cands)
    ensures Coverable(slots, cands) <==> Matchable(slots, Elements(cands))
  {
    IndexAll(slots, cands, B.UpTo(|cands|));
    assert M.Picked(cands, B.UpTo(|cands|)) == Elements(cands);
  }

  lemma CoverOne(wake: Wake, n: nat, c: Wait)
    ensures Coverable(M.Copies(wake, n), [c]) <==> n > 0 && Includes(wake, c)
  {
    CoverableIsMatchable(M.Copies(wake, n), [c]);
    M.MatchCopies(Includes, wake, n, {c});
    assert Elements([c]) == {c};
  }

  /** Whether the wait `candidate` could be credited on top of the claims, by the general search or,
      for a single wake nothing has claimed yet, by looking at it. */
  method CanClaim(r: Releases, candidate: Wait) returns (can: bool)
    ensures can <==> Coverable(r.Slots(), r.claims + [candidate])
  {
    if r.claims == [] && r.rest == [] {
      ExpandOne(r.first);
      assert r.Records() == [r.first];
      assert r.claims + [candidate] == [candidate];
      CoverOne(r.first.wake, r.first.remaining, candidate);
      return r.first.remaining > 0 && Includes(r.first.wake, candidate);
    }
    var slots, candidates := r.Slots(), r.claims + [candidate];
    var given := new Option<int>[|slots|](_ => None);
    var seen := new bool[|slots|];
    ghost var g := Graph(slots, candidates);
    var i := 0;
    while i < |candidates|
      invariant 0 <= i <= |candidates|
      invariant B.ValidAssignment(g, given[..]) && B.Matched(given[..]) == B.UpTo(i)
    {
      ghost var a := given[..];
      A.Clear(seen);
      assert given[..] == a;
      var found, stuck := A.Augment(i, slots, candidates, seen, given);
      if !found {
        B.ClosedBlocks(g, given[..], stuck, i, B.UpTo(|candidates|));
        return false;
      }
      i := i + 1;
    }
    B.AssignmentMatches(g, given[..], B.UpTo(|candidates|));
    return true;
  }

  // ------------------------------------------------------------------------------------------
  // match_candidates
  // ------------------------------------------------------------------------------------------

  /** What the first phase of the matching leaves: an assignment that covers the claims, with a closed
      set `u` around every candidate it could not cover. */
  ghost predicate Covered(slots: seq<Wake>, cands: seq<Wait>, claims: nat, a: B.Assignment, u: set<int>) {
    && claims <= |cands| && |a| == |slots|
    && B.ValidAssignment(Graph(slots, cands), a)
    && B.Closed(Graph(slots, cands), a, u)
    && B.UpTo(|cands|) - B.Matched(a) <= u
    && B.UpTo(claims) <= B.Matched(a)
  }

  /** The same part-way, with candidates below `i` looked at. */
  ghost predicate Partial(g: B.Graph, a: B.Assignment, u: set<int>, i: nat, claims: nat) {
    && i <= |g| && claims <= |g|
    && B.ValidAssignment(g, a) && B.Closed(g, a, u)
    && B.Matched(a) <= B.UpTo(i) && B.UpTo(i) - B.Matched(a) <= u
    && B.UpTo(if i < claims then i else claims) <= B.Matched(a)
  }

  /** What one call of the search on candidate `i` told. */
  ghost predicate Searched(g: B.Graph, a: B.Assignment, b: B.Assignment, i: int, matched: bool, stuck: set<int>) {
    && B.ValidAssignment(g, b)
    && (matched ==> B.Matched(b) == B.Matched(a) + {i})
    && (matched ==> forall u :: B.Closed(g, a, u) ==> B.Closed(g, b, u))
    && (!matched ==> a == b && B.Closed(g, a, stuck) && i in stuck && stuck <= B.Matched(a) + {i})
  }

  /** While everything before it is matched, the search decides candidate `i` for good. */
  lemma Decided(g: B.Graph, a: B.Assignment, b: B.Assignment, i: nat, matched: bool, stuck: set<int>)
    requires i < |g| && B.Matched(a) == B.UpTo(i) && B.ValidAssignment(g, a)
    requires Searched(g, a, b, i, matched, stuck)
    ensures matched <==> B.Matchable(g, B.UpTo(i + 1))
  {
    if matched {
      B.AssignmentMatches(g, b, B.UpTo(i + 1));
    } else {
      B.ClosedBlocks(g, a, stuck, i, B.UpTo(i + 1));
    }
  }

  lemma FewerMatched(g: B.Graph, n: nat, k: nat)
    requires k <= n <= |g| && B.Matchable(g, B.UpTo(n))
    ensures B.Matchable(g, B.UpTo(k))
  {
    var m :| B.IsMatching(g, B.UpTo(n), m);
    assert B.IsMatching(g, B.UpTo(k), m);
  }

  lemma PartialAdvances(g: B.Graph, a: B.Assignment, b: B.Assignment, u: set<int>, i: nat, claims: nat, matched: bool,
                        stuck: set<int>)
    requires i < |g| && Partial(g, a, u, i, claims) && B.Matchable(g, B.UpTo(claims))
    requires Searched(g, a, b, i, matched, stuck)
    ensures i < claims ==> matched
    ensures Partial(g, b, if matched then u else u + stuck, i + 1, claims)
    ensures i <= claims ==> (matched <==> B.Matchable(g, B.UpTo(i + 1)))
  {
    if i <= claims {
      Decided(g, a, b, i, matched, stuck);
    }
    if i < claims {
      FewerMatched(g, claims, i + 1);
    }
    if !matched {
      B.ClosedUnion(g, a, u, stuck);
    }
  }

  /** Matches the claims, then the live waits one by one. Every claim is matched: the panic "native
      release attribution lost" is the assertion below, and it holds. */
  method MatchAll(slots: seq<Wake>, cands: seq<Wait>, claims: nat, claim: bool, seen: array<bool>)
    returns (given: array<Option<int>>, claimed: bool, ghost u: set<int>)
    requires claims <= |cands| && (claim ==> claims < |cands|) && seen.Length == |slots|
    requires B.Matchable(Graph(slots, cands), B.UpTo(claims))
    modifies seen
    ensures fresh(given) && given.Length == |slots|
    ensures claimed <==> claim && B.Matchable(Graph(slots, cands), B.UpTo(claims + 1))
    ensures Covered(slots, cands, claims + (if claimed then 1 else 0), given[..], u)
  {
    ghost var g := Graph(slots, cands);
    given := new Option<int>[|slots|](_ => None);
    claimed, u := false, {};
    var i := 0;
    while i < |cands|
      invariant 0 <= i <= |cands| && fresh(given) && given.Length == |slots|
      invariant Partial(g, given[..], u, i, claims)
      invariant claimed <==> claim && i > claims && B.Matchable(g, B.UpTo(claims + 1))
      invariant claimed ==> claims in B.Matched(given[..])
    {
      ghost var a := given[..];
      A.Clear(seen);
      assert given[..] == a;
      var matched, stuck := A.Augment(i, slots, cands, seen, given);
      assert Searched(g, a, given[..], i, matched, stuck);
      PartialAdvances(g, a, given[..], u, i, claims, matched, stuck);
      if i < claims {
        assert matched;
      }
      if claim && i == claims {
        claimed := matched;
      }
      u := if matched then u else u + stuck;
      i := i + 1;
    }
  }

  /** Which of the required candidates can never give up their slot. */
  method FindForced(slots: seq<Wake>, cands: seq<Wait>, required: nat, given: seq<Option<int>>, seen: array<bool>)
    returns (forced: seq<bool>)
    requires required <= |cands| && seen.Length == |given| == |slots|
    requires B.ValidAssignment(Graph(slots, cands), given)
    modifies seen
    ensures |forced| == required
    ensures forall i :: 0 <= i < required ==> (forced[i] <==> A.Trapped(Graph(slots, cands), given, required, i))
  {
    forced := [];
    while |forced| < required
      invariant |forced| <= required
      invariant forall i :: 0 <= i < |forced| ==> (forced[i] <==> A.Trapped(Graph(slots, cands), given, required, i))
    {
      A.Clear(seen);
      var escapes := A.CanEscape(|forced|, required, slots, cands, given, seen);
      forced := forced + [!escapes];
    }
  }

  // ------------------------------------------------------------------------------------------
  // What pruning preserves
  // ------------------------------------------------------------------------------------------

  /** The claims, with the candidates whose values lie in `x` after them. */
  ghost function Chosen(cands: seq<Wait>, required: nat, x: set<Wait>): set<int>
    requires required <= |cands|
  {
    B.UpTo(required) + set i | required <= i < |cands| && cands[i] in x
  }

  /** The required candidates that are not forced, in order. */
  function Unforced(cands: seq<Wait>, forced: seq<bool>): (r: seq<Wait>)
    requires |forced| <= |cands|
  {
    if forced == [] then [] else
      var n := |forced| - 1;
      Unforced(cands, forced[..n]) + if forced[n] then [] else [cands[n]]
  }

  lemma {:induction false} UnforcedElements(cands: seq<Wait>, forced: seq<bool>)
    requires |forced| <= |cands| && B.NoDup(cands)
    ensures B.NoDup(Unforced(cands, forced))
    ensures Elements(Unforced(cands, forced)) == M.Picked(cands, B.UpTo(|forced|) - ForcedSet(forced))
    decreases |forced|
  {
    if forced != [] {
      var n := |forced| - 1;
      UnforcedElements(cands, forced[..n]);
      var before, now := B.UpTo(n) - ForcedSet(forced[..n]), B.UpTo(n + 1) - ForcedSet(forced);
      assert now == before + if forced[n] then {} else {n};
      assert cands[n] !in M.Picked(cands, before);
      assert M.Picked(cands, now) == M.Picked(cands, before) + if forced[n] then {} else {cands[n]};
    }
  }

  lemma PickChosen(cands: seq<Wait>, required: nat, x: set<Wait>, f: set<int>)
    requires required <= |cands| && x <= Elements(cands[required..]) && f <= B.UpTo(required)
    ensures M.Picked(cands, Chosen(cands, required, x) - f) == M.Picked(cands, B.UpTo(required) - f) + x
  {
  }

  lemma PickRequired(cands: seq<Wait>, required: nat)
    requires required <= |cands|
    ensures M.Picked(cands, B.UpTo(required)) == Elements(cands[..required])
  {
  }

  lemma PruneIndices(slots: seq<Wake>, cands: seq<Wait>, a: B.Assignment, u: set<int>, f: set<int>, kept: seq<int>,
                     d: set<int>)
    requires B.NoDup(cands) && Covered(slots, cands, 0, a, u)
    requires B.Closed(Graph(slots, cands), a, f) && f <= B.Matched(a) && f <= d <= B.UpTo(|cands|)
    requires KeptBelow(a, f, |slots|, kept)
    ensures Matchable(slots, M.Picked(cands, d)) <==> Matchable(M.Pick(slots, kept), M.Picked(cands, d - f))
  {
    var g := Graph(slots, cands);
    IndexAll(slots, cands, d);
    if B.Matchable(g, d) {
      var k := B.KeptSlotsSuffice(g, a, u, f, d);
      forall c | 0 <= c < |k| && c in d - f
        ensures k[c] in kept
      {
        assert B.Kept(a, f, k[c]);
      }
      M.IndicesToValues(Includes, slots, cands, d - f, k, kept);
    }
    if Matchable(M.Pick(slots, kept), M.Picked(cands, d - f)) {
      var k := M.ValuesToIndices(Includes, slots, cands, d - f, kept);
      B.ForcedReturn(g, a, f, d, k);
    }
  }

  /** Pruning preserves meaning: for every set `x` of live waits, the required candidates and `x` can be
      matched into all the slots exactly when the unforced ones and `x` can into the kept slots. */
  lemma PruneKeepsMeaning(slots: seq<Wake>, cands: seq<Wait>, required: nat, a: B.Assignment, u: set<int>,
                          forced: seq<bool>, kept: seq<int>, x: set<Wait>)
    requires B.NoDup(cands) && Covered(slots, cands, required, a, u)
    requires |forced| == required
    requires forall i :: 0 <= i < required ==> (forced[i] <==> A.Trapped(Graph(slots, cands), a, required, i))
    requires KeptBelow(a, ForcedSet(forced), |slots|, kept)
    requires x <= Elements(cands[required..])
    ensures Matchable(slots, Elements(cands[..required]) + x)
            <==> Matchable(M.Pick(slots, kept), Elements(Unforced(cands, forced)) + x)
  {
    var g, f, d := Graph(slots, cands), ForcedSet(forced), Chosen(cands, required, x);
    assert f == set c | c in B.UpTo(required) && A.Trapped(g, a, required, c);
    A.TrappedClosed(g, a, required, f);
    PickChosen(cands, required, x, f);
    PickChosen(cands, required, x, {});
    PickRequired(cands, required);
    assert d - {} == d && B.UpTo(required) - {} == B.UpTo(required);
    UnforcedElements(cands, forced);
    PruneIndices(slots, cands, a, u, f, kept, d);
  }

  /** The two pictures answer alike: `x`, on top of what each has credited, can be matched in one exactly
      when it can in the other. */
  ghost predicate Agree(slots: seq<Wake>, credited: set<Wait>, slots': seq<Wake>, credited': set<Wait>, x: set<Wait>) {
    Matchable(slots, credited + x) <==> Matchable(slots', credited' + x)
  }

  /** They answer alike about every set of live waits. */
  ghost predicate Equivalent(slots: seq<Wake>, credited: set<Wait>, slots': seq<Wake>, credited': set<Wait>,
                             live: set<Wait>) {
    forall x :: x <= live ==> Agree(slots, credited, slots', credited', x)
  }

  lemma SameSlots(a: seq<Wake>, b: seq<Wake>, ws: set<Wait>)
    requires multiset(a) == multiset(b)
    ensures Matchable(a, ws) <==> Matchable(b, ws)
  {
    if Matchable(a, ws) {
      M.MoreSlots(Includes, a, b, ws);
    }
    if Matchable(b, ws) {
      M.MoreSlots(Includes, b, a, ws);
    }
  }

  /** How many live waits are matched: none exactly when every slot given is given to a required one. */
  method CountPending(given: seq<Option<int>>, required: nat) returns (pending: nat)
    ensures pending == 0 <==> NonePending(given, required)
  {
    pending := 0;
    var slot := 0;
    while slot < |given|
      invariant 0 <= slot <= |given|
      invariant pending == 0 <==> NonePending(given[..slot], required)
    {
      assert given[..slot + 1] == given[..slot] + [given[slot]];
      if given[slot].Some? && given[slot].value >= required {
        assert given[..slot + 1][slot] == given[slot];
        pending := pending + 1;
      }
      slot := slot + 1;
    }
    assert given[..slot] == given;
  }

  predicate NonePending(given: seq<Option<int>>, required: nat) {
    forall s :: 0 <= s < |given| && given[s].Some? ==> given[s].value < required
  }

  /** With no live wait matched, none can be: the required ones use every slot that could serve one. */
  lemma NoneCanClaim(slots: seq<Wake>, cands: seq<Wait>, required: nat, a: B.Assignment, u: set<int>, x: set<Wait>)
    requires B.NoDup(cands) && Covered(slots, cands, required, a, u) && NonePending(a, required)
    requires x <= Elements(cands[required..])
    ensures Matchable(slots, Elements(cands[..required]) + x) <==> x == {}
  {
    var g, d := Graph(slots, cands), Chosen(cands, required, x);
    PickChosen(cands, required, x, {});
    PickRequired(cands, required);
    assert d - {} == d && B.UpTo(required) - {} == B.UpTo(required);
    IndexAll(slots, cands, d);
    if x == {} {
      assert d == B.UpTo(required);
      B.AssignmentMatches(g, a, d);
    } else {
      var w :| w in x;
      var i := required + M.IndexOf(cands[required..], w);
      assert i !in B.Matched(a);
      var v := u * (B.UpTo(required) + {i});
      forall c, s | 0 <= c < |g| && c in v && s in g[c]
        ensures B.GivenWithin(a, v, s)
      {
        assert B.GivenWithin(a, u, s);
      }
      B.ClosedBlocks(g, a, v, i, d);
    }
  }

  /** A live wait that is matched can be credited on top of the required ones. */
  lemma OneCanClaim(slots: seq<Wake>, cands: seq<Wait>, required: nat, a: B.Assignment, u: set<int>) returns (w: Wait)
    requires B.NoDup(cands) && Covered(slots, cands, required, a, u) && !NonePending(a, required)
    ensures w in cands[required..] && Matchable(slots, Elements(cands[..required]) + {w})
  {
    var s :| 0 <= s < |a| && a[s].Some? && a[s].value >= required;
    var j := a[s].value;
    w := cands[j];
    assert cands[required..][j - required] == w;
    var d := Chosen(cands, required, {w});
    PickChosen(cands, required, {w}, {});
    PickRequired(cands, required);
    assert d - {} == d && B.UpTo(required) - {} == B.UpTo(required);
    IndexAll(slots, cands, d);
    assert d == B.UpTo(required) + {j};
    B.AssignmentMatches(Graph(slots, cands), a, d);
  }

  lemma EmptySlots(x: set<Wait>)
    ensures Matchable([], {} + x) <==> x == {}
  {
    assert {} + x == x;
    if Matchable([], x) {
      M.MatchableBound(Includes, [], x);
    } else {
      M.NothingToMatch<Wake, Wait>(Includes, []);
    }
  }

  /** What `MatchCandidates` answers and keeps. */
  ghost predicate Pruned(slots: seq<Wake>, credited: set<Wait>, r: Releases, live: set<Wait>) {
    && Equivalent(slots, credited, r.Slots(), Elements(r.claims), live)
    && B.NoDup(r.claims) && Elements(r.claims) <= credited
    && (r.Slots() == [] ==> r.claims == [])
    && (r.Slots() != [] ==> exists w :: w in live && Matchable(r.Slots(), Elements(r.claims) + {w}))
  }

  lemma PrunedByClearing(slots: seq<Wake>, cands: seq<Wait>, required: nat, a: B.Assignment, u: set<int>, r: Releases)
    requires B.NoDup(cands) && Covered(slots, cands, required, a, u) && NonePending(a, required)
    requires r.Slots() == [] && r.claims == []
    ensures Pruned(slots, Elements(cands[..required]), r, Elements(cands[required..]))
  {
    forall x | x <= Elements(cands[required..])
      ensures Agree(slots, Elements(cands[..required]), [], {}, x)
    {
      NoneCanClaim(slots, cands, required, a, u, x);
      EmptySlots(x);
    }
    assert Elements(r.claims) == {};
  }

  lemma PrunedByKeeping(slots: seq<Wake>, cands: seq<Wait>, required: nat, a: B.Assignment, u: set<int>,
                        forced: seq<bool>, kept: seq<int>, r: Releases)
    requires B.NoDup(cands) && Covered(slots, cands, required, a, u) && !NonePending(a, required)
    requires |forced| == required
    requires forall i :: 0 <= i < required ==> (forced[i] <==> A.Trapped(Graph(slots, cands), a, required, i))
    requires KeptBelow(a, ForcedSet(forced), |slots|, kept)
    requires multiset(r.Slots()) == multiset(M.Pick(slots, kept)) && r.claims == Unforced(cands, forced)
    ensures Pruned(slots, Elements(cands[..required]), r, Elements(cands[required..])) && r.Slots() != []
  {
    var credited, live := Elements(cands[..required]), Elements(cands[required..]);
    forall x | x <= live
      ensures Agree(slots, credited, r.Slots(), Elements(r.claims), x)
    {
      PruneKeepsMeaning(slots, cands, required, a, u, forced, kept, x);
      SameSlots(r.Slots(), M.Pick(slots, kept), Elements(r.claims) + x);
    }
    UnforcedElements(cands, forced);
    PickRequired(cands, required);
    var w := OneCanClaim(slots, cands, required, a, u);
    assert Agree(slots, credited, r.Slots(), Elements(r.claims), {w});
    M.MatchableBound(Includes, r.Slots(), Elements(r.claims) + {w});
  }

  /**
   Matches the claims and the live waits against the slots, credits the first live wait when asked and it
   can be, and keeps only the claims and credits that can still matter. A wait is credited exactly when
   it can be matched on top of the claims, and what is kept answers for every set of the waits still
   live as everything did.
   */
  method MatchCandidates(r: Releases, live: seq<Wait>, claim: bool) returns (kept: Releases, claimed: bool)
    requires B.NoDup(r.claims + live) && (claim ==> live != [])
    requires Matchable(r.Slots(), Elements(r.claims))
    ensures claimed <==> claim && Matchable(r.Slots(), Elements(r.claims) + {live[0]})
    ensures claimed ==> Pruned(r.Slots(), Elements(r.claims) + {live[0]}, kept, Elements(live[1..]))
    ensures !claimed ==> Pruned(r.Slots(), Elements(r.claims), kept, Elements(live))
    ensures SameWakes(kept.Records(), r.Records())
  {
    var records, candidates := r.Records(), r.claims + live;
    var slots := r.Slots();
    var seen := new bool[|slots|];
    ClaimsCoverable(slots, r.claims, live);
    if claim {
      NextCoverable(slots, r.claims, live);
    }
    var given: array<Option<int>>;
    ghost var u: set<int>;
    given, claimed, u := MatchAll(slots, candidates, |r.claims|, claim, seen);
    var required := |r.claims| + (if claimed then 1 else 0);
    var forced := FindForced(slots, candidates, required, given[..], seen);
    kept := Settle(r, candidates, required, given[..], u, forced);
    PrunedParts(slots, r.claims, live, claimed, kept);
  }

  /** The records and claims left once the forced ones are retired, or nothing when no live wait is matched. */
  method Settle(r: Releases, candidates: seq<Wait>, required: nat, given: seq<Option<int>>, ghost u: set<int>,
                forced: seq<bool>)
    returns (kept: Releases)
    requires B.NoDup(candidates) && Covered(r.Slots(), candidates, required, given, u)
    requires |forced| == required
    requires forall i :: 0 <= i < required ==>
               (forced[i] <==> A.Trapped(Graph(r.Slots(), candidates), given, required, i))
    ensures Pruned(r.Slots(), Elements(candidates[..required]), kept, Elements(candidates[required..]))
    ensures SameWakes(kept.Records(), r.Records())
  {
    var counted, keptSlots := Recount(r.Records(), given, forced);
    var pending := CountPending(given, required);
    if pending == 0 {
      counted := seq(|counted|, i requires 0 <= i < |counted| => Release(counted[i].wake, 0));
      kept := Releases(counted[0], counted[1..], []);
      assert kept.Records() == counted;
      ExpandNone(counted);
      PrunedByClearing(r.Slots(), candidates, required, given, u, kept);
    } else {
      kept := Releases(counted[0], counted[1..], Unforced(candidates, forced));
      assert kept.Records() == counted;
      PrunedByKeeping(r.Slots(), candidates, required, given, u, forced, keptSlots, kept);
    }
  }

  lemma ClaimsCoverable(slots: seq<Wake>, claims: seq<Wait>, live: seq<Wait>)
    requires B.NoDup(claims + live)
    ensures B.Matchable(Graph(slots, claims + live), B.UpTo(|claims|)) <==> Matchable(slots, Elements(claims))
  {
    IndexAll(slots, claims + live, B.UpTo(|claims|));
    PickRequired(claims + live, |claims|);
    assert (claims + live)[..|claims|] == claims;
  }

  lemma NextCoverable(slots: seq<Wake>, claims: seq<Wait>, live: seq<Wait>)
    requires B.NoDup(claims + live) && live != []
    ensures B.Matchable(Graph(slots, claims + live), B.UpTo(|claims| + 1)) <==>
              Matchable(slots, Elements(claims) + {live[0]})
  {
    RequiredParts(claims, live);
    IndexAll(slots, claims + live, B.UpTo(|claims| + 1));
    PickRequired(claims + live, |claims| + 1);
  }

  lemma PrunedParts(slots: seq<Wake>, claims: seq<Wait>, live: seq<Wait>, claimed: bool, kept: Releases)
    requires claimed ==> live != []
    requires var required := |claims| + (if claimed then 1 else 0);
             Pruned(slots, Elements((claims + live)[..required]), kept, Elements((claims + live)[required..]))
    ensures claimed ==> Pruned(slots, Elements(claims) + {live[0]}, kept, Elements(live[1..]))
    ensures !claimed ==> Pruned(slots, Elements(claims), kept, Elements(live))
  {
    RequiredParts(claims, live);
  }

  lemma RequiredParts(claims: seq<Wait>, live: seq<Wait>)
    ensures (claims + live)[..|claims|] == claims && (claims + live)[|claims|..] == live
    ensures live != [] ==> Elements((claims + live)[..|claims| + 1]) == Elements(claims) + {live[0]}
    ensures live != [] ==> (claims + live)[|claims| + 1..] == live[1..]
  {
  }
}
