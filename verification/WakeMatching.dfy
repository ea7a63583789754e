/**
 Futex wake attribution as matching.

 The kernel reports how many waiters a wake reached, never which ones. A wake is therefore a group of
 equal slots, a wait that returned is a receipt for one of them, and "these waits can all have been
 woken" means "these waits can all be matched into these slots".
 */
module WakeMatching {
  import opened Options
  import M = Matchings
  import B = Bipartite
  import Choosing

  const U64_MAX: nat := 0xFFFF_FFFF_FFFF_FFFF

  /** A futex bit mask, as the set of its bits. */
  type Mask = set<int>

  /** One credit of a wake: its bit mask, its futex scope (private or shared; `None` for either) and
      the wait generation it was made at. */
  datatype Wake = Wake(mask: Mask, scope: Option<bool>, cutoff: nat)

  /** A wait as the attribution sees it: the generations it began (`token`) and was credited at
      (`retired`, `U64_MAX` while it is still parked), its mask and its scope. */
  datatype Wait = Wait(token: nat, retired: nat, mask: Mask, scope: Option<bool>)

  predicate Reaches(w: Wake, token: nat, mask: Mask, scope: Option<bool>) {
    && token <= w.cutoff
    && !(w.mask !! mask)
    && (w.scope.None? || scope == w.scope)
  }

  predicate Includes(w: Wake, c: Wait) {
    Reaches(w, c.token, c.mask, c.scope) && w.cutoff < c.retired
  }

  /** A wake meets a wait: made after the wait began and before it was credited, with a bit in common, and for any
      scope or the wait's own. */
  ghost predicate Meets(w: Wake, c: Wait) {
    && c.token <= w.cutoff < c.retired
    && (exists bit :: bit in w.mask && bit in c.mask)
    && (w.scope == None || w.scope == c.scope)
  }

  lemma IncludesMeans(w: Wake, c: Wait)
    ensures Includes(w, c) <==> Meets(w, c)
  {
    SharedBit(w.mask, c.mask);
  }

  lemma SharedBit(a: Mask, b: Mask)
    ensures !(a !! b) <==> exists bit :: bit in a && bit in b
  {
    assert forall bit :: bit in a * b <==> bit in a && bit in b;
    if a * b != {} {
      var bit := Choosing.SomeOf(a * b);
    }
  }

  /** All of `ws` can have been woken by `slots`, each by one of its own. */
  ghost predicate Matchable(slots: seq<Wake>, ws: set<Wait>) {
    M.Matchable(Includes, slots, ws)
  }

  /** Which slots each candidate can use. */
  ghost function Graph(slots: seq<Wake>, cands: seq<Wait>): (g: B.Graph)
    ensures |g| == |cands|
    ensures forall c, s {:trigger s in g[c]} ::
              0 <= c < |g| ==> (s in g[c] <==> 0 <= s < |slots| && Includes(slots[s], cands[c]))
  {
    M.Graph(Includes, slots, cands)
  }
}
