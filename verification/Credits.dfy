/**
 Records that stand for several equal slots: a wake, and how many of the waiters it reached have yet to be
 told apart.
 */
module Credits {
  import opened Options
  import B = Bipartite
  import M = Matchings

  datatype Release<+T> = Release(wake: T, remaining: nat)

  /** Each record's wake, once for each of its remaining credits. */
  function Expand<T>(rs: seq<Release<T>>): seq<T> {
    if rs == [] then [] else
      var n := |rs| - 1;
      Expand(rs[..n]) + M.Copies(rs[n].wake, rs[n].remaining)
  }

  /** Which record each slot comes from. */
  function Indices<T>(rs: seq<Release<T>>): (r: seq<int>)
    ensures |r| == |Expand(rs)|
    ensures forall k {:trigger r[k]} :: 0 <= k < |r| ==> 0 <= r[k] < |rs| && Expand(rs)[k] == rs[r[k]].wake
  {
    if rs == [] then [] else
      var n := |rs| - 1;
      Indices(rs[..n]) + M.Copies(n, rs[n].remaining)
  }

  lemma ExpandOne<T>(r: Release<T>)
    ensures Expand([r]) == M.Copies(r.wake, r.remaining)
  {
  }

  lemma {:induction false} ExpandFirst<T>(r: Release<T>, rs: seq<Release<T>>)
    ensures Expand([r] + rs) == M.Copies(r.wake, r.remaining) + Expand(rs)
    decreases |rs|
  {
    if rs == [] {
      assert [r] + rs == [r];
      ExpandOne(r);
    } else {
      var n := |rs| - 1;
      assert ([r] + rs)[..n + 1] == [r] + rs[..n];
      ExpandFirst(r, rs[..n]);
    }
  }

  lemma {:induction false} ExpandNone<T>(rs: seq<Release<T>>)
    requires forall i :: 0 <= i < |rs| ==> rs[i].remaining == 0
    ensures Expand(rs) == []
    decreases |rs|
  {
    if rs != [] {
      ExpandNone(rs[..|rs| - 1]);
    }
  }

  lemma ExpandManyLast<T>(head: seq<Release<T>>, r: Release<T>, n: nat)
    ensures Expand(head + [Release(r.wake, r.remaining + n)]) == Expand(head + [r]) + M.Copies(r.wake, n)
  {
  }

  lemma ExpandManyBefore<T>(head: seq<Release<T>>, more: seq<Release<T>>, last: Release<T>, added: seq<T>)
    requires multiset(Expand(more)) == multiset(Expand(head) + added)
    ensures multiset(Expand(more + [last])) == multiset(Expand(head + [last]) + added)
  {
  }

  /** Several more credits on a record are as many more slots of its wake. */
  lemma {:induction false} ExpandMany<T>(rs: seq<Release<T>>, j: int, n: nat)
    requires 0 <= j < |rs|
    ensures multiset(Expand(rs[j := Release(rs[j].wake, rs[j].remaining + n)]))
            == multiset(Expand(rs) + M.Copies(rs[j].wake, n))
    decreases |rs|
  {
    var last := |rs| - 1;
    var more := Release(rs[j].wake, rs[j].remaining + n);
    var head := rs[..last];
    assert rs == head + [rs[last]];
    if j < last {
      ExpandMany(head, j, n);
      assert rs[j := more] == head[j := more] + [rs[last]];
      ExpandManyBefore(head, head[j := more], rs[last], M.Copies(rs[j].wake, n));
    } else {
      assert rs[j := more] == head + [more];
      ExpandManyLast(head, rs[last], n);
    }
  }

  lemma ExpandMore<T>(rs: seq<Release<T>>, j: int)
    requires 0 <= j < |rs|
    ensures multiset(Expand(rs[j := Release(rs[j].wake, rs[j].remaining + 1)]))
            == multiset(Expand(rs)) + multiset{rs[j].wake}
  {
    ExpandMany(rs, j, 1);
    OneCopy(rs[j].wake, Expand(rs));
  }

  lemma OneCopy<T>(x: T, s: seq<T>)
    ensures multiset(s + M.Copies(x, 1)) == multiset(s) + multiset{x}
  {
  }

  // ------------------------------------------------------------------------------------------
  // Counting the slots that stay
  // ------------------------------------------------------------------------------------------

  /** The forced candidates, as a set. */
  function ForcedSet(forced: seq<bool>): set<int> {
    set i | 0 <= i < |forced| && forced[i]
  }

  /** `kept` lists the slots below `n` that pruning keeps. */
  ghost predicate KeptBelow(given: seq<Option<int>>, f: set<int>, n: nat, kept: seq<int>) {
    && B.NoDup(kept) && M.Within(kept, n)
    && (forall s :: s in kept ==> B.Kept(given, f, s))
    && (forall s :: 0 <= s < n && B.Kept(given, f, s) ==> s in kept)
  }

  lemma KeepOne(given: seq<Option<int>>, f: set<int>, n: nat, kept: seq<int>)
    requires n < |given| && KeptBelow(given, f, n, kept)
    ensures KeptBelow(given, f, n + 1, if B.Kept(given, f, n) then kept + [n] else kept)
  {
  }

  lemma KeptTest(given: seq<Option<int>>, forced: seq<bool>, s: int)
    requires 0 <= s < |given|
    ensures B.Kept(given, ForcedSet(forced), s)
            <==> !(given[s].None? || (0 <= given[s].value < |forced| && forced[given[s].value]))
  {
  }

  lemma PickOne<T>(slots: seq<T>, kept: seq<int>, s: int)
    requires M.Within(kept, |slots|) && 0 <= s < |slots|
    ensures M.Within(kept + [s], |slots|)
    ensures multiset(M.Pick(slots, kept + [s])) == multiset(M.Pick(slots, kept)) + multiset{slots[s]}
  {
    assert M.Pick(slots, kept + [s]) == M.Pick(slots, kept) + [slots[s]];
  }

  predicate SameWakes<T(==)>(xs: seq<Release<T>>, ys: seq<Release<T>>) {
    |xs| == |ys| && forall i :: 0 <= i < |xs| ==> xs[i].wake == ys[i].wake
  }

  /** The counted records hold just the slots kept. */
  ghost predicate Tallied<T>(records: seq<Release<T>>, counted: seq<Release<T>>, kept: seq<int>) {
    && SameWakes(counted, records) && M.Within(kept, |Expand(records)|)
    && multiset(Expand(counted)) == multiset(M.Pick(Expand(records), kept))
  }

  lemma TallyOne<T>(records: seq<Release<T>>, counted: seq<Release<T>>, kept: seq<int>, slot: int, record: int)
    requires Tallied(records, counted, kept) && 0 <= slot < |Expand(records)|
    requires 0 <= record < |records| && Expand(records)[slot] == records[record].wake
    ensures Tallied(records, counted[record := Release(counted[record].wake, counted[record].remaining + 1)],
                    kept + [slot])
  {
    ExpandMore(counted, record);
    PickOne(Expand(records), kept, slot);
  }

  /** Back to records: each keeps as many credits as it has slots given to a candidate not forced. */
  method Recount<T(==)>(records: seq<Release<T>>, given: seq<Option<int>>, forced: seq<bool>)
    returns (counted: seq<Release<T>>, ghost kept: seq<int>)
    requires |given| == |Expand(records)|
    ensures SameWakes(counted, records)
    ensures KeptBelow(given, ForcedSet(forced), |given|, kept)
    ensures multiset(Expand(counted)) == multiset(M.Pick(Expand(records), kept))
  {
    var indices := Indices(records);
    counted := seq(|records|, i requires 0 <= i < |records| => Release(records[i].wake, 0));
    kept := [];
    ExpandNone(counted);
    var slot := 0;
    while slot < |given|
      invariant 0 <= slot <= |given|
      invariant KeptBelow(given, ForcedSet(forced), slot, kept) && Tallied(records, counted, kept)
    {
      KeepOne(given, ForcedSet(forced), slot, kept);
      KeptTest(given, forced, slot);
      if !(given[slot].None? || (0 <= given[slot].value < |forced| && forced[given[slot].value])) {
        var record := indices[slot];
        TallyOne(records, counted, kept, slot, record);
        counted := counted[record := Release(counted[record].wake, counted[record].remaining + 1)];
        kept := kept + [slot];
      }
      slot := slot + 1;
    }
  }

  // ------------------------------------------------------------------------------------------
  // Dropping records with no credit left
  // ------------------------------------------------------------------------------------------

  function Retained<T>(rs: seq<Release<T>>): seq<Release<T>> {
    if rs == [] then [] else
      var n := |rs| - 1;
      Retained(rs[..n]) + if rs[n].remaining > 0 then [rs[n]] else []
  }

  lemma {:induction false} RetainedExpand<T>(rs: seq<Release<T>>)
    ensures Expand(Retained(rs)) == Expand(rs)
    decreases |rs|
  {
    if rs != [] {
      var n := |rs| - 1;
      var head := Retained(rs[..n]);
      RetainedExpand(rs[..n]);
      if rs[n].remaining > 0 {
        assert (head + [rs[n]])[..|head|] == head;
        assert Expand(head + [rs[n]]) == Expand(head) + M.Copies(rs[n].wake, rs[n].remaining);
      } else {
        assert head + [] == head;
      }
    }
  }

  lemma {:induction false} RetainedRemain<T>(rs: seq<Release<T>>)
    ensures AllRemain(Retained(rs))
    ensures forall r :: r in Retained(rs) ==> r in rs
    decreases |rs|
  {
    if rs != [] {
      RetainedRemain(rs[..|rs| - 1]);
    }
  }

  lemma {:induction false} RetainedFirst<T>(r: Release<T>, rs: seq<Release<T>>)
    ensures Retained([r] + rs) == (if r.remaining > 0 then [r] else []) + Retained(rs)
    decreases |rs|
  {
    if rs == [] {
      assert ([r] + rs)[..0] == [];
    } else {
      var n := |rs| - 1;
      assert ([r] + rs)[..n + 1] == [r] + rs[..n];
      RetainedFirst(r, rs[..n]);
    }
  }

  lemma {:induction false} RemainsExpand<T>(rs: seq<Release<T>>)
    requires AllRemain(rs) && rs != []
    ensures Expand(rs) != []
  {
  }

  predicate AllRemain<T>(rs: seq<Release<T>>) {
    forall i :: 0 <= i < |rs| ==> rs[i].remaining > 0
  }

}
