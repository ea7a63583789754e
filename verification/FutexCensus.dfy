/**
 One futex word against the rows of the census: what a wake, a return and pruning make of its receipts.
 */
module FutexCensus {
  import opened Options
  import opened Choosing
  import opened WakeMatching
  import opened Credits
  import opened ReleaseMatcher
  import opened Attribution
  import opened FutexHistory
  import B = Bipartite
  import M = Matchings
  import Tally

  ghost function Ready(rows: Rows): set<int> {
    Tally.Those(rows, Flagged)
  }

  ghost function Live(rows: Rows, key: int): set<Wait> {
    set l | l in rows && IsLive(rows[l], key) :: Receipt(rows[l].wait.value, U64_MAX)
  }

  /** Only participants wait, each since a generation of its own. */
  ghost predicate Orderly(rows: Rows, gen: nat) {
    && (forall l {:trigger rows[l]} :: l in rows && rows[l].wait.Some? ==>
          rows[l].kind.Participant? && rows[l].wait.value.token <= gen)
    && (forall k, l {:trigger rows[k], rows[l]} :: k in rows && l in rows && SameToken(rows[k], rows[l]) ==> k == l)
  }

  predicate SameToken(a: Row, b: Row) {
    a.wait.Some? && b.wait.Some? && a.wait.value.token == b.wait.value.token
  }

  // ------------------------------------------------------------------------------------------
  // Rows and the waits parked on a word
  // ------------------------------------------------------------------------------------------

  lemma LiveParked(rows: Rows, key: int)
    ensures Parked(Live(rows, key))
  {
  }

  lemma LiveElsewhere(rows: Rows, l: int, row: Row, key: int)
    requires l in rows ==> !IsLive(rows[l], key)
    requires !IsLive(row, key)
    ensures Live(rows[l := row], key) == Live(rows, key)
  {
    var after := rows[l := row];
    forall k | k in rows && IsLive(rows[k], key)
      ensures k in after && after[k] == rows[k]
    {
    }
    forall k | k in after && IsLive(after[k], key)
      ensures k in rows && after[k] == rows[k]
    {
    }
  }

  lemma LiveWithout(rows: Rows, gen: nat, l: int, key: int)
    requires Orderly(rows, gen) && l in rows && IsLive(rows[l], key)
    ensures Live(rows - {l}, key) == Live(rows, key) - {Receipt(rows[l].wait.value, U64_MAX)}
    ensures Receipt(rows[l].wait.value, U64_MAX) in Live(rows, key)
  {
    var fewer := rows - {l};
    forall w | w in Live(rows, key) && w != Receipt(rows[l].wait.value, U64_MAX)
      ensures w in Live(fewer, key)
    {
      var k :| k in rows && IsLive(rows[k], key) && Receipt(rows[k].wait.value, U64_MAX) == w;
      assert k in fewer && fewer[k] == rows[k];
    }
    forall w | w in Live(fewer, key)
      ensures w in Live(rows, key) && w != Receipt(rows[l].wait.value, U64_MAX)
    {
      var k :| k in fewer && IsLive(fewer[k], key) && Receipt(fewer[k].wait.value, U64_MAX) == w;
      assert fewer[k] == rows[k];
      assert !SameToken(rows[k], rows[l]);
    }
  }

  lemma LiveRemoved(rows: Rows, l: int, key: int)
    requires l in rows ==> !IsLive(rows[l], key)
    ensures Live(rows - {l}, key) == Live(rows, key)
  {
    var fewer := rows - {l};
    forall k | k in rows && IsLive(rows[k], key)
      ensures k in fewer && fewer[k] == rows[k]
    {
    }
    forall k | k in fewer && IsLive(fewer[k], key)
      ensures k in rows && fewer[k] == rows[k]
    {
    }
  }

  lemma LiveReplaced(rows: Rows, l: int, row: Row, key: int)
    requires !IsLive(row, key)
    ensures Live(rows[l := row], key) == Live(rows - {l}, key)
  {
    LiveElsewhere(rows - {l}, l, row, key);
    assert (rows - {l})[l := row] == rows[l := row];
  }

  lemma LiveAdded(rows: Rows, l: int, row: Row, key: int)
    requires IsLive(row, key)
    ensures Live(rows[l := row], key) == Live(rows - {l}, key) + {Receipt(row.wait.value, U64_MAX)}
  {
    var after := rows[l := row];
    forall w | w in Live(after, key)
      ensures w in Live(rows - {l}, key) + {Receipt(row.wait.value, U64_MAX)}
    {
      var k :| k in after && IsLive(after[k], key) && Receipt(after[k].wait.value, U64_MAX) == w;
      if k != l {
        assert k in rows - {l} && (rows - {l})[k] == after[k];
      }
    }
    forall w | w in Live(rows - {l}, key)
      ensures w in Live(after, key)
    {
      var k :| k in rows - {l} && IsLive((rows - {l})[k], key) && Receipt((rows - {l})[k].wait.value, U64_MAX) == w;
      assert after[k] == (rows - {l})[k];
    }
    assert after[l] == row;
  }

  /** There are no more parked waits in a wake's way than rows that hear it. */
  lemma HearersBound(rows: Rows, gen: nat, key: int, wake: Wake, hearers: set<int>)
    requires Orderly(rows, gen) && gen <= wake.cutoff < U64_MAX
    requires hearers == Hearers(rows, key, wake.mask, wake.scope)
    ensures |InTheWay(Live(rows, key), wake)| <= |hearers|
    ensures hearers == {} ==> InTheWay(Live(rows, key), wake) == {}
  {
    var way := InTheWay(Live(rows, key), wake);
    var who := map w | w in way ::
      var l :| l in rows && IsLive(rows[l], key) && Receipt(rows[l].wait.value, U64_MAX) == w; l;
    assert who.Keys == way;
    B.InjectionBound(who, hearers);
  }

  /** The rows a wake can have reached. */
  function Reached(rows: Rows, key: int, wake: Wake): set<int> {
    set l | l in rows && IsLive(rows[l], key)
            && Reaches(wake, rows[l].wait.value.token, rows[l].wait.value.mask, rows[l].wait.value.scope)
  }

  /** The waits parked on the word, in some order. */
  method LiveWaits(rows: Rows, ghost gen: nat, key: int) returns (ws: seq<Wait>)
    requires Orderly(rows, gen)
    ensures B.NoDup(ws) && Elements(ws) == Live(rows, key)
  {
    ws := [];
    var todo := rows.Keys;
    while todo != {}
      invariant todo <= rows.Keys && B.NoDup(ws)
      invariant forall w :: w in ws ==> FromRow(rows, key, rows.Keys - todo, w)
      invariant forall l :: l in rows && l !in todo && IsLive(rows[l], key) ==>
                  Receipt(rows[l].wait.value, U64_MAX) in ws
      decreases |todo|
    {
      var l := AnyOf(todo);
      if IsLive(rows[l], key) {
        var w := Receipt(rows[l].wait.value, U64_MAX);
        assert w !in ws by {
          if w in ws {
            var k :| k in rows.Keys - todo && IsLive(rows[k], key) && Receipt(rows[k].wait.value, U64_MAX) == w;
            assert SameToken(rows[k], rows[l]);
          }
        }
        assert FromRow(rows, key, rows.Keys - (todo - {l}), w);
        ws := ws + [w];
      }
      assert forall w :: FromRow(rows, key, rows.Keys - todo, w) ==> FromRow(rows, key, rows.Keys - (todo - {l}), w);
      todo := todo - {l};
    }
  }

  /** `w` is the wait of a row of `among`, parked on the word. */
  ghost predicate FromRow(rows: Rows, key: int, among: set<int>, w: Wait)
    requires among <= rows.Keys
  {
    exists l :: l in among && IsLive(rows[l], key) && Receipt(rows[l].wait.value, U64_MAX) == w
  }

  // ------------------------------------------------------------------------------------------
  // The receipts of one word
  // ------------------------------------------------------------------------------------------

  ghost predicate WordOk(rows: Rows, gen: nat, key: int, r: Option<Releases>, h: seq<Wake>, c: set<Wait>) {
    && Sound(Live(rows, key), gen, r, h, c)
    && Useful(Live(rows, key), r)
    && (r.Some? ==> AllRemain(r.value.Records()))
  }

  lemma DifferentReceipts(claims: seq<Wait>, live: seq<Wait>, gen: nat)
    requires B.NoDup(claims) && RetiredBy(Elements(claims), gen)
    requires B.NoDup(live) && forall w :: w in live ==> w.retired > gen
    ensures B.NoDup(claims + live)
  {
  }

  lemma LoneUseful(rows: Rows, gen: nat, key: int, wake: Wake, n: nat, l: int)
    requires Orderly(rows, gen) && gen < U64_MAX && n > 0 && wake.cutoff < U64_MAX
    requires l in Reached(rows, key, wake)
    ensures Useful(Live(rows, key), Some(Lone(wake, n)))
  {
    var w := Receipt(rows[l].wait.value, U64_MAX);
    LoneSlots(Lone(wake, n));
    M.MatchCopies(Includes, wake, n, {w});
    assert {} + {w} == {w};
    assert w in Live(rows, key);
  }

  lemma UsefulRetained(live: set<Wait>, r: Releases)
    requires r.Slots() != [] ==> Useful(live, Some(r))
    ensures Useful(live, Retain(r))
    ensures Retain(r).Some? ==> AllRemain(Retain(r).value.Records())
  {
    RetainSlots(r);
  }

  /** Retires what can no longer matter: credits no parked wait is in the way of, claims settled for good. */
  method PruneWord(rows: Rows, gen: nat, key: int, r: Releases, ghost h: seq<Wake>, ghost c: set<Wait>)
    returns (kept: Option<Releases>)
    requires Orderly(rows, gen) && Sound(Live(rows, key), gen, Some(r), h, c)
    ensures WordOk(rows, gen, key, kept, h, c)
  {
    ghost var live := Live(rows, key);
    var releases := r;
    if r.rest == [] && r.claims == [] {
      var wake := r.first.wake;
      var reached := Reached(rows, key, wake);
      var count := |reached|;
      var n := if r.first.remaining < count then r.first.remaining else count;
      ReachedBound(rows, gen, key, wake, reached);
      SoundTrimmed(live, gen, r, h, c, n);
      releases := Lone(wake, n);
      LoneSlots(releases);
      if n > 0 {
        var l := AnyOf(reached);
        LoneUseful(rows, gen, key, wake, n, l);
      }
    } else {
      var candidates := LiveWaits(rows, gen, key);
      DifferentReceipts(r.claims, candidates, gen);
      var pruned, _ := MatchCandidates(r, candidates, false);
      releases := pruned;
      SoundPruned(live, gen, r, h, c, releases);
    }
    kept := Retain(releases);
    SoundRetained(live, gen, releases, h, c);
    UsefulRetained(live, releases);
  }

  lemma ReachedBound(rows: Rows, gen: nat, key: int, wake: Wake, reached: set<int>)
    requires Orderly(rows, gen) && wake.cutoff < U64_MAX
    requires reached == Reached(rows, key, wake)
    ensures |InTheWay(Live(rows, key), wake)| <= |reached|
  {
    var way := InTheWay(Live(rows, key), wake);
    var who := map w | w in way ::
      var l :| l in rows && IsLive(rows[l], key) && Receipt(rows[l].wait.value, U64_MAX) == w; l;
    assert who.Keys == way;
    B.InjectionBound(who, reached);
  }

  /** The first record of just this wake. */
  function FindWake(rs: seq<Release<Wake>>, wake: Wake): (j: Option<int>)
    ensures j.Some? ==> 0 <= j.value < |rs| && rs[j.value].wake == wake
  {
    if rs == [] then None
    else if rs[0].wake == wake then Some(0)
    else
      var j := FindWake(rs[1..], wake);
      if j.Some? then Some(j.value + 1) else None
  }

  /** `n` more credits of a wake, on a record of just this wake if there is one. */
  function AddRecord(r: Releases, wake: Wake, n: nat): Releases {
    var rs := r.Records();
    var previous := FindWake(rs, wake);
    if previous.Some? then
      var more := rs[previous.value := Release(wake, rs[previous.value].remaining + n)];
      Releases(more[0], more[1..], r.claims)
    else
      Releases(r.first, r.rest + [Release(wake, n)], r.claims)
  }

  lemma GrownSlots(rs: seq<Release<Wake>>, j: int, n: nat, gen: nat)
    requires 0 <= j < |rs| && RecordsBy(rs, gen)
    ensures var more := rs[j := Release(rs[j].wake, rs[j].remaining + n)];
            multiset(Expand(more)) == multiset(Expand(rs) + M.Copies(rs[j].wake, n)) && RecordsBy(more, gen)
  {
    ExpandMany(rs, j, n);
  }

  lemma PushedSlots(rs: seq<Release<Wake>>, wake: Wake, n: nat, gen: nat)
    requires RecordsBy(rs, gen) && wake.cutoff <= gen
    ensures Expand(rs + [Release(wake, n)]) == Expand(rs) + M.Copies(wake, n) && RecordsBy(rs + [Release(wake, n)], gen)
  {
  }

  lemma AddRecordSlots(r: Releases, wake: Wake, n: nat, gen: nat)
    requires RecordsBy(r.Records(), gen) && wake.cutoff <= gen
    ensures multiset(AddRecord(r, wake, n).Slots()) == multiset(r.Slots() + M.Copies(wake, n))
    ensures RecordsBy(AddRecord(r, wake, n).Records(), gen) && AddRecord(r, wake, n).claims == r.claims
  {
    var rs, added := r.Records(), AddRecord(r, wake, n);
    var previous := FindWake(rs, wake);
    if previous.Some? {
      assert added.Records() == rs[previous.value := Release(wake, rs[previous.value].remaining + n)];
      GrownSlots(rs, previous.value, n, gen);
    } else {
      assert added.Records() == rs + [Release(wake, n)];
      PushedSlots(rs, wake, n, gen);
    }
  }

  /** No wait parked in a lone wake's way since it was made, so a wake like it may be counted with it. */
  predicate Coalesces(rows: Rows, key: int, r: Releases, wake: Wake) {
    && r.claims == [] && r.rest == []
    && r.first.wake.mask == wake.mask && r.first.wake.scope == wake.scope
    && forall l :: l in rows ==>
         !IsLive(rows[l], key) || wake.mask !! rows[l].wait.value.mask
         || rows[l].wait.value.token <= r.first.wake.cutoff
  }

  lemma CoalescedReach(rows: Rows, gen: nat, key: int, r: Releases, wake: Wake)
    requires Coalesces(rows, key, r, wake)
    requires r.first.wake.cutoff <= gen && wake.cutoff == gen + 1 < U64_MAX
    ensures forall w :: w in Live(rows, key) ==> (Includes(wake, w) <==> Includes(r.first.wake, w))
  {
  }

  lemma SoundFirst(live: set<Wait>, gen: nat, h: seq<Wake>, c: set<Wait>, wake: Wake, woken: nat, n: nat)
    requires Sound(live, gen + 1, None, h, c) && RetiredBy(c, gen) && wake.cutoff == gen + 1
    requires n <= woken && (n < woken ==> |InTheWay(live, wake)| <= n)
    ensures Sound(live, gen + 1, Some(Lone(wake, n)), h + M.Copies(wake, woken), c)
  {
    LoneSlots(Lone(wake, n));
    assert [] + M.Copies(wake, n) == M.Copies(wake, n);
    SoundWoken(live, gen, None, h, c, wake, woken, n, Lone(wake, n));
  }

  lemma SoundAdded(live: set<Wait>, gen: nat, r: Releases, h: seq<Wake>, c: set<Wait>, wake: Wake, woken: nat, n: nat)
    requires Sound(live, gen + 1, Some(r), h, c) && RetiredBy(c, gen) && wake.cutoff == gen + 1
    requires n <= woken && (n < woken ==> |InTheWay(live, wake)| <= n)
    ensures Sound(live, gen + 1, Some(AddRecord(r, wake, n)), h + M.Copies(wake, woken), c)
  {
    AddRecordSlots(r, wake, n, gen + 1);
    SoundWoken(live, gen, Some(r), h, c, wake, woken, n, AddRecord(r, wake, n));
  }

  /** Adds a wake of `n` credits to the receipts of a word: to a lone record like it when nothing tells them
      apart, to a record of the same generation, else as a record of its own. */
  method RecordWake(rows: Rows, gen: nat, key: int, r: Option<Releases>, wake: Wake, n: nat, ghost woken: nat,
                    ghost h: seq<Wake>, ghost c: set<Wait>)
    returns (r': Releases)
    requires Orderly(rows, gen) && Sound(Live(rows, key), gen, r, h, c)
    requires wake.cutoff == gen + 1 < U64_MAX
    requires n <= woken && (n < woken ==> |InTheWay(Live(rows, key), wake)| <= n)
    ensures Sound(Live(rows, key), gen + 1, Some(r'), h + M.Copies(wake, woken), c)
  {
    ghost var live := Live(rows, key);
    SoundLater(live, gen, r, h, c, live, gen + 1);
    match r
    case None =>
      r' := Lone(wake, n);
      SoundFirst(live, gen, h, c, wake, woken, n);
    case Some(releases) =>
      if Coalesces(rows, key, releases, wake) {
        assert releases.Records()[0] == releases.first;
        CoalescedReach(rows, gen, key, releases, wake);
        r' := Lone(wake, releases.first.remaining + n);
        SoundCoalesced(live, gen, releases, h, c, wake, woken, n);
      } else {
        r' := AddRecord(releases, wake, n);
        SoundAdded(live, gen, releases, h, c, wake, woken, n);
      }
  }

  // ------------------------------------------------------------------------------------------
  // A parked thread returns
  // ------------------------------------------------------------------------------------------

  /** Matching with the returning wait retired tells the same of it still parked. */
  lemma SoundUncredited(live: set<Wait>, gen: nat, r: Releases, h: seq<Wake>, c: set<Wait>, w: Wait, w': Wait,
                        kept: Releases)
    requires Sound(live, gen, Some(r), h, c) && w in live && w' == w.(retired := gen + 1) && gen + 1 < U64_MAX
    requires Pruned(r.Slots(), Elements(r.claims), kept, live - {w} + {w'}) && SameWakes(kept.Records(), r.Records())
    ensures Sound(live, gen, Some(kept), h, c)
  {
    var s, k, s', k' := r.Slots(), Elements(r.claims), kept.Slots(), Elements(kept.claims);
    SoundSlots(live, gen, Some(r), h, c);
    ExpandBy(kept.Records(), gen);
    forall x | x <= live
      ensures Agree(s, k, s', k', x)
    {
      if w in x {
        var y := x - {w};
        assert Agree(s, k, s', k', y + {w'});
        RetireOne(s, gen, k + y, w, w');
        RetireOne(s', gen, k' + y, w, w');
        assert k + y + {w} == k + x && k + y + {w'} == k + (y + {w'});
        assert k' + y + {w} == k' + x && k' + y + {w'} == k' + (y + {w'});
      } else {
        assert x <= live - {w} + {w'};
      }
    }
    SoundReplaced(live, gen, Some(r), h, c, kept);
  }

  lemma ReturningReceipts(claims: seq<Wait>, w: Wait, others: seq<Wait>, gen: nat)
    requires B.NoDup(claims) && RetiredBy(Elements(claims), gen) && w.retired == gen + 1 < U64_MAX
    requires B.NoDup(others) && Parked(Elements(others))
    ensures B.NoDup(claims + ([w] + others)) && ([w] + others)[1..] == others
    ensures Elements([w] + others) == Elements(others) + {w}
  {
  }

  /** A lone record answers by what is left of it. */
  method ClaimLone(r: Releases, wait: RowWait, ghost live: set<Wait>, gen: nat, ghost h: seq<Wake>, ghost c: set<Wait>)
    returns (r': Releases, credited: bool)
    requires Sound(live, gen, Some(r), h, c) && gen + 1 < U64_MAX && Receipt(wait, U64_MAX) in live
    requires r.rest == [] && r.claims == []
    ensures credited <==> Matchable(h, c + {Receipt(wait, gen + 1)})
    ensures credited ==> Sound(live - {Receipt(wait, U64_MAX)}, gen + 1, Some(r'), h, c + {Receipt(wait, gen + 1)})
    ensures !credited ==> Sound(live, gen + 1, Some(r'), h, c)
  {
    LoneAnswer(r, wait, live, gen, h, c);
    credited := Reaches(r.first.wake, wait.token, wait.mask, wait.scope) && r.first.remaining > 0;
    if credited {
      r' := Lone(r.first.wake, r.first.remaining - 1);
      LoneCredited(r, wait, live, gen, h, c);
    } else {
      r' := r;
      SoundLater(live, gen, Some(r), h, c, live, gen + 1);
    }
  }

  lemma LoneAnswer(r: Releases, wait: RowWait, live: set<Wait>, gen: nat, h: seq<Wake>, c: set<Wait>)
    requires Sound(live, gen, Some(r), h, c) && gen + 1 < U64_MAX && Receipt(wait, U64_MAX) in live
    requires r.rest == [] && r.claims == []
    ensures Matchable(h, c + {Receipt(wait, gen + 1)})
            <==> Reaches(r.first.wake, wait.token, wait.mask, wait.scope) && r.first.remaining > 0
  {
    var w' := Receipt(wait, gen + 1);
    SameAnswer(live, gen, Some(r), h, c, Receipt(wait, U64_MAX), w');
    assert r.first == r.Records()[0];
    LoneSlots(r);
    M.MatchCopies(Includes, r.first.wake, r.first.remaining, {w'});
    assert {} + {w'} == {w'};
  }

  lemma LoneCredited(r: Releases, wait: RowWait, live: set<Wait>, gen: nat, h: seq<Wake>, c: set<Wait>)
    requires Sound(live, gen, Some(r), h, c) && gen + 1 < U64_MAX && Receipt(wait, U64_MAX) in live
    requires r.rest == [] && r.claims == []
    requires Reaches(r.first.wake, wait.token, wait.mask, wait.scope) && r.first.remaining > 0
    ensures Sound(live - {Receipt(wait, U64_MAX)}, gen + 1, Some(Lone(r.first.wake, r.first.remaining - 1)), h,
                  c + {Receipt(wait, gen + 1)})
  {
    var w, w', r' := Receipt(wait, U64_MAX), Receipt(wait, gen + 1), Lone(r.first.wake, r.first.remaining - 1);
    assert r.first == r.Records()[0];
    LoneSpent(r, w', live - {w});
    assert RecordsBy(r'.Records(), gen);
    SoundCredited(live, gen, r, h, c, w, w', r');
  }

  lemma LoneSpent(r: Releases, w: Wait, live: set<Wait>)
    requires r.rest == [] && r.claims == [] && r.first.remaining > 0 && Includes(r.first.wake, w) && w !in live
    ensures Matchable(r.Slots(), Elements(r.claims) + {w})
    ensures Equivalent(r.Slots(), Elements(r.claims) + {w}, Lone(r.first.wake, r.first.remaining - 1).Slots(),
                       Elements([]), live)
  {
    LoneSlots(r);
    LoneSlots(Lone(r.first.wake, r.first.remaining - 1));
    assert Elements(r.claims) + {w} == {w};
    M.MatchCopies(Includes, r.first.wake, r.first.remaining, {w});
    Spend(r.first.wake, r.first.remaining, w, live);
  }

  /** Whether the wait of `lineage` returned by a wake: exactly when the whole history can explain it along
      with every wait credited before. */
  method ClaimWord(rows: Rows, gen: nat, key: int, lineage: int, r: Releases, ghost h: seq<Wake>, ghost c: set<Wait>)
    returns (r': Releases, credited: bool)
    requires Orderly(rows, gen) && Sound(Live(rows, key), gen, Some(r), h, c) && gen + 1 < U64_MAX
    requires lineage in rows && IsLive(rows[lineage], key)
    ensures credited <==> Matchable(h, c + {Receipt(rows[lineage].wait.value, gen + 1)})
    ensures credited ==>
              Sound(Live(rows - {lineage}, key), gen + 1, Some(r'), h, c + {Receipt(rows[lineage].wait.value, gen + 1)})
    ensures !credited ==> Sound(Live(rows, key), gen + 1, Some(r'), h, c)
  {
    var wait := rows[lineage].wait.value;
    var w' := Receipt(wait, gen + 1);
    ghost var live, w := Live(rows, key), Receipt(wait, U64_MAX);
    LiveWithout(rows, gen, lineage, key);
    if r.rest == [] && r.claims == [] {
      r', credited := ClaimLone(r, wait, live, gen, h, c);
    } else {
      SameAnswer(live, gen, Some(r), h, c, w, w');
      var others := LiveWaits(rows - {lineage}, gen, key);
      LiveParked(rows - {lineage}, key);
      ReturningReceipts(r.claims, w', others, gen);
      r', credited := MatchCandidates(r, [w'] + others, true);
      if credited {
        SoundCredited(live, gen, r, h, c, w, w', r');
      } else {
        SoundUncredited(live, gen, r, h, c, w, w', r');
        SoundLater(live, gen, Some(r'), h, c, live, gen + 1);
      }
    }
  }
}
