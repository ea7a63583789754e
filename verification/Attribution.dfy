/**
 How the bounded receipts of a futex word stay as good as its full history: every event on the word keeps
 the two equivalent for the waits still parked there.
 */
module Attribution {
  import opened Options
  import opened WakeMatching
  import opened Credits
  import opened ReleaseMatcher
  import B = Bipartite
  import M = Matchings

  function SlotsOf(r: Option<Releases>): seq<Wake> {
    if r.Some? then r.value.Slots() else []
  }

  function ClaimsOf(r: Option<Releases>): set<Wait> {
    if r.Some? then Elements(r.value.claims) else {}
  }

  /** Every slot was made by generation `gen`. */
  predicate By(slots: seq<Wake>, gen: nat) {
    forall i :: 0 <= i < |slots| ==> slots[i].cutoff <= gen
  }

  predicate RecordsBy(rs: seq<Release<Wake>>, gen: nat) {
    forall i :: 0 <= i < |rs| ==> rs[i].wake.cutoff <= gen
  }

  lemma {:induction false} ExpandBy(rs: seq<Release<Wake>>, gen: nat)
    requires RecordsBy(rs, gen)
    ensures By(Expand(rs), gen)
    decreases |rs|
  {
    if rs != [] {
      ExpandBy(rs[..|rs| - 1], gen);
    }
  }

  predicate RetiredBy(ws: set<Wait>, gen: nat) {
    forall w :: w in ws ==> w.retired <= gen
  }

  predicate Parked(ws: set<Wait>) {
    forall w :: w in ws ==> w.retired == U64_MAX
  }

  // ------------------------------------------------------------------------------------------
  // Equivalence
  // ------------------------------------------------------------------------------------------

  lemma Chain(h: seq<Wake>, c: set<Wait>, s: seq<Wake>, k: set<Wait>, s': seq<Wake>, k': set<Wait>, live: set<Wait>)
    requires Equivalent(h, c, s, k, live) && Equivalent(s, k, s', k', live)
    ensures Equivalent(h, c, s', k', live)
  {
  }

  /** A wait younger than every slot changes nothing. */
  lemma NewWait(h: seq<Wake>, c: set<Wait>, s: seq<Wake>, k: set<Wait>, live: set<Wait>, w: Wait, gen: nat)
    requires Equivalent(h, c, s, k, live) && By(h, gen) && By(s, gen) && w.token > gen
    ensures Equivalent(h, c, s, k, live + {w})
  {
  }

  // ------------------------------------------------------------------------------------------
  // A wake
  // ------------------------------------------------------------------------------------------

  /** The parked waits a wake can have reached. */
  ghost function InTheWay(live: set<Wait>, wake: Wake): set<Wait> {
    set w | w in live && Includes(wake, w)
  }

  /** Of waits matched with `n` slots added, those the added ones explain. */
  lemma TakeFromAdded(h: seq<Wake>, c: set<Wait>, wake: Wake, h': seq<Wake>, n: nat, x: set<Wait>)
    returns (y: set<Wait>)
    requires M.Extends(h', h, wake, n) && Matchable(h', c + x)
    requires forall w :: w in c ==> !Includes(wake, w)
    ensures y <= x && y !! c && |y| <= n && (forall w :: w in y ==> Includes(wake, w))
    ensures Matchable(h, c + (x - y))
  {
    y := M.SplitAdded(Includes, h', h, wake, n, c + x);
    assert c + x - y == c + (x - y);
  }

  /** One direction of `NewWake`. */
  lemma WakeOneWay(h: seq<Wake>, c: set<Wait>, s: seq<Wake>, k: set<Wait>, live: set<Wait>, wake: Wake,
                   h': seq<Wake>, n: nat, s': seq<Wake>, n': nat, x: set<Wait>)
    requires Equivalent(h, c, s, k, live) && x <= live && k !! live
    requires M.Extends(h', h, wake, n) && M.Extends(s', s, wake, n')
    requires forall w :: w in c ==> !Includes(wake, w)
    requires n <= n' || |InTheWay(live, wake)| <= n'
    requires Matchable(h', c + x)
    ensures Matchable(s', k + x)
  {
    var y := TakeFromAdded(h, c, wake, h', n, x);
    B.SubsetSize(y, InTheWay(live, wake));
    assert Agree(h, c, s, k, x - y);
    Regroup(k, x, y);
    M.JoinAdded(Includes, s', s, wake, n', k + (x - y), y);
  }

  lemma Regroup(k: set<Wait>, x: set<Wait>, y: set<Wait>)
    requires y <= x && k !! x
    ensures k + (x - y) + y == k + x && k + (x - y) !! y
  {
  }

  /** A wake that reached `n` waiters, recorded for as many of them as are parked in its way. */
  lemma NewWake(h: seq<Wake>, c: set<Wait>, s: seq<Wake>, k: set<Wait>, live: set<Wait>, wake: Wake,
                h': seq<Wake>, n: nat, s': seq<Wake>, n': nat)
    requires Equivalent(h, c, s, k, live) && c !! live && k !! live
    requires M.Extends(h', h, wake, n) && M.Extends(s', s, wake, n')
    requires forall w :: w in c + k ==> !Includes(wake, w)
    requires n' <= n
    requires n' < n ==> |InTheWay(live, wake)| <= n'
    ensures Equivalent(h', c, s', k, live)
  {
    forall x | x <= live
      ensures Agree(h', c, s', k, x)
    {
      if Matchable(h', c + x) {
        WakeOneWay(h, c, s, k, live, wake, h', n, s', n', x);
      }
      if Matchable(s', k + x) {
        Turn(h, c, s, k, live);
        WakeOneWay(s, k, h, c, live, wake, s', n', h', n, x);
      }
    }
  }

  lemma Turn(h: seq<Wake>, c: set<Wait>, s: seq<Wake>, k: set<Wait>, live: set<Wait>)
    requires Equivalent(h, c, s, k, live)
    ensures Equivalent(s, k, h, c, live)
  {
  }

  // ------------------------------------------------------------------------------------------
  // A single record nothing has claimed
  // ------------------------------------------------------------------------------------------

  /** Moving a lone record's generation on reaches the same parked waits when none parked between. */
  lemma Restamp(wake: Wake, wake': Wake, n: nat, live: set<Wait>)
    requires forall w :: w in live ==> (Includes(wake, w) <==> Includes(wake', w))
    ensures Equivalent(M.Copies(wake, n), {}, M.Copies(wake', n), {}, live)
  {
    forall x | x <= live
      ensures Agree(M.Copies(wake, n), {}, M.Copies(wake', n), {}, x)
    {
      M.MatchCopies(Includes, wake, n, {} + x);
      M.MatchCopies(Includes, wake', n, {} + x);
    }
  }

  /** A lone record needs no more credits than there are waits in its way. */
  lemma Trim(wake: Wake, n: nat, n': nat, live: set<Wait>)
    requires n' <= n && (n' < n ==> |InTheWay(live, wake)| <= n')
    ensures Equivalent(M.Copies(wake, n), {}, M.Copies(wake, n'), {}, live)
  {
    forall x | x <= live
      ensures Agree(M.Copies(wake, n), {}, M.Copies(wake, n'), {}, x)
    {
      M.MatchCopies(Includes, wake, n, {} + x);
      M.MatchCopies(Includes, wake, n', {} + x);
      if forall w :: w in {} + x ==> Includes(wake, w) {
        B.SubsetSize({} + x, InTheWay(live, wake));
      }
    }
  }

  /** Crediting a wait to a lone record uses up one of its credits. */
  lemma Spend(wake: Wake, n: nat, c: Wait, live: set<Wait>)
    requires n > 0 && Includes(wake, c) && c !in live
    ensures Equivalent(M.Copies(wake, n), {c}, M.Copies(wake, n - 1), {}, live)
  {
    forall x | x <= live
      ensures Agree(M.Copies(wake, n), {c}, M.Copies(wake, n - 1), {}, x)
    {
      M.MatchCopies(Includes, wake, n, {c} + x);
      M.MatchCopies(Includes, wake, n - 1, {} + x);
      assert |{c} + x| == 1 + |x| && {} + x == x;
    }
  }

  // ------------------------------------------------------------------------------------------
  // A wait is credited
  // ------------------------------------------------------------------------------------------

  /** Retiring a parked wait after every slot was made changes which slots it can use not at all. */
  lemma RetireOne(slots: seq<Wake>, gen: nat, c: set<Wait>, w: Wait, w': Wait)
    requires By(slots, gen) && gen < w'.retired && gen < U64_MAX
    requires w.retired == U64_MAX && w' == w.(retired := w'.retired)
    requires w !in c && w' !in c
    ensures Matchable(slots, c + {w}) <==> Matchable(slots, c + {w'})
  {
    if Matchable(slots, c + {w}) {
      M.Renamed(Includes, slots, c, w, w');
    }
    if Matchable(slots, c + {w'}) {
      M.Renamed(Includes, slots, c, w', w);
    }
  }

  /** Crediting `w`, retired as `w'`, moves it from the parked waits to the credited ones on both sides. */
  lemma Credit(h: seq<Wake>, c: set<Wait>, s: seq<Wake>, k: set<Wait>, live: set<Wait>, w: Wait, w': Wait, gen: nat)
    requires Equivalent(h, c, s, k, live) && By(h, gen) && By(s, gen)
    requires gen < w'.retired && gen < U64_MAX && w in live && Parked(live)
    requires w' == w.(retired := w'.retired) && w' !in c && w' !in k && w' !in live && c !! live && k !! live
    ensures Equivalent(h, c + {w'}, s, k + {w'}, live - {w})
    ensures Matchable(h, c + {w'}) <==> Matchable(s, k + {w'})
  {
    forall x | x <= live - {w}
      ensures Agree(h, c + {w'}, s, k + {w'}, x)
    {
      assert Agree(h, c, s, k, x + {w});
      RetireOne(h, gen, c + x, w, w');
      RetireOne(s, gen, k + x, w, w');
      assert c + x + {w} == c + (x + {w}) && c + x + {w'} == c + {w'} + x;
      assert k + x + {w} == k + (x + {w}) && k + x + {w'} == k + {w'} + x;
    }
    assert Agree(h, c + {w'}, s, k + {w'}, {});
    assert c + {w'} + {} == c + {w'} && k + {w'} + {} == k + {w'};
  }

  // ------------------------------------------------------------------------------------------
  // One word
  // ------------------------------------------------------------------------------------------

  /** The receipts `r` of a word answer, for the waits parked there, as its whole history `h` of wakes
      and `c` of credited waits does. */
  ghost predicate Sound(live: set<Wait>, gen: nat, r: Option<Releases>, h: seq<Wake>, c: set<Wait>) {
    && gen < U64_MAX && Parked(live) && RetiredBy(c, gen) && By(h, gen)
    && (r.Some? ==> RecordsBy(r.value.Records(), gen) && B.NoDup(r.value.claims))
    && ClaimsOf(r) <= c
    && Matchable(SlotsOf(r), ClaimsOf(r))
    && Equivalent(h, c, SlotsOf(r), ClaimsOf(r), live)
  }

  /** Receipts are kept only while a parked wait can still take one. */
  ghost predicate Useful(live: set<Wait>, r: Option<Releases>) {
    r.Some? ==> exists w :: w in live && Matchable(SlotsOf(r), ClaimsOf(r) + {w})
  }

  lemma SoundSlots(live: set<Wait>, gen: nat, r: Option<Releases>, h: seq<Wake>, c: set<Wait>)
    requires Sound(live, gen, r, h, c)
    ensures By(SlotsOf(r), gen) && c !! live && ClaimsOf(r) !! live
    ensures Matchable(h, c)
  {
    if r.Some? {
      ExpandBy(r.value.Records(), gen);
    }
    assert Agree(h, c, SlotsOf(r), ClaimsOf(r), {});
    assert c + {} == c && ClaimsOf(r) + {} == ClaimsOf(r);
  }

  lemma NeverUsed(live: set<Wait>, gen: nat)
    requires gen < U64_MAX && Parked(live)
    ensures Sound(live, gen, None, [], {})
  {
    M.NothingToMatch<Wake, Wait>(Includes, []);
  }

  /** Waits leave, generations pass. */
  lemma SoundLater(live: set<Wait>, gen: nat, r: Option<Releases>, h: seq<Wake>, c: set<Wait>, fewer: set<Wait>,
                   later: nat)
    requires Sound(live, gen, r, h, c) && fewer <= live && gen <= later < U64_MAX
    ensures Sound(fewer, later, r, h, c)
  {
  }

  /** A wait parks, under a generation of its own. */
  lemma SoundParked(live: set<Wait>, gen: nat, r: Option<Releases>, h: seq<Wake>, c: set<Wait>, w: Wait)
    requires Sound(live, gen, r, h, c) && gen < w.token < U64_MAX && w.retired == U64_MAX
    ensures Sound(live + {w}, w.token, r, h, c)
  {
    SoundSlots(live, gen, r, h, c);
    NewWait(h, c, SlotsOf(r), ClaimsOf(r), live, w, gen);
  }

  /** Receipts replaced by equivalent ones. */
  lemma SoundReplaced(live: set<Wait>, gen: nat, r: Option<Releases>, h: seq<Wake>, c: set<Wait>, r': Releases)
    requires Sound(live, gen, r, h, c)
    requires Equivalent(SlotsOf(r), ClaimsOf(r), r'.Slots(), Elements(r'.claims), live)
    requires RecordsBy(r'.Records(), gen) && B.NoDup(r'.claims) && Elements(r'.claims) <= c
    ensures Sound(live, gen, Some(r'), h, c)
  {
    Chain(h, c, SlotsOf(r), ClaimsOf(r), r'.Slots(), Elements(r'.claims), live);
    assert Agree(SlotsOf(r), ClaimsOf(r), r'.Slots(), Elements(r'.claims), {});
    assert ClaimsOf(r) + {} == ClaimsOf(r) && Elements(r'.claims) + {} == Elements(r'.claims);
  }

  /** A lone record trimmed to the waits in its way. */
  lemma SoundTrimmed(live: set<Wait>, gen: nat, r: Releases, h: seq<Wake>, c: set<Wait>, n: nat)
    requires Sound(live, gen, Some(r), h, c) && r.rest == [] && r.claims == []
    requires n <= r.first.remaining && (n < r.first.remaining ==> |InTheWay(live, r.first.wake)| <= n)
    ensures Sound(live, gen, Some(Lone(r.first.wake, n)), h, c)
  {
    LoneSlots(r);
    LoneSlots(Lone(r.first.wake, n));
    Trim(r.first.wake, r.first.remaining, n, live);
    SoundReplaced(live, gen, Some(r), h, c, Lone(r.first.wake, n));
  }

  function Lone(wake: Wake, n: nat): Releases {
    Releases(Release(wake, n), [], [])
  }

  lemma LoneSlots(r: Releases)
    requires r.rest == [] && r.claims == []
    ensures r.Slots() == M.Copies(r.first.wake, r.first.remaining) && Elements(r.claims) == {}
  {
    assert r.Records() == [r.first];
    ExpandOne(r.first);
  }

  /** The result of matching put in place of what was matched. */
  lemma SoundPruned(live: set<Wait>, gen: nat, r: Releases, h: seq<Wake>, c: set<Wait>, kept: Releases)
    requires Sound(live, gen, Some(r), h, c)
    requires Pruned(r.Slots(), Elements(r.claims), kept, live) && SameWakes(kept.Records(), r.Records())
    ensures Sound(live, gen, Some(kept), h, c)
  {
    SoundReplaced(live, gen, Some(r), h, c, kept);
  }

  // ------------------------------------------------------------------------------------------
  // retain
  // ------------------------------------------------------------------------------------------

  /** Drops records with no credit left; `None` when that is all of them. */
  function Retain(r: Releases): Option<Releases> {
    var rest := Retained(r.rest);
    if r.first.remaining > 0 then Some(Releases(r.first, rest, r.claims))
    else if rest == [] then None
    else Some(Releases(rest[0], rest[1..], r.claims))
  }

  /** `retain` is the records that still have a credit, in order. */
  lemma RetainRecords(r: Releases)
    ensures Retain(r).None? <==> Retained(r.Records()) == []
    ensures Retain(r).Some? ==> Retain(r).value.Records() == Retained(r.Records()) && Retain(r).value.claims == r.claims
  {
    RetainedFirst(r.first, r.rest);
  }

  /** Only records that hold no slot go. */
  lemma RetainSlots(r: Releases)
    ensures Retain(r).None? <==> r.Slots() == []
    ensures SlotsOf(Retain(r)) == r.Slots()
    ensures Retain(r).Some? ==> Retain(r).value.claims == r.claims && AllRemain(Retain(r).value.Records())
  {
    var kept := Retained(r.Records());
    RetainRecords(r);
    RetainedExpand(r.Records());
    RetainedRemain(r.Records());
    if kept != [] {
      RemainsExpand(kept);
    }
  }

  lemma RetainBy(r: Releases, gen: nat)
    requires Retain(r).Some? && RecordsBy(r.Records(), gen)
    ensures RecordsBy(Retain(r).value.Records(), gen)
  {
    RetainRecords(r);
    RetainedRemain(r.Records());
    var kept := Retained(r.Records());
    forall i | 0 <= i < |kept|
      ensures kept[i].wake.cutoff <= gen
    {
      assert kept[i] in r.Records();
    }
  }

  lemma SoundRetained(live: set<Wait>, gen: nat, r: Releases, h: seq<Wake>, c: set<Wait>)
    requires Sound(live, gen, Some(r), h, c) && (r.Slots() == [] ==> r.claims == [])
    ensures Sound(live, gen, Retain(r), h, c)
  {
    RetainSlots(r);
    if Retain(r).Some? {
      RetainBy(r, gen);
    } else {
      assert Elements(r.claims) == {};
    }
  }

  // ------------------------------------------------------------------------------------------
  // A wake reaches the word
  // ------------------------------------------------------------------------------------------

  /** A lone record takes the new wake in, moving its generation on. */
  lemma SoundCoalesced(live: set<Wait>, gen: nat, r: Releases, h: seq<Wake>, c: set<Wait>, wake: Wake, n: nat, n': nat)
    requires Sound(live, gen, Some(r), h, c) && r.rest == [] && r.claims == []
    requires wake == r.first.wake.(cutoff := gen + 1) && gen + 1 < U64_MAX
    requires forall w :: w in live ==> (Includes(wake, w) <==> Includes(r.first.wake, w))
    requires n' <= n && (n' < n ==> |InTheWay(live, wake)| <= n')
    ensures Sound(live, gen + 1, Some(Lone(wake, r.first.remaining + n')), h + M.Copies(wake, n), c)
  {
    var m := r.first.remaining;
    SoundRestamped(live, gen, r, h, c, wake);
    LoneGrown(wake, m, n');
    SoundWoken(live, gen, Some(Lone(wake, m)), h, c, wake, n, n', Lone(wake, m + n'));
  }

  lemma LoneGrown(wake: Wake, m: nat, n: nat)
    ensures multiset(Lone(wake, m + n).Slots()) == multiset(SlotsOf(Some(Lone(wake, m))) + M.Copies(wake, n))
    ensures Elements(Lone(wake, m + n).claims) == ClaimsOf(Some(Lone(wake, m)))
    ensures RecordsBy(Lone(wake, m + n).Records(), wake.cutoff)
  {
    assert Lone(wake, m + n).Slots() == Lone(wake, m).Slots() + M.Copies(wake, n);
  }

  lemma SoundRestamped(live: set<Wait>, gen: nat, r: Releases, h: seq<Wake>, c: set<Wait>, wake: Wake)
    requires Sound(live, gen, Some(r), h, c) && r.rest == [] && r.claims == [] && wake.cutoff <= gen + 1 < U64_MAX
    requires forall w :: w in live ==> (Includes(wake, w) <==> Includes(r.first.wake, w))
    ensures Sound(live, gen + 1, Some(Lone(wake, r.first.remaining)), h, c)
  {
    LoneSlots(r);
    LoneSlots(Lone(wake, r.first.remaining));
    Restamp(r.first.wake, wake, r.first.remaining, live);
    SoundLater(live, gen, Some(r), h, c, live, gen + 1);
    SoundReplaced(live, gen + 1, Some(r), h, c, Lone(wake, r.first.remaining));
  }

  /** The new wake is recorded, in a record of its own or one like it. */
  lemma SoundWoken(live: set<Wait>, gen: nat, r: Option<Releases>, h: seq<Wake>, c: set<Wait>, wake: Wake,
                   n: nat, n': nat, r': Releases)
    requires Sound(live, gen + 1, r, h, c) && RetiredBy(c, gen) && wake.cutoff == gen + 1
    requires n' <= n && (n' < n ==> |InTheWay(live, wake)| <= n')
    requires multiset(r'.Slots()) == multiset(SlotsOf(r) + M.Copies(wake, n')) && Elements(r'.claims) == ClaimsOf(r)
    requires RecordsBy(r'.Records(), gen + 1) && B.NoDup(r'.claims)
    ensures Sound(live, gen + 1, Some(r'), h + M.Copies(wake, n), c)
  {
    var s, k := SlotsOf(r), ClaimsOf(r);
    SoundSlots(live, gen + 1, r, h, c);
    NewWake(h, c, s, k, live, wake, h + M.Copies(wake, n), n, s + M.Copies(wake, n'), n');
    forall x
      ensures Matchable(s + M.Copies(wake, n'), k + x) <==> Matchable(r'.Slots(), Elements(r'.claims) + x)
    {
      SameSlots(s + M.Copies(wake, n'), r'.Slots(), k + x);
    }
    forall x | x <= live
      ensures Agree(h + M.Copies(wake, n), c, r'.Slots(), Elements(r'.claims), x)
    {
      assert Agree(h + M.Copies(wake, n), c, s + M.Copies(wake, n'), k, x);
    }
    assert multiset(s) <= multiset(r'.Slots());
    M.MoreSlots(Includes, s, r'.Slots(), k);
  }

  /** A wake nobody parked is in the way of. */
  lemma SoundUnheard(live: set<Wait>, gen: nat, r: Option<Releases>, h: seq<Wake>, c: set<Wait>, wake: Wake, n: nat)
    requires Sound(live, gen, r, h, c) && wake.cutoff == gen && InTheWay(live, wake) == {}
    ensures Sound(live, gen, r, h + M.Copies(wake, n), c)
  {
    SoundSlots(live, gen, r, h, c);
    var s, k := SlotsOf(r), ClaimsOf(r);
    NewWake(h, c, s, k, live, wake, h + M.Copies(wake, n), n, s, 0);
  }

  // ------------------------------------------------------------------------------------------
  // A wait returns
  // ------------------------------------------------------------------------------------------

  /** Whether a wait can be credited is the same question asked of the receipts. */
  lemma SameAnswer(live: set<Wait>, gen: nat, r: Option<Releases>, h: seq<Wake>, c: set<Wait>, w: Wait, w': Wait)
    requires Sound(live, gen, r, h, c) && w in live && w' == w.(retired := gen + 1) && gen + 1 < U64_MAX
    ensures Matchable(h, c + {w'}) <==> Matchable(SlotsOf(r), ClaimsOf(r) + {w'})
    ensures Equivalent(h, c + {w'}, SlotsOf(r), ClaimsOf(r) + {w'}, live - {w})
  {
    SoundSlots(live, gen, r, h, c);
    Credit(h, c, SlotsOf(r), ClaimsOf(r), live, w, w', gen);
  }

  /** The wait is credited, and the receipts are those left once it is. */
  lemma SoundCredited(live: set<Wait>, gen: nat, r: Releases, h: seq<Wake>, c: set<Wait>, w: Wait, w': Wait,
                      r': Releases)
    requires Sound(live, gen, Some(r), h, c) && w in live && w' == w.(retired := gen + 1) && gen + 1 < U64_MAX
    requires Matchable(r.Slots(), Elements(r.claims) + {w'})
    requires Equivalent(r.Slots(), Elements(r.claims) + {w'}, r'.Slots(), Elements(r'.claims), live - {w})
    requires RecordsBy(r'.Records(), gen) && B.NoDup(r'.claims) && Elements(r'.claims) <= Elements(r.claims) + {w'}
    ensures Sound(live - {w}, gen + 1, Some(r'), h, c + {w'})
  {
    SameAnswer(live, gen, Some(r), h, c, w, w');
    var k, k' := Elements(r.claims) + {w'}, Elements(r'.claims);
    Chain(h, c + {w'}, r.Slots(), k, r'.Slots(), k', live - {w});
    assert Agree(r.Slots(), k, r'.Slots(), k', {});
    assert k + {} == k && k' + {} == k';
  }
}
