/**
 The census's futex accounting: which parked threads a wake has released. Whatever calls are made, in
 whatever order, it answers as the history it has long forgotten would.
 */
module Census {
  import opened Options
  import opened Choosing
  import opened WakeMatching
  import opened ReleaseMatcher
  import opened Attribution
  import opened FutexHistory
  import opened FutexCensus
  import M = Matchings
  import Tally

  function Lookup(signalled: map<int, Releases>, key: int): Option<Releases> {
    if key in signalled then Some(signalled[key]) else None
  }

  // ------------------------------------------------------------------------------------------
  // The invariant
  // ------------------------------------------------------------------------------------------

  /** The receipts of the word answer as its history does. */
  ghost predicate SoundAt(h: History, signalled: map<int, Releases>, key: int) {
    Sound(Live(h.rows, key), h.generation, Lookup(signalled, key), h.WakesOn(key), h.CreditedOn(key))
  }

  /** ... and are kept only while they can still matter. */
  ghost predicate HeldAt(h: History, signalled: map<int, Releases>, key: int) {
    WordOk(h.rows, h.generation, key, Lookup(signalled, key), h.WakesOn(key), h.CreditedOn(key))
  }

  ghost predicate Faithful(h: History, signalled: map<int, Releases>) {
    h.generation < U64_MAX && Orderly(h.rows, h.generation) && forall key :: HeldAt(h, signalled, key)
  }

  /** ... on every word but one, perhaps, that may keep more than can matter. */
  ghost predicate AllBut(h: History, signalled: map<int, Releases>, word: Option<int>) {
    && h.generation < U64_MAX && Orderly(h.rows, h.generation)
    && (word.Some? ==> SoundAt(h, signalled, word.value))
    && forall key :: word != Some(key) ==> HeldAt(h, signalled, key)
  }

  // ------------------------------------------------------------------------------------------
  // One row changes
  // ------------------------------------------------------------------------------------------

  predicate LiveOn(rows: Rows, l: int, key: int) {
    l in rows && IsLive(rows[l], key)
  }

  /** The word a thread waits on. */
  function WordOf(rows: Rows, l: int): Option<int> {
    if l in rows && rows[l].wait.Some? then rows[l].wait.value.key else None
  }

  /** A wait either begins under a generation of its own or is the thread's own, off its word. */
  predicate Fits(rows: Rows, gen: nat, l: int, row: Row, now: nat) {
    && gen <= now
    && (row.wait.Some? ==>
          && row.kind.Participant?
          && ((gen < now && row.wait.value.token == now)
              || (l in rows && SameToken(rows[l], row) && (row.wait.value.key.None? || row.wait.value.claimed))))
  }

  lemma OrderlyChanged(rows: Rows, gen: nat, l: int, row: Row, now: nat)
    requires Orderly(rows, gen) && Fits(rows, gen, l, row, now)
    ensures Orderly(rows[l := row], now)
  {
  }

  lemma WordChanged(h: History, signalled: map<int, Releases>, l: int, row: Row, now: nat, key: int)
    requires Faithful(h, signalled) && Fits(h.rows, h.generation, l, row, now) && now < U64_MAX
    ensures SoundAt(h.(rows := h.rows[l := row], generation := now), signalled, key)
    ensures !LiveOn(h.rows, l, key) ==> HeldAt(h.(rows := h.rows[l := row], generation := now), signalled, key)
  {
    var r, wakes, credited := Lookup(signalled, key), h.WakesOn(key), h.CreditedOn(key);
    var live, without := Live(h.rows, key), Live(h.rows - {l}, key);
    assert HeldAt(h, signalled, key);
    if LiveOn(h.rows, l, key) {
      LiveWithout(h.rows, h.generation, l, key);
    } else {
      LiveRemoved(h.rows, l, key);
    }
    if IsLive(row, key) {
      SoundLater(live, h.generation, r, wakes, credited, without, h.generation);
      LiveAdded(h.rows, l, row, key);
      SoundParked(without, h.generation, r, wakes, credited, Receipt(row.wait.value, U64_MAX));
    } else {
      LiveReplaced(h.rows, l, row, key);
      SoundLater(live, h.generation, r, wakes, credited, without, now);
    }
  }

  lemma RowChanged(h: History, signalled: map<int, Releases>, l: int, row: Row, h': History)
    requires Faithful(h, signalled) && Fits(h.rows, h.generation, l, row, h'.generation) && h'.generation < U64_MAX
    requires h' == h.(rows := h.rows[l := row], generation := h'.generation)
    ensures AllBut(h', signalled, WordOf(h.rows, l))
  {
    OrderlyChanged(h.rows, h.generation, l, row, h'.generation);
    forall key
      ensures SoundAt(h', signalled, key) && (!LiveOn(h.rows, l, key) ==> HeldAt(h', signalled, key))
    {
      WordChanged(h, signalled, l, row, h'.generation, key);
    }
  }

  lemma RowRemoved(h: History, signalled: map<int, Releases>, l: int, h': History)
    requires Faithful(h, signalled) && h' == h.(rows := h.rows - {l})
    ensures AllBut(h', signalled, WordOf(h.rows, l))
  {
    assert forall k :: k in h'.rows ==> h'.rows[k] == h.rows[k];
    forall key
      ensures SoundAt(h', signalled, key) && (!LiveOn(h.rows, l, key) ==> HeldAt(h', signalled, key))
    {
      assert HeldAt(h, signalled, key);
      if LiveOn(h.rows, l, key) {
        LiveWithout(h.rows, h.generation, l, key);
        SoundLater(Live(h.rows, key), h.generation, Lookup(signalled, key), h.WakesOn(key), h.CreditedOn(key),
                   Live(h'.rows, key), h.generation);
      } else {
        LiveRemoved(h.rows, l, key);
      }
    }
  }

  /** The receipts of the word a thread waits on can still matter without it. */
  ghost predicate HeldWithout(rows: Rows, l: int, signalled: map<int, Releases>) {
    var word := WordOf(rows, l);
    word.Some? ==> Useful(Live(rows - {l}, word.value), Lookup(signalled, word.value))
  }

  /** A row off every word put in its place keeps the invariant exactly when they can. */
  lemma RowReplaced(h: History, signalled: map<int, Releases>, l: int, row: Row, h': History)
    requires Faithful(h, signalled) && AllBut(h', signalled, WordOf(h.rows, l)) && row.wait.None?
    requires h' == h.(rows := h.rows[l := row])
    ensures Faithful(h', signalled) <==> HeldWithout(h.rows, l, signalled)
  {
    var word := WordOf(h.rows, l);
    if word.Some? {
      LiveReplaced(h.rows, l, row, word.value);
      assert HeldAt(h, signalled, word.value);
      assert HeldAt(h', signalled, word.value) <==> HeldWithout(h.rows, l, signalled);
    }
  }

  /** How many rows are flagged as released moves with the row that changes. */
  lemma ReadyChanged(rows: Rows, l: int, row: Row)
    ensures |Ready(rows[l := row])|
            == |Ready(rows)| - (if l in rows && Flagged(rows[l]) then 1 else 0) + (if Flagged(row) then 1 else 0)
  {
    Tally.Changed(rows, l, row, Flagged);
  }

  lemma ReadyRemoved(rows: Rows, l: int)
    ensures |Ready(rows - {l})| == |Ready(rows)| - (if l in rows && Flagged(rows[l]) then 1 else 0)
  {
    Tally.Removed(rows, l, Flagged);
  }

  /** Marking rows overtaken leaves every wait where it is. */
  predicate SameWaits(rows: Rows, after: Rows) {
    && rows.Keys == after.Keys
    && forall l {:trigger after[l]} :: l in rows ==> after[l] == rows[l] || after[l] == MarkPreReleased(rows[l])
  }

  lemma RowsMarked(h: History, signalled: map<int, Releases>, h': History)
    requires Faithful(h, signalled) && SameWaits(h.rows, h'.rows) && h' == h.(rows := h'.rows)
    ensures Faithful(h', signalled)
  {
    forall key
      ensures HeldAt(h', signalled, key)
    {
      assert HeldAt(h, signalled, key);
      SameLive(h.rows, h'.rows, key);
    }
    forall l | l in h'.rows && h'.rows[l].wait.Some?
      ensures h.rows[l].wait.Some? && h'.rows[l].kind == h.rows[l].kind && SameToken(h.rows[l], h'.rows[l])
    {
    }
    forall k, l | k in h'.rows && l in h'.rows && SameToken(h'.rows[k], h'.rows[l])
      ensures k == l
    {
      assert SameToken(h.rows[k], h.rows[l]);
    }
  }

  lemma SameLive(rows: Rows, after: Rows, key: int)
    requires SameWaits(rows, after)
    ensures Live(after, key) == Live(rows, key)
  {
  }

  // ------------------------------------------------------------------------------------------
  // The accounting
  // ------------------------------------------------------------------------------------------

  class Core {
    var rows: Rows
    var signalled: map<int, Releases>
    var waitToken: nat
    var readyRows: nat
    ghost var wakes: map<int, seq<Wake>>
    ghost var credited: map<int, set<Wait>>

    /** What really happened. */
    ghost function Past(): History
      reads this
    {
      History(rows, waitToken, wakes, credited)
    }

    ghost predicate Valid()
      reads this
    {
      Faithful(Past(), signalled) && readyRows == |Ready(rows)|
    }

    constructor ()
      ensures Valid() && Past() == History(map[], 0, map[], map[])
    {
      rows, signalled, waitToken, readyRows := map[], map[], 0, 0;
      wakes, credited := map[], map[];
      new;
      forall key
        ensures HeldAt(Past(), signalled, key)
      {
        NeverUsed({}, 0);
        assert Live(rows, key) == {};
      }
    }

    /** Retires what can no longer matter of the word's receipts. */
    method PruneReleases(key: int)
      requires AllBut(Past(), signalled, Some(key))
      modifies this`signalled
      ensures Faithful(Past(), signalled)
    {
      ghost var before := signalled;
      if key in signalled {
        var kept := PruneWord(rows, waitToken, key, signalled[key], Past().WakesOn(key), Past().CreditedOn(key));
        match kept
        case Some(releases) => signalled := signalled[key := releases];
        case None => signalled := signalled - {key};
        assert Lookup(signalled, key) == kept;
      }
      forall k | k != key
        ensures HeldAt(Past(), signalled, k)
      {
        assert HeldAt(Past(), before, k) && Lookup(signalled, k) == Lookup(before, k);
      }
    }

    /** Prunes the word a thread has left, if it waited on one. */
    method PruneLeft(word: Option<int>)
      requires AllBut(Past(), signalled, word)
      modifies this`signalled
      ensures Faithful(Past(), signalled)
    {
      if word.Some? {
        PruneReleases(word.value);
      }
    }

    /** Sets a thread's wait, returning the one it replaced and retiring what it alone kept. */
    method SetWaiting(l: int, wait: Option<RowWait>) returns (previous: Option<RowWait>)
      requires Valid() && waitToken + 1 < U64_MAX
      requires wait.Some? ==>
                 !wait.value.preReleased && !wait.value.claimed && (l in rows ==> rows[l].kind.Participant?)
      modifies this
      ensures Valid() && Past() == old(Past()).Waits(l, wait)
      ensures previous == if l in old(rows) then old(rows[l].wait) else None
    {
      ghost var h := Past();
      var now := if wait.Some? then waitToken + 1 else waitToken;
      waitToken := now;
      if l !in rows {
        Unseated(h, signalled, Past());
        return None;
      }
      previous := rows[l].wait;
      var row := rows[l].(wait := Stamped(wait, now));
      ReadyChanged(rows, l, row);
      rows := rows[l := row];
      RowChanged(h, signalled, l, row, Past());
      if previous.Some? && (previous.value.preReleased || previous.value.claimed) {
        readyRows := readyRows - 1;
      }
      PruneLeft(if previous.Some? then previous.value.key else None);
    }

    /** A wake the kernel says reached `n` waiters on the word. */
    method Signal(key: int, n: nat, mask: Mask, scope: Option<bool>)
      requires Valid() && waitToken + 1 < U64_MAX
      modifies this
      ensures Valid() && Past() == old(Past()).Signal(key, n, mask, scope)
    {
      ghost var h := Past();
      var hearers := Hearers(rows, key, mask, scope);
      if n == 0 || hearers == {} {
        wakes := wakes[key := h.WakesOn(key) + M.Copies(Wake(mask, scope, waitToken), n)];
        Unheard(h, signalled, key, n, mask, scope, Past());
        return;
      }
      var eligible := |hearers|;
      var remaining := if n < eligible then n else eligible;
      HearersBound(rows, waitToken, key, Wake(mask, scope, waitToken + 1), hearers);
      Record(key, Wake(mask, scope, waitToken + 1), remaining, n);
    }

    /** Enters a wake of `remaining` credits, for the `n` waiters it reached. */
    method Record(key: int, wake: Wake, remaining: nat, ghost n: nat)
      requires Valid() && wake.cutoff == waitToken + 1 < U64_MAX
      requires remaining <= n && (remaining < n ==> |InTheWay(Live(rows, key), wake)| <= remaining)
      modifies this
      ensures Valid() && rows == old(rows) && waitToken == old(waitToken) + 1 && credited == old(credited)
      ensures wakes == old(wakes)[key := old(Past()).WakesOn(key) + M.Copies(wake, n)]
    {
      ghost var h := Past();
      assert HeldAt(h, signalled, key);
      var releases := RecordWake(rows, waitToken, key, Lookup(signalled, key), wake, remaining, n,
                                 h.WakesOn(key), h.CreditedOn(key));
      waitToken := waitToken + 1;
      wakes := wakes[key := h.WakesOn(key) + M.Copies(wake, n)];
      Woken(h, signalled, key, wake, n, releases, Past(), signalled[key := releases]);
      signalled := signalled[key := releases];
      PruneReleases(key);
    }

    /** A `FUTEX_WAKE` that returned `count`; one that reached nobody ends the waits its word moved past. */
    method SignalFutex(key: int, count: int, mask: Mask, private: bool, word: Option<int>)
      requires Valid() && waitToken + 1 < U64_MAX
      modifies this
      ensures Valid() && Past() == old(Past()).SignalFutex(key, count, mask, private, word)
    {
      if count > 0 {
        Signal(key, count, mask, Some(private));
      }
      if count == 0 {
        var watching := set l | l in rows && Watching(rows[l], key, mask, private);
        if watching != {} && word.Some? {
          ghost var h := Past();
          rows, readyRows := MarkRows(rows, readyRows, key, mask, private, word.value);
          RowsMarked(h, signalled, Past());
        } else if word.Some? {
          assert forall l :: l in rows && Watching(rows[l], key, mask, private) ==> l in watching;
          NoneOvertaken(rows, key, mask, private, word.value);
        }
      }
    }

    /** The thread's wait turned out to have ended before the kernel enrolled it. */
    method NotePreEnrollmentReturn(l: int)
      requires Valid()
      modifies this
      ensures Valid() && Past() == old(Past()).PreEnrollment(l)
    {
      ghost var h := Past();
      if l in rows && rows[l].kind.Participant? && rows[l].wait.Some? && rows[l].wait.value.expected.Some? {
        if !rows[l].wait.value.preReleased {
          ReadyChanged(rows, l, MarkPreReleased(rows[l]));
          if !rows[l].wait.value.claimed {
            readyRows := readyRows + 1;
          }
          rows := rows[l := MarkPreReleased(rows[l])];
          RowsMarked(h, signalled, Past());
        } else {
          assert rows[l := MarkPreReleased(rows[l])] == rows;
        }
      }
    }

    /** The thread returns: whether it owes that to a wake, or to a move of its word. */
    method ClaimRelease(l: int) returns (owned: bool)
      requires Valid() && waitToken + 1 < U64_MAX
      modifies this
      ensures Valid() && Past() == old(Past()).Claim(l)
      ensures owned <==> old(Past()).Owns(l)
    {
      if l !in rows || rows[l].wait.None? {
        return false;
      }
      var wait := rows[l].wait.value;
      if wait.claimed || wait.preReleased {
        return true;
      }
      if wait.key.None? {
        return false;
      }
      owned := ClaimOn(l, wait.key.value);
    }

    /** The return of a thread parked on the word. */
    method ClaimOn(l: int, key: int) returns (owned: bool)
      requires Valid() && waitToken + 1 < U64_MAX && Past().Asks(l) && rows[l].wait.value.key == Some(key)
      modifies this
      ensures Valid() && Past() == old(Past()).Claim(l)
      ensures owned <==> old(Past()).Explained(l)
    {
      ghost var h := Past();
      ghost var h';
      signalled, owned, h' := ClaimReceipts(rows, waitToken, signalled, l, key, h);
      waitToken := waitToken + 1;
      if owned {
        var row := rows[l].(wait := Some(rows[l].wait.value.(claimed := true)));
        ReadyChanged(rows, l, row);
        credited := h'.credited;
        rows := rows[l := row];
        readyRows := readyRows + 1;
      }
      assert Past() == h';
      PruneReleases(key);
    }

    /** A woken thread has left its word for the timestamp gate. */
    method TakeRelease(l: int) returns (took: bool)
      requires Valid()
      modifies this
      ensures Valid() && Past() == old(Past()).LeavesWord(l)
      ensures took <==> l in old(rows) && old(rows[l].wait.Some? && rows[l].wait.value.key.Some?)
    {
      if l !in rows || rows[l].wait.None? {
        return false;
      }
      ghost var h := Past();
      var key := rows[l].wait.value.key;
      var row := rows[l].(wait := Some(rows[l].wait.value.(key := None)));
      ReadyChanged(rows, l, row);
      rows := rows[l := row];
      RowChanged(h, signalled, l, row, Past());
      if key.None? {
        return false;
      }
      PruneReleases(key.value);
      took := true;
    }

    /** Attribution starts afresh. */
    method ClearSignalled()
      requires Valid()
      modifies this
      ensures Valid() && Past() == old(Past()).Clear()
    {
      ghost var h := Past();
      signalled, readyRows := map[], 0;
      var todo := rows.Keys;
      while todo != {}
        invariant todo <= h.rows.Keys == rows.Keys && unchanged(this`waitToken) && signalled == map[] && readyRows == 0
        invariant forall l :: l in rows ==> rows[l] == if l in todo then h.rows[l] else Unmarked(h.rows[l])
        decreases |todo|
      {
        var l := AnyOf(todo);
        rows := rows[l := Unmarked(rows[l])];
        todo := todo - {l};
      }
      wakes, credited := map[], map[];
      AllUnmarked(h.rows, rows);
      Cleared(h, signalled, Past());
    }

    /** Adds a thread, running. A row it takes the place of must be of a thread neither released nor all that
        keeps the receipts of its word: the count and the receipts are left as they were. */
    method AddRow(l: int, kind: ThreadClass)
      requires Valid()
      modifies this`rows
      ensures Past() == old(Past()).AddRow(l, kind)
      ensures Valid() <==> old(!Flags(l)) && HeldWithout(old(rows), l, signalled)
      ensures l !in old(rows) ==> Valid()
    {
      ghost var h := Past();
      ReadyChanged(rows, l, Row(kind, None));
      rows := rows[l := Row(kind, None)];
      RowChanged(h, signalled, l, Row(kind, None), Past());
      RowReplaced(h, signalled, l, Row(kind, None), Past());
    }

    predicate Flags(l: int)
      reads this
    {
      l in rows && Flagged(rows[l])
    }

    method RemoveRow(l: int)
      requires Valid()
      modifies this
      ensures Valid() && Past() == old(Past()).RemoveRow(l)
    {
      ghost var h := Past();
      var previous := if l in rows then rows[l].wait else None;
      ReadyRemoved(rows, l);
      rows := rows - {l};
      RowRemoved(h, signalled, l, Past());
      if previous.Some? && (previous.value.preReleased || previous.value.claimed) {
        readyRows := readyRows - 1;
      }
      PruneLeft(if previous.Some? then previous.value.key else None);
    }

    /** Reclasses a thread, clearing its wait. */
    method SetRowClass(l: int, kind: ThreadClass)
      requires Valid()
      modifies this
      ensures Valid() && Past() == old(Past()).Reclass(l, kind)
    {
      if l in rows {
        ghost var h := Past();
        var previous := rows[l].wait;
        ReadyChanged(rows, l, Row(kind, None));
        rows := rows[l := Row(kind, None)];
        RowChanged(h, signalled, l, Row(kind, None), Past());
        if previous.Some? && (previous.value.preReleased || previous.value.claimed) {
          readyRows := readyRows - 1;
        }
        PruneLeft(if previous.Some? then previous.value.key else None);
      }
    }

    /** Whether the thread's native wait is free to return. */
    method IsReleased(l: int) returns (released: bool)
      requires Valid()
      ensures released <==> Past().Released(l)
    {
      if l !in rows || rows[l].wait.None? {
        return false;
      }
      var wait := rows[l].wait.value;
      if wait.key.None? {
        return false;
      }
      if wait.preReleased || wait.claimed {
        return true;
      }
      var key := wait.key.value;
      assert HeldAt(Past(), signalled, key);
      ParkedAnswer(Past(), signalled, l, key);
      if key in signalled {
        released := CanClaim(signalled[key], Receipt(wait, U64_MAX));
        CanClaimParked(Past(), signalled, key, Receipt(wait, U64_MAX));
      } else {
        released := false;
        NoSlots(Receipt(wait, U64_MAX));
      }
    }

    /** Whether any parked thread is free to return: a count and an emptiness test stand for the search. */
    method HasPendingReleases() returns (pending: bool)
      requires Valid()
      ensures pending <==> Past().Pending()
    {
      if readyRows > 0 {
        ReadyPending(Past());
        return true;
      }
      KeptPending(Past(), signalled);
      pending := signalled != map[];
    }
  }

  lemma Unheard(h: History, signalled: map<int, Releases>, key: int, n: nat, mask: Mask, scope: Option<bool>,
                h': History)
    requires Faithful(h, signalled) && (n == 0 || Hearers(h.rows, key, mask, scope) == {})
    requires h' == h.(wakes := h.wakes[key := h.WakesOn(key) + M.Copies(Wake(mask, scope, h.generation), n)])
    ensures Faithful(h', signalled) && h' == h.Signal(key, n, mask, scope)
  {
    var wake := Wake(mask, scope, h.generation);
    assert HeldAt(h, signalled, key);
    if n == 0 {
      assert h'.WakesOn(key) == h.WakesOn(key);
    } else {
      HearersBound(h.rows, h.generation, key, wake, Hearers(h.rows, key, mask, scope));
      SoundUnheard(Live(h.rows, key), h.generation, Lookup(signalled, key), h.WakesOn(key), h.CreditedOn(key), wake, n);
    }
    forall k | k != key
      ensures HeldAt(h', signalled, k)
    {
      assert HeldAt(h, signalled, k);
    }
  }

  predicate Watching(row: Row, key: int, mask: Mask, private: bool) {
    && OnWord(row, key) && !(mask !! row.wait.value.mask) && row.wait.value.expected.Some?
    && row.wait.value.scope == Some(private)
  }

  /** Marks every row that was overtaken, counting those newly released. */
  method MarkRows(rows: Rows, ready: nat, key: int, mask: Mask, private: bool, word: int)
    returns (marked: Rows, ready': nat)
    requires ready == |Ready(rows)|
    ensures marked == MarkOvertaken(rows, rows.Keys, key, mask, private, word) && ready' == |Ready(marked)|
    ensures SameWaits(rows, marked)
  {
    marked, ready' := rows, ready;
    var todo := rows.Keys;
    NoneMarked(rows, key, mask, private, word);
    while todo != {}
      invariant todo <= rows.Keys && ready' == |Ready(marked)|
      invariant marked == MarkOvertaken(rows, rows.Keys - todo, key, mask, private, word)
      decreases |todo|
    {
      var l := AnyOf(todo);
      MarkOne(rows, rows.Keys - todo, l, key, mask, private, word);
      assert rows.Keys - (todo - {l}) == rows.Keys - todo + {l};
      if Overtaken(marked[l], key, mask, private, word) {
        ReadyChanged(marked, l, MarkPreReleased(marked[l]));
        if !marked[l].wait.value.preReleased && !marked[l].wait.value.claimed {
          ready' := ready' + 1;
        }
        marked := marked[l := MarkPreReleased(marked[l])];
      }
      todo := todo - {l};
    }
    assert rows.Keys - todo == rows.Keys;
  }

  lemma NoneMarked(rows: Rows, key: int, mask: Mask, private: bool, word: int)
    ensures MarkOvertaken(rows, rows.Keys - rows.Keys, key, mask, private, word) == rows
  {
  }

  lemma NoneOvertaken(rows: Rows, key: int, mask: Mask, private: bool, word: int)
    requires forall l :: l in rows ==> !Watching(rows[l], key, mask, private)
    ensures MarkOvertaken(rows, rows.Keys, key, mask, private, word) == rows
  {
    var marked := MarkOvertaken(rows, rows.Keys, key, mask, private, word);
    forall l | l in rows
      ensures marked[l] == rows[l]
    {
      assert !Watching(rows[l], key, mask, private);
    }
  }

  lemma MarkOne(rows: Rows, done: set<int>, l: int, key: int, mask: Mask, private: bool, word: int)
    requires l in rows && l !in done
    ensures MarkOvertaken(rows, done, key, mask, private, word)[l] == rows[l]
    ensures MarkOvertaken(rows, done + {l}, key, mask, private, word)
            == if Overtaken(rows[l], key, mask, private, word)
               then MarkOvertaken(rows, done, key, mask, private, word)[l := MarkPreReleased(rows[l])]
               else MarkOvertaken(rows, done, key, mask, private, word)
  {
  }

  /** The receipts after a wake, before they are pruned. */
  lemma Woken(h: History, signalled: map<int, Releases>, key: int, wake: Wake, n: nat, r: Releases,
              h': History, signalled': map<int, Releases>)
    requires Faithful(h, signalled) && h.generation + 1 < U64_MAX
    requires Sound(Live(h.rows, key), h.generation + 1, Some(r), h.WakesOn(key) + M.Copies(wake, n), h.CreditedOn(key))
    requires h' == h.(generation := h.generation + 1, wakes := h.wakes[key := h.WakesOn(key) + M.Copies(wake, n)])
    requires signalled' == signalled[key := r]
    ensures AllBut(h', signalled', Some(key))
  {
    var later := h.(generation := h.generation + 1);
    Unseated(h, signalled, later);
    forall k | k != key
      ensures HeldAt(h', signalled', k)
    {
      assert HeldAt(later, signalled, k) && Lookup(signalled', k) == Lookup(signalled, k);
    }
  }

  /** The receipts after a return, before they are pruned. */
  lemma Returned(h: History, signalled: map<int, Releases>, l: int, key: int, r: Releases,
                 h': History, signalled': map<int, Releases>)
    requires Faithful(h, signalled) && h.generation + 1 < U64_MAX && h.Asks(l) && h.rows[l].wait.value.key == Some(key)
    requires h.Explained(l) ==> Sound(Live(h.rows - {l}, key), h.generation + 1, Some(r), h.WakesOn(key),
                                      h.CreditedOn(key) + {Receipt(h.rows[l].wait.value, h.generation + 1)})
    requires !h.Explained(l) ==> Sound(Live(h.rows, key), h.generation + 1, Some(r), h.WakesOn(key), h.CreditedOn(key))
    requires h' == h.Claim(l) && signalled' == signalled[key := r]
    ensures AllBut(h', signalled', Some(key))
  {
    var between := h.(rows := h'.rows, generation := h.generation + 1);
    if h.Explained(l) {
      LiveReplaced(h.rows, l, h'.rows[l], key);
      RowChanged(h, signalled, l, h'.rows[l], between);
    } else {
      Unseated(h, signalled, between);
    }
    forall k | k != key
      ensures HeldAt(h', signalled', k)
    {
      assert !LiveOn(h.rows, l, k) && Lookup(signalled', k) == Lookup(signalled, k);
      assert HeldAt(between, signalled, k);
    }
  }

  /** Asks the receipts of the word whether a wake explains the thread's return. */
  method ClaimReceipts(rows: Rows, gen: nat, signalled: map<int, Releases>, l: int, key: int, ghost h: History)
    returns (signalled': map<int, Releases>, owned: bool, ghost h': History)
    requires Faithful(h, signalled) && rows == h.rows && gen == h.generation && gen + 1 < U64_MAX
    requires h.Asks(l) && rows[l].wait.value.key == Some(key)
    ensures h' == h.Claim(l) && (owned <==> h.Explained(l)) && AllBut(h', signalled', Some(key))
  {
    h' := h.Claim(l);
    assert HeldAt(h, signalled, key);
    if key in signalled {
      var releases;
      releases, owned := ClaimWord(rows, gen, key, l, signalled[key], h.WakesOn(key), h.CreditedOn(key));
      signalled' := signalled[key := releases];
      Returned(h, signalled, l, key, releases, h', signalled');
    } else {
      owned, signalled' := false, signalled;
      NothingToClaim(h, signalled, l, key);
    }
  }

  /** No receipts, no answer. */
  lemma NothingToClaim(h: History, signalled: map<int, Releases>, l: int, key: int)
    requires Faithful(h, signalled) && h.generation + 1 < U64_MAX && h.Asks(l) && h.rows[l].wait.value.key == Some(key)
    requires key !in signalled
    ensures !h.Explained(l) && Faithful(h.Claim(l), signalled)
  {
    var w := Receipt(h.rows[l].wait.value, U64_MAX);
    assert HeldAt(h, signalled, key);
    assert w in Live(h.rows, key);
    NothingExplains(Live(h.rows, key), h.generation, h.WakesOn(key), h.CreditedOn(key), w);
    Unseated(h, signalled, h.(generation := h.generation + 1));
  }

  lemma NothingExplains(live: set<Wait>, gen: nat, h: seq<Wake>, c: set<Wait>, w: Wait)
    requires Sound(live, gen, None, h, c) && w in live && gen + 1 < U64_MAX
    ensures !Matchable(h, c + {w.(retired := gen + 1)})
  {
    var w' := w.(retired := gen + 1);
    SameAnswer(live, gen, None, h, c, w, w');
    NoSlots(w');
  }

  lemma NoSlots(w: Wait)
    ensures !Matchable([], {} + {w})
  {
  }

  lemma AllUnmarked(rows: Rows, after: Rows)
    requires after.Keys == rows.Keys && forall l :: l in after ==> after[l] == Unmarked(rows[l])
    ensures after == map l | l in rows :: Unmarked(rows[l])
  {
    var unmarked := map l | l in rows :: Unmarked(rows[l]);
    forall l | l in rows
      ensures after[l] == unmarked[l]
    {
    }
  }

  lemma Cleared(h: History, signalled: map<int, Releases>, h': History)
    requires Orderly(h.rows, h.generation) && h.generation < U64_MAX && signalled == map[] && h' == h.Clear()
    ensures Faithful(h', signalled) && Ready(h'.rows) == {}
  {
    forall key
      ensures HeldAt(h', signalled, key)
    {
      NeverUsed(Live(h'.rows, key), h'.generation);
    }
    forall l | l in h'.rows
      ensures !Flagged(h'.rows[l])
    {
    }
    forall l | l in h'.rows && h'.rows[l].wait.Some?
      ensures SameToken(h.rows[l], h'.rows[l]) && h'.rows[l].kind == h.rows[l].kind
    {
    }
    forall k, l | k in h'.rows && l in h'.rows && SameToken(h'.rows[k], h'.rows[l])
      ensures k == l
    {
      assert SameToken(h.rows[k], h.rows[l]);
    }
  }

  /** The receipts tell whether a parked wait may return. */
  lemma ParkedAnswer(h: History, signalled: map<int, Releases>, l: int, key: int)
    requires HeldAt(h, signalled, key) && LiveOn(h.rows, l, key)
    ensures var w, r := Receipt(h.rows[l].wait.value, U64_MAX), Lookup(signalled, key);
            h.Explains(key, w) <==> Matchable(SlotsOf(r), ClaimsOf(r) + {w})
  {
    var w, r := Receipt(h.rows[l].wait.value, U64_MAX), Lookup(signalled, key);
    assert w in Live(h.rows, key);
    assert Agree(h.WakesOn(key), h.CreditedOn(key), SlotsOf(r), ClaimsOf(r), {w});
  }

  lemma CanClaimParked(h: History, signalled: map<int, Releases>, key: int, w: Wait)
    requires HeldAt(h, signalled, key) && key in signalled && w.retired == U64_MAX
    ensures Coverable(signalled[key].Slots(), signalled[key].claims + [w])
            <==> Matchable(signalled[key].Slots(), Elements(signalled[key].claims) + {w})
  {
    var r := signalled[key];
    DifferentReceipts(r.claims, [w], h.generation);
    CoverableIsMatchable(r.Slots(), r.claims + [w]);
    assert Elements(r.claims + [w]) == Elements(r.claims) + {w};
  }

  lemma ReadyPending(h: History)
    requires Orderly(h.rows, h.generation)
    ensures Ready(h.rows) != {} ==> h.Pending()
  {
    if Ready(h.rows) != {} {
      var l := SomeOf(Ready(h.rows));
      assert h.IsFlagged(l);
    }
  }

  /** Receipts are kept on a word just when some wait parked there may still take one. */
  lemma KeptPending(h: History, signalled: map<int, Releases>)
    requires Faithful(h, signalled) && Ready(h.rows) == {}
    ensures signalled != map[] <==> h.Pending()
  {
    if signalled != map[] {
      var key := SomeOf(signalled.Keys);
      assert HeldAt(h, signalled, key);
      var w :| w in Live(h.rows, key)
               && Matchable(SlotsOf(Lookup(signalled, key)), ClaimsOf(Lookup(signalled, key)) + {w});
      var l :| l in h.rows && IsLive(h.rows[l], key) && Receipt(h.rows[l].wait.value, U64_MAX) == w;
      ParkedAnswer(h, signalled, l, key);
      assert h.Released(l);
    }
    if h.Pending() {
      var l :| h.IsFlagged(l) || h.Released(l);
      assert l !in Ready(h.rows);
      var key, w := h.rows[l].wait.value.key.value, Receipt(h.rows[l].wait.value, U64_MAX);
      assert HeldAt(h, signalled, key);
      ParkedAnswer(h, signalled, l, key);
      NoSlots(w);
    }
  }

  /** Pending receipts can outlast every wait free to return: exactly while some wait is flagged, all that are
      have left their words for the gate, and no wake can explain another. */
  lemma PendingAtGate(h: History)
    requires Orderly(h.rows, h.generation)
    ensures (h.Pending() && forall l :: !h.Released(l))
            <==> ((exists l :: h.IsFlagged(l)) && (forall l :: h.IsFlagged(l) ==> h.rows[l].wait.value.key.None?)
                  && forall l :: !h.CanClaim(l))
  {
    forall l
      ensures h.Released(l) <==> (h.IsFlagged(l) && h.rows[l].wait.value.key.Some?) || h.CanClaim(l)
    {
    }
  }

  /** A generation passes. */
  lemma Unseated(h: History, signalled: map<int, Releases>, h': History)
    requires Faithful(h, signalled) && h' == h.(generation := h'.generation) && h.generation <= h'.generation < U64_MAX
    ensures Faithful(h', signalled)
  {
    forall key
      ensures HeldAt(h', signalled, key)
    {
      assert HeldAt(h, signalled, key);
      SoundLater(Live(h.rows, key), h.generation, Lookup(signalled, key), h.WakesOn(key), h.CreditedOn(key),
                 Live(h.rows, key), h'.generation);
    }
  }
}
