/**
 Whole runs of the futex accounting, from an empty census: everything it ever answers is what the machine
 that keeps the full history answers.
 */
module CensusRuns {
  import opened Options
  import opened WakeMatching
  import opened FutexHistory
  import opened Census
  import M = Matchings

  datatype Event =
    | Enter(lineage: int, kind: ThreadClass)
    | Leave(lineage: int)
    | Reclass(lineage: int, kind: ThreadClass)
    | Park(lineage: int, wait: RowWait)
    | Unpark(lineage: int)
    | WakeAny(key: int, n: nat, mask: Mask)
    | FutexWake(key: int, count: int, mask: Mask, private: bool, word: Option<int>)
    | EarlyReturn(lineage: int)
    | Claim(lineage: int)
    | ToGate(lineage: int)
    | Attach
    | MayReturn(lineage: int)
    | AnyPending

  /** Only a participant parks. */
  predicate Parks(rows: Rows, lineage: int) {
    lineage in rows && rows[lineage].kind.Participant?
  }

  function Fresh(wait: RowWait): RowWait {
    wait.(preReleased := false, claimed := false)
  }

  ghost function Step(h: History, e: Event): History {
    match e
    case Enter(l, kind) => if l in h.rows then h else h.AddRow(l, kind)
    case Leave(l) => h.RemoveRow(l)
    case Reclass(l, kind) => h.Reclass(l, kind)
    case Park(l, wait) => if Parks(h.rows, l) then h.Waits(l, Some(Fresh(wait))) else h
    case Unpark(l) => h.Waits(l, None)
    case WakeAny(key, n, mask) => h.Signal(key, n, mask, None)
    case FutexWake(key, count, mask, private, word) => h.SignalFutex(key, count, mask, private, word)
    case EarlyReturn(l) => h.PreEnrollment(l)
    case Claim(l) => h.Claim(l)
    case ToGate(l) => h.LeavesWord(l)
    case Attach => h.Clear()
    case MayReturn(_) => h
    case AnyPending => h
  }

  ghost function Answer(h: History, e: Event): seq<bool> {
    match e
    case Claim(l) => [h.Owns(l)]
    case MayReturn(l) => [h.Released(l)]
    case AnyPending => [h.Pending()]
    case _ => []
  }

  ghost function Answers(h: History, events: seq<Event>): seq<bool>
    decreases |events|
  {
    if events == [] then [] else Answer(h, events[0]) + Answers(Step(h, events[0]), events[1..])
  }

  ghost function After(h: History, events: seq<Event>): History {
    if events == [] then h else Step(After(h, events[..|events| - 1]), events[|events| - 1])
  }

  const START := History(map[], 0, map[], map[])

  method Apply(core: Core, e: Event) returns (answer: seq<bool>)
    requires core.Valid() && core.waitToken + 1 < U64_MAX
    modifies core
    ensures core.Valid() && core.Past() == Step(old(core.Past()), e)
    ensures answer == Answer(old(core.Past()), e)
    ensures core.waitToken <= old(core.waitToken) + 1
  {
    answer := [];
    match e
    case Enter(l, kind) => if l !in core.rows { core.AddRow(l, kind); }
    case Leave(l) => core.RemoveRow(l);
    case Reclass(l, kind) => core.SetRowClass(l, kind);
    case Park(l, wait) => if Parks(core.rows, l) { var _ := core.SetWaiting(l, Some(Fresh(wait))); }
    case Unpark(l) => var _ := core.SetWaiting(l, None);
    case WakeAny(key, n, mask) => core.Signal(key, n, mask, None);
    case FutexWake(key, count, mask, private, word) => core.SignalFutex(key, count, mask, private, word);
    case EarlyReturn(l) => core.NotePreEnrollmentReturn(l);
    case Claim(l) => var owned := core.ClaimRelease(l); answer := [owned];
    case ToGate(l) => var _ := core.TakeRelease(l);
    case Attach => core.ClearSignalled();
    case MayReturn(l) => var released := core.IsReleased(l); answer := [released];
    case AnyPending => var pending := core.HasPendingReleases(); answer := [pending];
  }

  /** Every answer of a run is the full history's, whatever the calls and their order. */
  method Run(events: seq<Event>) returns (answers: seq<bool>)
    requires |events| + 1 < U64_MAX
    ensures answers == Answers(START, events)
  {
    var core := new Core();
    answers := [];
    var i := 0;
    while i < |events|
      invariant 0 <= i <= |events| && core.Valid() && core.waitToken <= i && fresh(core)
      invariant answers + Answers(core.Past(), events[i..]) == Answers(START, events)
    {
      ghost var h := core.Past();
      var answer := Apply(core, events[i]);
      assert events[i..][1..] == events[i + 1..];
      assert answers + (answer + Answers(core.Past(), events[i + 1..]))
             == answers + answer + Answers(core.Past(), events[i + 1..]);
      answers := answers + answer;
      i := i + 1;
    }
  }

  // ------------------------------------------------------------------------------------------
  // What no run can do
  // ------------------------------------------------------------------------------------------

  /** All the credit given on the word so far can be explained at once, no wake used twice. */
  ghost predicate Conserves(h: History, key: int) {
    Matchable(h.WakesOn(key), h.CreditedOn(key))
  }

  lemma StepConserves(h: History, e: Event, key: int)
    requires Conserves(h, key)
    ensures Conserves(Step(h, e), key)
  {
    var h' := Step(h, e);
    if e.Attach? {
      M.NothingToMatch<Wake, Wait>(Includes, []);
    } else if e.Claim? {
      ClaimConserves(h, e.lineage, key);
    } else {
      assert h'.CreditedOn(key) == h.CreditedOn(key);
      assert h.WakesOn(key) <= h'.WakesOn(key);
      Prefix(h.WakesOn(key), h'.WakesOn(key));
      M.MoreSlots(Includes, h.WakesOn(key), h'.WakesOn(key), h.CreditedOn(key));
    }
  }

  lemma ClaimConserves(h: History, l: int, key: int)
    requires Conserves(h, key)
    ensures Conserves(h.Claim(l), key)
  {
  }

  lemma Prefix(a: seq<Wake>, b: seq<Wake>)
    requires a <= b
    ensures multiset(a) <= multiset(b)
  {
    assert b == a + b[|a|..];
  }

  /** In no run do more threads owe their return to wakes of a word than the kernel said those wakes reached. */
  lemma {:induction false} NeverOvercredited(events: seq<Event>, key: int)
    ensures Conserves(After(START, events), key)
    ensures |After(START, events).CreditedOn(key)| <= |After(START, events).WakesOn(key)|
    decreases |events|
  {
    if events == [] {
      M.NothingToMatch<Wake, Wait>(Includes, []);
    } else {
      var n := |events| - 1;
      NeverOvercredited(events[..n], key);
      StepConserves(After(START, events[..n]), events[n], key);
    }
    var h := After(START, events);
    M.MatchableBound(Includes, h.WakesOn(key), h.CreditedOn(key));
  }

  /** A thread is credited only by a wake made, on its word, after it parked and no later than it returned,
      with a mask and scope that meet its own. */
  lemma CreditedByItsWake(h: History, l: int) returns (i: int)
    requires h.Asks(l) && h.Explained(l)
    ensures var wait := h.rows[l].wait.value;
            var wakes := h.WakesOn(wait.key.value);
            && 0 <= i < |wakes| && wait.token <= wakes[i].cutoff < h.generation + 1
            && !(wakes[i].mask !! wait.mask) && (wakes[i].scope.None? || wakes[i].scope == wait.scope)
  {
    var wait := h.rows[l].wait.value;
    var key, w := wait.key.value, Receipt(wait, h.generation + 1);
    i := M.Reached(Includes, h.WakesOn(key), h.CreditedOn(key) + {w}, w);
  }

  // ------------------------------------------------------------------------------------------
  // What credits a return
  // ------------------------------------------------------------------------------------------

  /** The thread's wait as it would be credited now. */
  ghost function Asking(h: History, l: int): Wait
    requires h.Asks(l)
  {
    Receipt(h.rows[l].wait.value, h.generation + 1)
  }

  /** With nothing credited on the word yet, a return is explained exactly by a wake that meets the wait. */
  lemma ExplainedAlone(h: History, l: int)
    requires h.Asks(l) && h.CreditedOn(h.rows[l].wait.value.key.value) == {}
    ensures var wakes := h.WakesOn(h.rows[l].wait.value.key.value);
            h.Explained(l) <==> exists i :: 0 <= i < |wakes| && Meets(wakes[i], Asking(h, l))
  {
    var wakes, w := h.WakesOn(h.rows[l].wait.value.key.value), Asking(h, l);
    assert {} + {w} == {w};
    if h.Explained(l) {
      var i := M.Reached(Includes, wakes, {w}, w);
      IncludesMeans(wakes[i], w);
    }
    if i :| 0 <= i < |wakes| && Meets(wakes[i], w) {
      assert multiset(wakes)[wakes[i]] >= 1;
      EnoughWakes(h, l, wakes[i]);
    }
  }

  /** A wake that meets every wait credited on the word and this one, and was counted often enough, explains it. */
  lemma EnoughWakes(h: History, l: int, wake: Wake)
    requires h.Asks(l)
    requires var ws := h.CreditedOn(h.rows[l].wait.value.key.value) + {Asking(h, l)};
             && (forall c :: c in ws ==> Meets(wake, c))
             && |ws| <= multiset(h.WakesOn(h.rows[l].wait.value.key.value))[wake]
    ensures h.Explained(l)
  {
    var key := h.rows[l].wait.value.key.value;
    var ws, wakes := h.CreditedOn(key) + {Asking(h, l)}, h.WakesOn(key);
    forall c | c in ws
      ensures Includes(wake, c)
    {
      IncludesMeans(wake, c);
    }
    M.MatchCopies(Includes, wake, |ws|, ws);
    CopiesAmong(wakes, wake, |ws|);
    M.MoreSlots(Includes, M.Copies(wake, |ws|), wakes, ws);
  }

  lemma {:induction false} CopiesAmong(wakes: seq<Wake>, wake: Wake, n: nat)
    requires n <= multiset(wakes)[wake]
    ensures multiset(M.Copies(wake, n)) <= multiset(wakes)
  {
    if n > 0 {
      CopiesAmong(wakes, wake, n - 1);
      assert M.Copies(wake, n) == M.Copies(wake, n - 1) + [wake];
    }
    CopiesOnly(wake, n);
  }

  lemma {:induction false} CopiesOnly(wake: Wake, n: nat)
    ensures multiset(M.Copies(wake, n)) == multiset{}[wake := n]
  {
    if n > 0 {
      CopiesOnly(wake, n - 1);
      assert M.Copies(wake, n) == M.Copies(wake, n - 1) + [wake];
    }
  }

  /** A bit in common and the wait's own scope. */
  ghost predicate Addressed(wait: RowWait, mask: Mask, private: bool) {
    wait.scope == Some(private) && exists bit :: bit in mask && bit in wait.mask
  }

  /** What a thread alone on a word owes one wake of it: a wake that reached someone credits it exactly if it
      addresses it, and one that reached nobody exactly if the word no longer holds what it expects besides. */
  lemma OneWake(l: int, wait: RowWait, key: int, count: int, mask: Mask, private: bool, word: Option<int>)
    requires wait.key == Some(key)
    ensures Answers(START, [Enter(l, Participant), Park(l, wait), FutexWake(key, count, mask, private, word), Claim(l)])
            == [Addressed(wait, mask, private)
                && (count > 0
                    || (count == 0 && word.Some? && wait.expected.Some? && wait.expected.value != word.value))]
  {
    var entered := Step(START, Enter(l, Participant));
    var parked := Step(entered, Park(l, wait));
    var wake := FutexWake(key, count, mask, private, word);
    var h := Step(parked, wake);
    WokenAlone(parked, l, wait, key, count, mask, private, word);
    FirstAnswer(h, Claim(l), []);
    FirstAnswer(parked, wake, [Claim(l)]);
    FirstAnswer(entered, Park(l, wait), [wake] + [Claim(l)]);
    FirstAnswer(START, Enter(l, Participant), [Park(l, wait)] + ([wake] + [Claim(l)]));
    assert [Enter(l, Participant), Park(l, wait), wake, Claim(l)]
           == [Enter(l, Participant)] + ([Park(l, wait)] + ([wake] + [Claim(l)]));
    assert [Claim(l)] + [] == [Claim(l)];
  }

  lemma WokenAlone(h: History, l: int, wait: RowWait, key: int, count: int, mask: Mask, private: bool,
                   word: Option<int>)
    requires h == History(map[l := Row(Participant, Some(Fresh(wait).(token := 1)))], 1, map[], map[])
    requires wait.key == Some(key)
    ensures Step(h, FutexWake(key, count, mask, private, word)).Owns(l) <==>
              Addressed(wait, mask, private)
              && (count > 0 || (count == 0 && word.Some? && wait.expected.Some? && wait.expected.value != word.value))
  {
    var h' := Step(h, FutexWake(key, count, mask, private, word));
    SharedBit(mask, wait.mask);
    if h'.Asks(l) {
      ExplainedAlone(h', l);
      if count > 0 {
        HeardAlone(h, l, wait, key, count, mask, private);
        assert Meets(h'.WakesOn(key)[0], Asking(h', l)) <==> Addressed(wait, mask, private);
      }
    }
  }

  lemma HeardAlone(h: History, l: int, wait: RowWait, key: int, count: int, mask: Mask, private: bool)
    requires h == History(map[l := Row(Participant, Some(Fresh(wait).(token := 1)))], 1, map[], map[])
    requires wait.key == Some(key) && count > 0
    ensures var h' := h.Signal(key, count, mask, Some(private));
            && h'.generation >= 1 && |h'.WakesOn(key)| == count
            && forall i :: 0 <= i < count ==> h'.WakesOn(key)[i] == Wake(mask, Some(private), h'.generation)
  {
  }

  predicate UpTo(wakes: seq<Wake>, generation: nat) {
    forall i :: 0 <= i < |wakes| ==> wakes[i].cutoff <= generation
  }

  /** Every wake was made by some generation. */
  ghost predicate MadeBy(h: History, generation: nat) {
    forall key {:trigger h.WakesOn(key)} :: UpTo(h.WakesOn(key), generation)
  }

  lemma StepMade(h: History, e: Event)
    requires MadeBy(h, h.generation)
    ensures MadeBy(Step(h, e), Step(h, e).generation)
  {
    var h' := Step(h, e);
    forall key {:trigger h'.WakesOn(key)}
      ensures UpTo(h'.WakesOn(key), h'.generation)
    {
      assert UpTo(h.WakesOn(key), h.generation);
    }
  }

  lemma {:induction false} AllMade(events: seq<Event>)
    ensures MadeBy(After(START, events), After(START, events).generation)
    decreases |events|
  {
    if events != [] {
      AllMade(events[..|events| - 1]);
      StepMade(After(START, events[..|events| - 1]), events[|events| - 1]);
    }
  }

  /** A wait just begun is owed to nothing that happened before. */
  lemma BegunAfresh(events: seq<Event>, l: int, wait: RowWait)
    requires Parks(After(START, events).rows, l)
    ensures var h := Step(After(START, events), Park(l, wait)); !h.Owns(l) && !h.Released(l)
  {
    AllMade(events);
    var before := After(START, events);
    var h := Step(before, Park(l, wait));
    assert forall key :: h.WakesOn(key) == before.WakesOn(key);
    NotYetWoken(h, before.generation, l);
  }

  lemma NotYetWoken(h: History, before: nat, l: int)
    requires l in h.rows && h.rows[l].wait.Some? && h.rows[l].wait.value.token > before && !Flagged(h.rows[l])
    requires MadeBy(h, before)
    ensures !h.Owns(l) && !h.Released(l)
  {
    if h.rows[l].wait.value.key.Some? {
      NotExplained(h, before, h.rows[l].wait.value.key.value, Receipt(h.rows[l].wait.value, h.generation + 1));
      NotExplained(h, before, h.rows[l].wait.value.key.value, Receipt(h.rows[l].wait.value, U64_MAX));
    }
  }

  lemma NotExplained(h: History, before: nat, key: int, w: Wait)
    requires MadeBy(h, before) && w.token > before
    ensures !h.Explains(key, w)
  {
    if h.Explains(key, w) {
      assert UpTo(h.WakesOn(key), before);
      var i := M.Reached(Includes, h.WakesOn(key), h.CreditedOn(key) + {w}, w);
      assert false;
    }
  }

  /** A return once credited stays credited, and is pending until the thread runs on. */
  lemma CreditStays(h: History, l: int)
    requires h.Owns(l) && h.rows[l].kind.Participant?
    ensures var h' := Step(h, Claim(l)); h'.Owns(l) && h'.IsFlagged(l) && h'.Pending()
  {
    var h' := Step(h, Claim(l));
    assert h'.IsFlagged(l);
  }

  /** A wake that reached nobody releases just the waits it addresses whose word has moved on. */
  lemma WordMoved(h: History, key: int, mask: Mask, private: bool, word: int, l: int)
    ensures var h' := Step(h, FutexWake(key, 0, mask, private, Some(word)));
            h'.Released(l) <==>
              h.Released(l)
              || (l in h.rows && h.rows[l].kind.Participant? && h.rows[l].wait.Some?
                  && var wait := h.rows[l].wait.value;
                     && wait.key == Some(key) && Addressed(wait, mask, private)
                     && wait.expected.Some? && wait.expected.value != word)
  {
    if l in h.rows && h.rows[l].wait.Some? {
      SharedBit(mask, h.rows[l].wait.value.mask);
    }
  }

  /** Attribution started afresh owes nobody anything. */
  lemma AttachForgets(h: History, l: int)
    ensures var h' := Step(h, Attach); !h'.Owns(l) && !h'.Pending()
  {
    var h' := Step(h, Attach);
    forall m
      ensures !h'.Owns(m) && !h'.IsFlagged(m) && !h'.Released(m)
    {
      if m in h'.rows && h'.rows[m].wait.Some? {
        NotYetWoken(h'.(rows := h'.rows[m := h'.rows[m].(wait := Some(h'.rows[m].wait.value.(token := 1)))]), 0, m);
      }
    }
  }

  lemma FirstAnswer(h: History, e: Event, rest: seq<Event>)
    ensures Answers(h, [e] + rest) == Answer(h, e) + Answers(Step(h, e), rest)
  {
    assert ([e] + rest)[1..] == rest;
  }

  /** A wait whose word moved under it, then taken at the gate: still pending, and no longer released. */
  lemma TakenAtGate(key: int, mask: Mask, expected: int)
    ensures var wait := RowWait(Some(key), mask, 0, Some(expected), None, false, false);
            Answers(START, [Enter(0, Participant), Park(0, wait), EarlyReturn(0)]
                           + [MayReturn(0), ToGate(0), MayReturn(0), AnyPending])
            == [true, false, true]
  {
    var wait := RowWait(Some(key), mask, 0, Some(expected), None, false, false);
    var parked := Step(Step(START, Enter(0, Participant)), Park(0, wait));
    var moved := Step(parked, EarlyReturn(0));
    assert moved.Released(0);
    AtGate(moved);
    var asked := [MayReturn(0), ToGate(0), MayReturn(0), AnyPending];
    FirstAnswer(parked, EarlyReturn(0), asked);
    FirstAnswer(Step(START, Enter(0, Participant)), Park(0, wait), [EarlyReturn(0)] + asked);
    FirstAnswer(START, Enter(0, Participant), [Park(0, wait)] + ([EarlyReturn(0)] + asked));
    assert [Enter(0, Participant), Park(0, wait), EarlyReturn(0)] + asked
           == [Enter(0, Participant)] + ([Park(0, wait)] + ([EarlyReturn(0)] + asked));
  }

  lemma AtGate(h: History)
    requires h.IsFlagged(0) && h.Released(0)
    ensures Answers(h, [MayReturn(0), ToGate(0), MayReturn(0), AnyPending]) == [true, false, true]
  {
    var left := Step(h, ToGate(0));
    assert !left.Released(0) && left.IsFlagged(0);
    FirstAnswer(left, AnyPending, []);
    FirstAnswer(left, MayReturn(0), [AnyPending]);
    FirstAnswer(h, ToGate(0), [MayReturn(0), AnyPending]);
    FirstAnswer(h, MayReturn(0), [ToGate(0), MayReturn(0), AnyPending]);
    assert [MayReturn(0), ToGate(0), MayReturn(0), AnyPending]
           == [MayReturn(0)] + [ToGate(0), MayReturn(0), AnyPending];
    assert [ToGate(0), MayReturn(0), AnyPending] == [ToGate(0)] + [MayReturn(0), AnyPending];
    assert [MayReturn(0), AnyPending] == [MayReturn(0)] + [AnyPending];
    assert [AnyPending] == [AnyPending] + [];
  }
}
