/**
 Parking and unparking in a free-running domain. Each critical section of the census is one step; a thread
 back from a contended mutex does not wait for the census, so its return takes three steps, and its row may
 be updated later still, by whoever takes the census next.
 */
module Parking {
  import opened Options
  import opened Tally
  import B = Bipartite

  /** What a thread's row shows it waits in: a sim wait, or a native one on a word or a mutex. */
  datatype Wait = Wait(sim: bool, key: Option<int>, mutex: bool)

  datatype Row = Row(participant: bool, wait: Option<Wait>)

  type Rows = map<int, Row>

  /** A thread between its uncounting itself and its epoch move: `was` were parked until it did. */
  datatype Holding = Holding(was: int, recorded: bool)

  /** `counted` are the threads the participant count counts, `flagged` those flagged held at the gate, and
      `stale` those whose re-check ended the settling but that have yet to leave their wait. */
  datatype State = State(rows: Rows, counted: set<int>, flagged: set<int>, stale: set<int>,
                         queue: set<int>, holding: map<int, Holding>,
                         participants: int, parked: int, simParked: int, keyed: int, gated: int,
                         gateClosed: bool, settling: nat, epoch: nat)

  datatype Action =
    | Count(lineage: int) | Uncount(lineage: int)
    | AddRow(lineage: int, participant: bool) | RemoveRow(lineage: int) | SetClass(lineage: int, participant: bool)
    | Park(lineage: int, wait: Wait)
    | Unpark(lineage: int, settled: bool)
    | PassGate(lineage: int)
    | Uncounted(lineage: int) | Recorded(lineage: int, busy: bool) | Moved(lineage: int)
    | CloseGate | OpenGate
    | Settle(gauge: nat)
    | TakeCensus
    | IfQuiescent(checks: Checks, enter: bool)

  /** What a check of quiescence is told besides the counts: a waiter yet to run, joiners released, a native
      wait free to return, a lease (for setup or not), a timer due. */
  datatype Checks = Checks(settling: bool, joiners: nat, released: bool, lease: Option<bool>, due: bool)

  datatype Blocker = Runnable | Settling | Setup | Lease | Deferred | TimerDue

  const START := State(map[], {}, {}, {}, {}, map[], 0, 0, 0, 0, 0, false, 0, 0)

  function Cleared(row: Row): Row {
    Row(row.participant, None)
  }

  /** The rows once the queued records are applied. */
  function Drain(s: State): State {
    s.(rows := map l | l in s.rows :: if l in s.queue then Cleared(s.rows[l]) else s.rows[l], queue := {})
  }

  /** A thread still on its way out of a mutex wait has left it, whatever its row says. */
  predicate Left(s: State, l: int) {
    l in s.queue || (l in s.holding && !s.holding[l].recorded)
  }

  predicate IsParked(s: State, l: int) {
    l in s.rows && s.rows[l].wait.Some? && !Left(s, l)
  }

  /** A thread that may make a call: its row is there and it is not in the middle of one. */
  predicate Runs(s: State, l: int) {
    l in s.rows && !IsParked(s, l) && l !in s.holding
  }

  /** The epoch move of a park or an unpark with `parked` participants parked while it counts. */
  function CountedMove(s: State, parked: int): State {
    if parked >= s.participants then s.(epoch := s.epoch + 1) else s
  }

  function HeldAtGate(s: State, l: int): bool
    requires l in s.rows && s.rows[l].wait.Some?
  {
    s.gateClosed && !s.rows[l].wait.value.mutex
  }

  /** Held at the gate: off its word, and counted there once. */
  function Hold(s: State, l: int): State
    requires l in s.rows && s.rows[l].wait.Some?
  {
    var wait := s.rows[l].wait.value;
    s.(rows := s.rows[l := Row(s.rows[l].participant, Some(Wait(wait.sim, None, wait.mutex)))],
       keyed := if wait.key.Some? then s.keyed - 1 else s.keyed,
       flagged := s.flagged + {l},
       gated := if l in s.flagged then s.gated else s.gated + 1)
  }

  function ParkRow(s: State, l: int, wait: Wait): State
    requires l in s.rows
  {
    var after := s.(rows := s.rows[l := Row(s.rows[l].participant, Some(wait))],
                    parked := s.parked + 1,
                    simParked := if wait.sim then s.simParked + 1 else s.simParked,
                    keyed := if wait.key.Some? then s.keyed + 1 else s.keyed);
    if s.settling > 0 then after else CountedMove(after, after.parked)
  }

  function UnparkRow(s: State, l: int, settled: bool): State
    requires l in s.rows && s.rows[l].wait.Some?
  {
    var wait := s.rows[l].wait.value;
    var after := s.(rows := s.rows[l := Cleared(s.rows[l])],
                    parked := s.parked - 1,
                    simParked := if wait.sim then s.simParked - 1 else s.simParked,
                    keyed := if wait.key.Some? then s.keyed - 1 else s.keyed,
                    flagged := s.flagged - {l},
                    stale := s.stale - {l},
                    gated := if l in s.flagged then s.gated - 1 else s.gated);
    if settled then after else CountedMove(after, s.parked)
  }

  /** The waiter whose re-check ends the settling takes its mark off as it goes to leave. */
  function TakeMark(s: State, l: int, settled: bool): State {
    if settled && l !in s.stale && s.settling > 0 then s.(settling := s.settling - 1, stale := s.stale + {l}) else s
  }

  /** Only a sim wait's waiter leaves as settled: the one whose re-check ends the settling. */
  predicate MayLeave(s: State, l: int, settled: bool)
    requires l in s.rows && s.rows[l].wait.Some?
  {
    if settled then s.rows[l].wait.value.sim && (l in s.stale || s.settling > 0) else l !in s.stale
  }

  function Next(s: State, a: Action): State {
    match a
    case Count(l) =>
      if l !in s.counted then s.(counted := s.counted + {l}, participants := s.participants + 1) else s
    case Uncount(l) =>
      if l in s.counted && !IsParked(s, l) && l !in s.holding
      then s.(counted := s.counted - {l}, participants := s.participants - 1, epoch := s.epoch + 1) else s
    case AddRow(l, participant) =>
      if l !in s.rows then var d := Drain(s); d.(rows := d.rows[l := Row(participant, None)]) else s
    case RemoveRow(l) =>
      if Runs(s, l) then var d := Drain(s); d.(rows := d.rows - {l}) else s
    case SetClass(l, participant) =>
      if Runs(s, l) then var d := Drain(s); d.(rows := d.rows[l := Row(participant, None)]) else s
    case Park(l, wait) =>
      if Runs(s, l) && l in s.counted && s.rows[l].participant && (wait.sim ==> wait.key.None?)
      then ParkRow(Drain(s), l, wait) else s
    case Unpark(l, settled) =>
      if !IsParked(s, l) || !MayLeave(s, l, settled) then s
      else
        var d := Drain(TakeMark(s, l, settled));
        if HeldAtGate(d, l) then Hold(d, l) else UnparkRow(d, l, settled)
    case PassGate(l) =>
      if !IsParked(s, l) then s
      else var d := Drain(s); if HeldAtGate(d, l) then Hold(d, l) else d
    case Uncounted(l) =>
      if IsParked(s, l) && s.rows[l].wait == Some(Wait(false, None, true)) && l !in s.flagged
      then s.(parked := s.parked - 1, holding := s.holding[l := Holding(s.parked, false)]) else s
    case Recorded(l, busy) =>
      if !(l in s.holding && !s.holding[l].recorded) then s
      else
        var r := s.(holding := s.holding[l := Holding(s.holding[l].was, true)], queue := s.queue + {l});
        if busy then r else Drain(r)
    case Moved(l) =>
      if l in s.holding && s.holding[l].recorded
      then CountedMove(s.(holding := s.holding - {l}), s.holding[l].was) else s
    case CloseGate => Drain(s).(gateClosed := true)
    case OpenGate => Drain(s).(gateClosed := false)
    case Settle(gauge) => s.(settling := gauge)
    case TakeCensus => Drain(s)
    case IfQuiescent(checks, enter) =>
      var d := Drain(s);
      if FindBlocker(d, checks).None? && enter then d.(gateClosed := true) else d
  }

  /** What keeps the domain from being quiescent, most pressing first. */
  function FindBlocker(s: State, checks: Checks): Option<Blocker> {
    if s.parked < s.participants then Some(Runnable)
    else if checks.settling || checks.joiners > 0 || (s.gated > 0 && !s.gateClosed) || checks.released
    then Some(Settling)
    else if checks.lease.Some? then Some(if checks.lease.value then Setup else Lease)
    else if s.gated > 0 then Some(Deferred)
    else if checks.due then Some(TimerDue)
    else None
  }

  function Run(s: State, actions: seq<Action>): State
    decreases |actions|
  {
    if actions == [] then s else Next(Run(s, actions[..|actions| - 1]), actions[|actions| - 1])
  }

  // ------------------------------------------------------------------------------------------
  // What the counters count
  // ------------------------------------------------------------------------------------------

  /** Every row as its thread knows it to be. */
  ghost function View(s: State): Rows {
    map l | l in s.rows :: if Left(s, l) then Cleared(s.rows[l]) else s.rows[l]
  }

  predicate Waits(row: Row) {
    row.wait.Some?
  }

  predicate SimWaits(row: Row) {
    row.wait.Some? && row.wait.value.sim
  }

  predicate Keyed(row: Row) {
    row.wait.Some? && row.wait.value.key.Some?
  }

  /** The counters and the rows agree. */
  ghost predicate Tallies(s: State, view: Rows) {
    && s.parked == Number(view, Waits)
    && s.simParked == Number(view, SimWaits)
    && s.keyed == Number(view, Keyed)
    && s.participants == |s.counted|
    && s.gated == |s.flagged|
  }

  /** Only counted participants wait, and only they are held at the gate. */
  ghost predicate Proper(s: State, view: Rows) {
    && (forall l {:trigger view[l]} :: l in view && view[l].wait.Some? ==> l in s.counted && view[l].participant)
    && (forall l :: l in s.flagged ==> l in view && view[l].wait.Some?)
    && (forall l :: l in s.stale ==> l in view && SimWaits(view[l]))
  }

  /** A thread that has left is still shown in the mutex wait it left. */
  ghost predicate Leaving(s: State) {
    && (forall l {:trigger Left(s, l)} :: Left(s, l) ==>
          l in s.rows && s.rows[l].wait.Some? && s.rows[l].wait.value.key.None? && !s.rows[l].wait.value.sim)
    && (forall l :: l in s.holding ==> l in s.rows && !IsParked(s, l))
    && (forall l :: l in s.holding && !s.holding[l].recorded ==> l !in s.queue)
  }

  ghost predicate Sound(s: State) {
    Tallies(s, View(s)) && Proper(s, View(s)) && Leaving(s)
  }

  /** Draining changes no row as its thread knows it. */
  lemma DrainSound(s: State)
    requires Sound(s)
    ensures View(Drain(s)) == View(s) && Sound(Drain(s))
    ensures forall l :: IsParked(Drain(s), l) <==> IsParked(s, l)
    ensures forall l :: IsParked(s, l) ==> Drain(s).rows[l] == s.rows[l]
    ensures forall l :: Left(Drain(s), l) ==> Left(s, l)
  {
  }

  lemma RowView(s: State, l: int, row: Row, after: State)
    requires !Left(s, l) && after.rows == s.rows[l := row] && after.queue == s.queue && after.holding == s.holding
    ensures View(after) == View(s)[l := row]
  {
  }

  lemma RowTallies(view: Rows, l: int, row: Row)
    ensures Number(view[l := row], Waits) == Number(view, Waits) - One(l in view && Waits(view[l])) + One(Waits(row))
    ensures Number(view[l := row], SimWaits)
            == Number(view, SimWaits) - One(l in view && SimWaits(view[l])) + One(SimWaits(row))
    ensures Number(view[l := row], Keyed) == Number(view, Keyed) - One(l in view && Keyed(view[l])) + One(Keyed(row))
  {
    Changed(view, l, row, Waits);
    Changed(view, l, row, SimWaits);
    Changed(view, l, row, Keyed);
  }

  lemma RowLeaving(s: State, l: int, row: Row, after: State)
    requires Leaving(s) && !Left(s, l) && l !in s.holding
    requires after.rows == s.rows[l := row] && after.queue == s.queue && after.holding == s.holding
    ensures Leaving(after)
  {
    forall k
      ensures Left(after, k) == Left(s, k)
      ensures k != l ==> IsParked(after, k) == IsParked(s, k)
    {
    }
  }

  /** One row changes, and the counters and flags with it. */
  ghost predicate Changes(s: State, l: int, row: Row, after: State) {
    && after.rows == s.rows[l := row] && after.queue == s.queue && after.holding == s.holding
    && (row.wait.Some? ==> l in s.counted && row.participant)
    && after.counted == s.counted && after.participants == s.participants
    && Flags(s, l, row, after)
    && after.parked == s.parked - One(l in s.rows && Waits(s.rows[l])) + One(Waits(row))
    && after.simParked == s.simParked - One(l in s.rows && SimWaits(s.rows[l])) + One(SimWaits(row))
    && after.keyed == s.keyed - One(l in s.rows && Keyed(s.rows[l])) + One(Keyed(row))
  }

  ghost predicate Flags(s: State, l: int, row: Row, after: State) {
    && (s.gated == |s.flagged| ==> after.gated == |after.flagged|)
    && (forall k :: k in after.flagged ==> k == l || k in s.flagged)
    && (forall k :: k in after.stale ==> k == l || k in s.stale)
    && (l in after.flagged ==> row.wait.Some?)
    && (l in after.stale ==> SimWaits(row))
  }

  lemma RowSound(s: State, l: int, row: Row, after: State)
    requires Sound(s) && !Left(s, l) && l !in s.holding && Changes(s, l, row, after)
    ensures Sound(after)
  {
    RowLeaving(s, l, row, after);
    RowView(s, l, row, after);
    RowTallies(View(s), l, row);
    RowProper(s, View(s), l, row, after);
  }

  lemma RowProper(s: State, view: Rows, l: int, row: Row, after: State)
    requires Proper(s, view) && after.counted == s.counted && Flags(s, l, row, after)
    requires row.wait.Some? ==> l in s.counted && row.participant
    ensures Proper(after, view[l := row])
  {
  }

  lemma NotHolding(s: State, l: int)
    requires Leaving(s) && IsParked(s, l)
    ensures l !in s.holding && !Left(s, l)
  {
  }

  lemma ParkChanges(s: State, l: int, wait: Wait)
    requires l in s.rows && s.rows[l].wait.None? && s.rows[l].participant && l in s.counted && l !in s.stale
    ensures Changes(s, l, Row(true, Some(wait)), ParkRow(s, l, wait))
  {
  }

  lemma ParkSound(s: State, l: int, wait: Wait)
    requires Sound(s) && s.queue == {} && Runs(s, l) && l in s.counted && s.rows[l].participant
    ensures Sound(ParkRow(s, l, wait))
  {
    assert l in View(s) && View(s)[l].wait.None?;
    ParkChanges(s, l, wait);
    RowSound(s, l, Row(true, Some(wait)), ParkRow(s, l, wait));
  }

  lemma UnparkChanges(s: State, l: int, settled: bool)
    requires l in s.rows && s.rows[l].wait.Some?
    ensures Changes(s, l, Cleared(s.rows[l]), UnparkRow(s, l, settled))
  {
  }

  lemma UnparkSound(s: State, l: int, settled: bool)
    requires Sound(s) && s.queue == {} && IsParked(s, l)
    ensures Sound(UnparkRow(s, l, settled))
  {
    NotHolding(s, l);
    UnparkChanges(s, l, settled);
    RowSound(s, l, Cleared(s.rows[l]), UnparkRow(s, l, settled));
  }

  lemma HoldChanges(s: State, l: int, row: Row)
    requires l in s.rows && s.rows[l].wait.Some? && s.rows[l].participant && l in s.counted
    requires l in s.stale ==> SimWaits(s.rows[l])
    requires row == Row(true, Some(Wait(s.rows[l].wait.value.sim, None, s.rows[l].wait.value.mutex)))
    ensures Changes(s, l, row, Hold(s, l))
  {
  }

  lemma HoldSound(s: State, l: int)
    requires Sound(s) && s.queue == {} && IsParked(s, l)
    ensures Sound(Hold(s, l))
  {
    NotHolding(s, l);
    assert l in View(s) && View(s)[l] == s.rows[l];
    var row := Row(true, Some(Wait(s.rows[l].wait.value.sim, None, s.rows[l].wait.value.mutex)));
    HoldChanges(s, l, row);
    RowSound(s, l, row, Hold(s, l));
  }

  /** A thread that has uncounted itself is off its wait though its row does not show it. */
  lemma UncountedSound(s: State, l: int)
    requires Sound(s)
    ensures Sound(Next(s, Uncounted(l)))
  {
    var after := Next(s, Uncounted(l));
    if after != s {
      NotHolding(s, l);
      forall k
        ensures Left(after, k) == (k == l || Left(s, k))
      {
      }
      assert View(after) == View(s)[l := Cleared(s.rows[l])];
      RowTallies(View(s), l, Cleared(s.rows[l]));
      RowProper(s, View(s), l, Cleared(s.rows[l]), after);
    }
  }

  lemma RecordedView(s: State, l: int, r: State)
    requires Sound(s) && l in s.holding && !s.holding[l].recorded
    requires r == s.(holding := s.holding[l := Holding(s.holding[l].was, true)], queue := s.queue + {l})
    ensures View(r) == View(s) && Leaving(r)
  {
    forall k
      ensures Left(r, k) == Left(s, k)
    {
    }
  }

  lemma RecordedSound(s: State, l: int, busy: bool)
    requires Sound(s)
    ensures Sound(Next(s, Recorded(l, busy)))
  {
    if l in s.holding && !s.holding[l].recorded {
      var r := s.(holding := s.holding[l := Holding(s.holding[l].was, true)], queue := s.queue + {l});
      RecordedView(s, l, r);
      assert Sound(r);
      if !busy {
        DrainSound(r);
      }
    }
  }

  lemma MovedSound(s: State, l: int)
    requires Sound(s)
    ensures Sound(Next(s, Moved(l)))
  {
    var after := Next(s, Moved(l));
    if after != s {
      forall k
        ensures Left(after, k) == Left(s, k)
      {
      }
      assert View(after) == View(s);
    }
  }

  lemma MarkSound(s: State, l: int, settled: bool)
    requires Sound(s) && IsParked(s, l) && MayLeave(s, l, settled)
    ensures Sound(TakeMark(s, l, settled)) && IsParked(TakeMark(s, l, settled), l)
  {
    var after := TakeMark(s, l, settled);
    forall k
      ensures Left(after, k) == Left(s, k) && IsParked(after, k) == IsParked(s, k)
    {
    }
    assert View(after) == View(s) && View(s)[l] == s.rows[l];
  }

  lemma LeaveSound(s: State, a: Action)
    requires Sound(s) && (a.Unpark? || a.PassGate?)
    ensures Sound(Next(s, a))
  {
    var l := a.lineage;
    if IsParked(s, l) && (a.Unpark? ==> MayLeave(s, l, a.settled)) {
      var marked := s;
      if a.Unpark? {
        marked := TakeMark(s, l, a.settled);
        MarkSound(s, l, a.settled);
      }
      var d := Drain(marked);
      DrainSound(marked);
      if HeldAtGate(d, l) {
        HoldSound(d, l);
      } else if a.Unpark? {
        UnparkSound(d, l, a.settled);
      }
    }
  }

  lemma RowRemovedSound(s: State, l: int)
    requires Sound(s) && s.queue == {} && Runs(s, l)
    ensures Sound(s.(rows := s.rows - {l}))
  {
    var after := s.(rows := s.rows - {l});
    forall k
      ensures Left(after, k) == Left(s, k) && (k != l ==> IsParked(after, k) == IsParked(s, k))
    {
    }
    assert View(s)[l] == s.rows[l];
    assert View(after) == View(s) - {l};
    Removed(View(s), l, Waits);
    Removed(View(s), l, SimWaits);
    Removed(View(s), l, Keyed);
  }

  lemma RowSetSound(s: State, l: int, participant: bool)
    requires Sound(s) && s.queue == {} && l !in s.holding && !IsParked(s, l)
    ensures Sound(s.(rows := s.rows[l := Row(participant, None)]))
  {
    assert l in View(s) ==> l in s.rows && View(s)[l] == s.rows[l];
    RowSound(s, l, Row(participant, None), s.(rows := s.rows[l := Row(participant, None)]));
  }

  lemma MembershipSound(s: State, a: Action)
    requires Sound(s) && (a.AddRow? || a.RemoveRow? || a.SetClass?)
    ensures Sound(Next(s, a))
  {
    DrainSound(s);
    var d, l := Drain(s), a.lineage;
    if a.AddRow? && l !in s.rows {
      RowSetSound(d, l, a.participant);
    } else if a.RemoveRow? && Runs(s, l) {
      RowRemovedSound(d, l);
    } else if a.SetClass? && Runs(s, l) {
      RowSetSound(d, l, a.participant);
    }
  }

  lemma SameView(s: State, after: State)
    requires Sound(s) && after.rows == s.rows && after.queue == s.queue && after.holding == s.holding
    requires Tallies(after, View(s)) && Proper(after, View(s))
    ensures Sound(after)
  {
    forall k
      ensures Left(after, k) == Left(s, k) && IsParked(after, k) == IsParked(s, k)
    {
    }
    assert View(after) == View(s);
  }

  lemma CountSound(s: State, l: int)
    requires Sound(s)
    ensures Sound(Next(s, Count(l)))
  {
    SameView(s, Next(s, Count(l)));
  }

  lemma UncountSound(s: State, l: int)
    requires Sound(s)
    ensures Sound(Next(s, Uncount(l)))
  {
    assert l in View(s) && View(s)[l].wait.Some? ==> IsParked(s, l);
    SameView(s, Next(s, Uncount(l)));
  }

  lemma CensusSound(s: State, a: Action)
    requires Sound(s) && (a.CloseGate? || a.OpenGate? || a.Settle? || a.TakeCensus? || a.IfQuiescent?)
    ensures Sound(Next(s, a))
  {
    DrainSound(s);
    if a.Settle? {
      SameView(s, Next(s, a));
    } else {
      SameView(Drain(s), Next(s, a));
    }
  }

  lemma NextSound(s: State, a: Action)
    requires Sound(s)
    ensures Sound(Next(s, a))
  {
    match a
    case Count(l) => CountSound(s, l);
    case Uncount(l) => UncountSound(s, l);
    case AddRow(_, _) => MembershipSound(s, a);
    case RemoveRow(_) => MembershipSound(s, a);
    case SetClass(_, _) => MembershipSound(s, a);
    case Park(l, wait) =>
      DrainSound(s);
      if Runs(s, l) && l in s.counted && s.rows[l].participant && (wait.sim ==> wait.key.None?) {
        ParkSound(Drain(s), l, wait);
      }
    case Unpark(_, _) => LeaveSound(s, a);
    case PassGate(_) => LeaveSound(s, a);
    case Uncounted(l) => UncountedSound(s, l);
    case Recorded(l, busy) => RecordedSound(s, l, busy);
    case Moved(l) => MovedSound(s, l);
    case _ => CensusSound(s, a);
  }

  lemma {:induction false} RunSound(actions: seq<Action>)
    ensures Sound(Run(START, actions))
    decreases |actions|
  {
    if actions == [] {
      assert View(START) == map[];
    } else {
      RunSound(actions[..|actions| - 1]);
      NextSound(Run(START, actions[..|actions| - 1]), actions[|actions| - 1]);
    }
  }

  // ------------------------------------------------------------------------------------------
  // The counters, over every run
  // ------------------------------------------------------------------------------------------

  ghost function Parked(s: State): set<int> {
    set l | l in s.rows && IsParked(s, l)
  }

  lemma ViewParked(s: State)
    requires Sound(s)
    ensures Those(View(s), Waits) == Parked(s) && Parked(s) <= s.counted
    ensures Those(View(s), SimWaits) == Those(s.rows, SimWaits) && Those(View(s), Keyed) == Those(s.rows, Keyed)
  {
  }

  /** In every reachable state each counter counts just what it stands for. */
  lemma CountersAgree(actions: seq<Action>)
    ensures var s := Run(START, actions);
            && s.parked == |Parked(s)|
            && s.simParked == Number(s.rows, SimWaits)
            && s.keyed == Number(s.rows, Keyed)
            && s.gated == |s.flagged| && s.flagged <= Parked(s)
            && s.simParked <= s.parked <= s.participants
  {
    RunSound(actions);
    var s := Run(START, actions);
    ViewParked(s);
    assert forall l :: l in s.flagged ==> l in Those(View(s), Waits);
    Fewer(View(s), SimWaits, Waits);
    B.SubsetSize(Parked(s), s.counted);
  }

  lemma ParkedBound(s: State)
    requires Sound(s)
    ensures s.parked <= s.participants
    ensures s.parked == s.participants ==> Parked(s) == s.counted
  {
    ViewParked(s);
    B.SubsetSize(Parked(s), s.counted);
    forall l | l in s.counted && l !in Parked(s)
      ensures s.parked < s.participants
    {
      B.SmallerSubset(Parked(s), s.counted, l);
    }
  }

  // ------------------------------------------------------------------------------------------
  // The timestamp gate
  // ------------------------------------------------------------------------------------------

  /** Parked, and not in a contended mutex. */
  predicate Kept(s: State, l: int) {
    IsParked(s, l) && !s.rows[l].wait.value.mutex
  }

  lemma DrainKept(s: State, l: int)
    requires Kept(s, l)
    ensures Kept(Drain(s), l) && Drain(s).rows[l] == s.rows[l]
  {
  }

  lemma LeaveKept(s: State, a: Action, l: int)
    requires s.gateClosed && (a.Unpark? || a.PassGate?) && Kept(s, l)
    ensures Next(s, a).gateClosed && Kept(Next(s, a), l)
  {
  }

  lemma NextKept(s: State, a: Action, l: int)
    requires Sound(s) && s.gateClosed && !a.OpenGate? && Kept(s, l)
    ensures Next(s, a).gateClosed && Kept(Next(s, a), l)
  {
    DrainKept(s, l);
    if a.Unpark? || a.PassGate? {
      LeaveKept(s, a, l);
    } else if a.Recorded? || a.Moved? || a.Uncounted? {
      HoldingKept(s, a, l);
    }
  }

  lemma HoldingKept(s: State, a: Action, l: int)
    requires Sound(s) && s.gateClosed && (a.Recorded? || a.Moved? || a.Uncounted?) && Kept(s, l)
    ensures Next(s, a).gateClosed && Kept(Next(s, a), l)
  {
  }

  predicate NoneOpens(actions: seq<Action>) {
    forall i :: 0 <= i < |actions| ==> !actions[i].OpenGate?
  }

  /** While the gate is closed no participant leaves a wait, unless it is back from a contended mutex. */
  lemma {:induction false} GateHolds(s: State, actions: seq<Action>, l: int)
    requires Sound(s) && s.gateClosed && Kept(s, l) && NoneOpens(actions)
    ensures Run(s, actions).gateClosed && Kept(Run(s, actions), l) && Sound(Run(s, actions))
    decreases |actions|
  {
    if actions != [] {
      var n := |actions| - 1;
      GateHolds(s, actions[..n], l);
      NextSound(Run(s, actions[..n]), actions[n]);
      NextKept(Run(s, actions[..n]), actions[n], l);
    }
  }

  /** Once it opens, a thread held there leaves its wait, uncounted from the parked and from the gate. */
  lemma GateOpens(s: State, l: int)
    requires Sound(s) && l in s.flagged
    ensures var after := Next(Next(s, OpenGate), Unpark(l, l in s.stale));
            && !IsParked(after, l) && after.flagged == s.flagged - {l}
            && after.parked == s.parked - 1 && after.gated == s.gated - 1
  {
    assert l in View(s) && View(s)[l].wait.Some?;
    LeavesOpen(Next(s, OpenGate), l, l in s.stale);
  }

  /** With the gate open, or from a contended mutex, a wait that may be left is left. */
  lemma LeavesOpen(s: State, l: int, settled: bool)
    requires IsParked(s, l) && MayLeave(s, l, settled) && (!s.gateClosed || s.rows[l].wait.value.mutex)
    ensures var after := Next(s, Unpark(l, settled));
            && !IsParked(after, l) && after.flagged == s.flagged - {l}
            && after.parked == s.parked - 1 && after.gated == if l in s.flagged then s.gated - 1 else s.gated
  {
  }

  /** A running participant that parks is parked, in the wait it began. */
  lemma ParksIn(s: State, l: int, wait: Wait)
    requires Runs(s, l) && l in s.counted && s.rows[l].participant && (wait.sim ==> wait.key.None?)
    ensures var after := Next(s, Park(l, wait));
            IsParked(after, l) && after.rows[l].wait == Some(wait) && after.parked == s.parked + 1
  {
    assert Next(s, Park(l, wait)) == ParkRow(Drain(s), l, wait);
  }

  /** A thread that returns from its wait with the gate closed is held: parked still, off its word, counted at the
      gate once however often it tries. */
  lemma HeldThere(s: State, l: int, a: Action)
    requires Sound(s) && s.gateClosed && Kept(s, l) && (a == PassGate(l) || a == Unpark(l, l in s.stale))
    ensures var held := Next(s, a);
            && IsParked(held, l) && held.rows[l].wait.value.key == None && held.parked == s.parked
            && held.flagged == s.flagged + {l} && held.gated == |s.flagged + {l}|
  {
    NextSound(s, a);
    DrainKept(s, l);
  }

  /** The waiter that ended the settling takes its mark off as it is held, and only once. */
  lemma MarkTaken(s: State, l: int)
    requires s.gateClosed && Kept(s, l) && s.rows[l].wait.value.sim && l !in s.stale && s.settling > 0
    ensures var held := Next(s, Unpark(l, true));
            && held.settling == s.settling - 1 && held.stale == s.stale + {l} && IsParked(held, l)
            && Next(held, Unpark(l, true)).settling == held.settling
  {
    DrainKept(s, l);
  }

  /** A thread back from a contended mutex runs again after its three steps, its row cleared. */
  lemma BackFromMutex(s: State, l: int)
    requires Sound(s) && IsParked(s, l) && s.rows[l].wait == Some(Wait(false, None, true)) && l !in s.flagged
    ensures var left := Next(s, Uncounted(l));
            var after := Next(Next(left, Recorded(l, false)), Moved(l));
            && !IsParked(left, l) && left.parked == s.parked - 1
            && Runs(after, l) && after.rows[l].wait == None && after.holding == s.holding
            && after.parked == s.parked - 1
            && after.epoch == s.epoch + if s.parked >= s.participants then 1 else 0
  {
    NotHolding(s, l);
    var left := Next(s, Uncounted(l));
    assert left == s.(parked := s.parked - 1, holding := s.holding[l := Holding(s.parked, false)]);
    RecordedRuns(left, l, s.holding);
  }

  lemma RecordedRuns(s: State, l: int, others: map<int, Holding>)
    requires l in s.rows && l !in others && l in s.holding && !s.holding[l].recorded
    requires s.holding == others[l := s.holding[l]]
    ensures var after := Next(Next(s, Recorded(l, false)), Moved(l));
            && Runs(after, l) && after.rows[l].wait == None && after.holding == others && after.parked == s.parked
            && after.epoch == s.epoch + if s.holding[l].was >= s.participants then 1 else 0
  {
    var recorded := Next(s, Recorded(l, false));
    assert recorded.holding == others[l := Holding(s.holding[l].was, true)];
    assert recorded.holding - {l} == others;
    assert recorded.rows[l] == Cleared(s.rows[l]) && recorded.queue == {};
  }

  /** A thread that enters and goes again leaves the participants and every row as they were. */
  lemma EnterAndGo(s: State, l: int)
    requires Sound(s) && l !in s.rows && l !in s.counted
    ensures var entered := Next(Next(s, Count(l)), AddRow(l, true));
            var gone := Next(Next(entered, RemoveRow(l)), Uncount(l));
            && entered.participants == s.participants + 1 && Runs(entered, l)
            && gone == Drain(s).(epoch := s.epoch + 1)
  {
    NotThere(s, l);
    var d := Drain(s);
    var entered := Next(Next(s, Count(l)), AddRow(l, true));
    assert entered == d.(counted := s.counted + {l}, participants := s.participants + 1,
                         rows := d.rows[l := Row(true, None)]);
    Goes(d, l, entered);
  }

  lemma NotThere(s: State, l: int)
    requires Leaving(s) && l !in s.rows
    ensures l !in s.holding && l !in s.queue
  {
    assert l in s.queue ==> Left(s, l);
  }

  lemma Goes(d: State, l: int, entered: State)
    requires d.queue == {} && l !in d.rows && l !in d.counted && l !in d.holding
    requires entered == d.(counted := d.counted + {l}, participants := d.participants + 1,
                           rows := d.rows[l := Row(true, None)])
    ensures Runs(entered, l) && Next(Next(entered, RemoveRow(l)), Uncount(l)) == d.(epoch := d.epoch + 1)
  {
    var removed := Next(entered, RemoveRow(l));
    assert Drain(entered).rows == entered.rows;
    assert removed.rows == d.rows;
    assert removed.counted - {l} == d.counted;
  }

  /** A thread that changes class shows it and waits in nothing. */
  lemma ClassChanges(s: State, l: int, participant: bool)
    requires Runs(s, l)
    ensures Next(s, SetClass(l, participant)).rows == Drain(s).rows[l := Row(participant, None)]
  {
  }

  /** An executive that found the domain quiescent and entered keeps it so: every participant was parked,
      none held at the gate, and until the gate opens only threads back from a mutex run again. */
  lemma TimestampHeld(before: seq<Action>, checks: Checks, after: seq<Action>, l: int)
    requires NoneOpens(after)
    requires FindBlocker(Run(START, before), checks).None? && l in Run(START, before).counted
    ensures var s := Run(START, before);
            && IsParked(s, l) && s.flagged == {}
            && (!s.rows[l].wait.value.mutex ==> IsParked(Run(Next(s, IfQuiescent(checks, true)), after), l))
  {
    RunSound(before);
    var s := Run(START, before);
    NoBlocker(s, checks, l);
    if !s.rows[l].wait.value.mutex {
      Entered(s, checks, l);
      GateHolds(Next(s, IfQuiescent(checks, true)), after, l);
    }
  }

  /** A thread has been woken and has yet to run: a waiter, a joiner, one the gate has let through, or one a
      native wait has released. */
  predicate Waking(s: State, checks: Checks) {
    checks.settling || checks.joiners > 0 || checks.released || (s.flagged != {} && !s.gateClosed)
  }

  /** Which blocker a check names, and that it names none exactly when nothing could run or hold time back. */
  lemma BlockerMeans(s: State, checks: Checks)
    requires Sound(s)
    ensures var blocker, running := FindBlocker(s, checks), s.counted - Parked(s);
            && (blocker == Some(Runnable) <==> running != {})
            && (blocker == Some(Settling) <==> running == {} && Waking(s, checks))
            && (blocker == Some(Setup) <==> running == {} && !Waking(s, checks) && checks.lease == Some(true))
            && (blocker == Some(Lease) <==> running == {} && !Waking(s, checks) && checks.lease == Some(false))
            && (blocker == Some(Deferred) <==>
                  running == {} && !Waking(s, checks) && checks.lease == None && s.flagged != {})
            && (blocker == Some(TimerDue) <==>
                  running == {} && !Waking(s, checks) && checks.lease == None && s.flagged == {} && checks.due)
            && (blocker == None <==>
                  running == {} && !Waking(s, checks) && checks.lease == None && s.flagged == {} && !checks.due)
  {
    ParkedBound(s);
    ViewParked(s);
    NoneLeft(s.counted, Parked(s));
  }

  lemma NoneLeft(a: set<int>, b: set<int>)
    requires b <= a
    ensures a - b == {} <==> a == b
  {
    if a - b == {} {
      forall x | x in a
        ensures x in b
      {
        assert x !in a - b;
      }
    }
  }

  /** An executive closes the gate exactly when it means to enter and nothing blocks. */
  lemma EntersUnblocked(s: State, checks: Checks, enter: bool)
    ensures Next(s, IfQuiescent(checks, enter)).gateClosed <==>
              s.gateClosed || (enter && FindBlocker(s, checks).None?)
  {
  }

  /** A check that finds no blocker finds every participant parked and none at the gate. */
  lemma NoBlocker(s: State, checks: Checks, l: int)
    requires Sound(s) && FindBlocker(s, checks).None? && l in s.counted
    ensures IsParked(s, l) && s.flagged == {}
  {
    ParkedBound(s);
    assert l in Parked(s);
  }

  /** Entering closes the gate on every one not in a mutex. */
  lemma Entered(s: State, checks: Checks, l: int)
    requires Sound(s) && FindBlocker(s, checks).None? && Kept(s, l)
    ensures var entered := Next(s, IfQuiescent(checks, true));
            Sound(entered) && entered.gateClosed && Kept(entered, l)
  {
    NextSound(s, IfQuiescent(checks, true));
    DrainKept(s, l);
    SameParked(Drain(s), Next(s, IfQuiescent(checks, true)));
  }

  lemma SameParked(s: State, after: State)
    requires after.rows == s.rows && after.queue == s.queue && after.holding == s.holding
    ensures forall l :: IsParked(after, l) == IsParked(s, l)
  {
  }

  // ------------------------------------------------------------------------------------------
  // The epoch
  // ------------------------------------------------------------------------------------------

  /** Every participant is parked and no waiter is settling. */
  predicate AllIn(s: State) {
    s.parked >= s.participants && s.settling == 0
  }

  /** A park, an unpark or a step of one, the gate, or anyone's look at the census. */
  predicate Parks(a: Action) {
    a.Park? || a.Unpark? || a.PassGate? || a.Uncounted? || a.Recorded? || a.Moved? || a.CloseGate? || a.OpenGate?
    || a.TakeCensus?
  }

  /** When a step moves the epoch: a park that leaves every participant parked and none settling, an unpark of one
      of them all parked, unless it ends the settling itself, and a participant that goes. */
  predicate MovesEpoch(s: State, a: Action) {
    match a
    case Park(_, _) => Next(s, a).parked == s.parked + 1 && AllIn(Next(s, a))
    case Unpark(_, settled) => !settled && Next(s, a).parked == s.parked - 1 && s.parked >= s.participants
    case Moved(l) => l in s.holding && s.holding[l].recorded && s.holding[l].was >= s.participants
    case Uncount(_) => Next(s, a).participants == s.participants - 1
    case _ => false
  }

  lemma EpochMoves(s: State, a: Action)
    ensures Next(s, a).epoch == s.epoch + if MovesEpoch(s, a) then 1 else 0
  {
  }

  /** The waiter that ended the settling is held at the gate, with everyone parked, or leaves only after. */
  predicate Disturbs(s: State, a: Action) {
    && a.Unpark? && a.settled && IsParked(s, a.lineage) && MayLeave(s, a.lineage, true)
    && if HeldAtGate(s, a.lineage) then a.lineage !in s.stale && s.settling == 1 && s.parked >= s.participants
       else a.lineage in s.stale && AllIn(s)
  }

  /** A step made under the census that leaves the epoch unmoved changes whether all are in exactly when
      it disturbs. */
  lemma StepSteady(s: State, a: Action)
    requires Sound(s) && Parks(a) && !a.Uncounted? && !a.Moved? && Next(s, a).epoch == s.epoch
    ensures AllIn(Next(s, a)) == AllIn(s) <==> !Disturbs(s, a)
  {
    ParkedBound(s);
    if a.Unpark? && IsParked(s, a.lineage) && MayLeave(s, a.lineage, a.settled) {
      SettledSteady(s, a.lineage, a.settled);
    }
  }

  lemma SettledSteady(s: State, l: int, settled: bool)
    requires Sound(s) && IsParked(s, l) && MayLeave(s, l, settled) && Next(s, Unpark(l, settled)).epoch == s.epoch
    ensures AllIn(Next(s, Unpark(l, settled))) == AllIn(s) <==> !Disturbs(s, Unpark(l, settled))
  {
    ParkedBound(s);
    assert Drain(TakeMark(s, l, settled)).rows[l] == s.rows[l];
  }

  /** The epoch has moved since `e`, or a thread on its way out of a mutex wait is about to move it. */
  ghost predicate Moving(s: State, e: nat) {
    s.epoch > e || exists l :: l in s.holding && s.holding[l].was >= s.participants
  }

  lemma StepMoving(s: State, a: Action, e: nat)
    requires Sound(s) && Parks(a) && s.epoch >= e && Moving(s, e)
    ensures Moving(Next(s, a), e)
  {
    StepEpoch(s, a);
    if s.epoch == e {
      var l :| l in s.holding && s.holding[l].was >= s.participants;
      StepHolding(s, a, l);
      assert l in Next(s, a).holding || Next(s, a).epoch > e;
    }
  }

  /** Only the three steps of such a return touch who is making one. */
  lemma OthersHolding(s: State, a: Action)
    requires Parks(a) && !a.Uncounted? && !a.Recorded? && !a.Moved?
    ensures Next(s, a).holding == s.holding
  {
  }

  lemma StepHolding(s: State, a: Action, l: int)
    requires Sound(s) && Parks(a) && l in s.holding
    ensures a != Moved(l) ==> l in Next(s, a).holding && Next(s, a).holding[l].was == s.holding[l].was
    ensures a == Moved(l) && s.holding[l].was >= s.participants ==>
              Next(s, a).holding == s.holding || Next(s, a).epoch > s.epoch
  {
    if a.Uncounted? || a.Recorded? || a.Moved? {
      ReturnHolding(s, a, l);
    } else {
      OthersHolding(s, a);
    }
  }

  lemma ReturnHolding(s: State, a: Action, l: int)
    requires (a.Uncounted? || a.Recorded? || a.Moved?) && l in s.holding && !IsParked(s, l)
    ensures a != Moved(l) ==> l in Next(s, a).holding && Next(s, a).holding[l].was == s.holding[l].was
    ensures a == Moved(l) && s.holding[l].was >= s.participants ==>
              Next(s, a).holding == s.holding || Next(s, a).epoch > s.epoch
  {
  }

  lemma StepEpoch(s: State, a: Action)
    requires Parks(a)
    ensures Next(s, a).epoch >= s.epoch && Next(s, a).participants == s.participants
  {
  }

  lemma StepEither(s: State, a: Action)
    requires Sound(s) && Parks(a) && !Disturbs(s, a)
    ensures AllIn(Next(s, a)) == AllIn(s) || Moving(Next(s, a), s.epoch)
  {
    StepEpoch(s, a);
    if a.Uncounted? && Next(s, a) != s {
      assert a.lineage in Next(s, a).holding;
    } else if !a.Uncounted? && !a.Moved? && Next(s, a).epoch == s.epoch {
      StepSteady(s, a);
    }
  }

  /** Parks and unparks, none of which disturbs. */
  ghost predicate Undisturbed(s: State, actions: seq<Action>)
    decreases |actions|
  {
    if actions == [] then true
    else
      && Undisturbed(s, actions[..|actions| - 1]) && Parks(actions[|actions| - 1])
      && !Disturbs(Run(s, actions[..|actions| - 1]), actions[|actions| - 1])
  }

  /** After every one of the actions it is as it was before the first whether all are in. */
  ghost predicate Steady(s: State, actions: seq<Action>)
    decreases |actions|
  {
    AllIn(Run(s, actions)) == AllIn(s) && (actions == [] || Steady(s, actions[..|actions| - 1]))
  }

  lemma {:induction false} SteadyOrMoving(s: State, actions: seq<Action>)
    requires Sound(s) && Undisturbed(s, actions)
    ensures Sound(Run(s, actions)) && Run(s, actions).epoch >= s.epoch
    ensures Steady(s, actions) || Moving(Run(s, actions), s.epoch)
    decreases |actions|
  {
    if actions != [] {
      var n := |actions| - 1;
      var now, last := Run(s, actions[..n]), actions[n];
      SteadyOrMoving(s, actions[..n]);
      NextSound(now, last);
      StepEpoch(now, last);
      if Moving(now, s.epoch) {
        StepMoving(now, last, s.epoch);
      } else {
        StepEither(now, last);
      }
    }
  }

  predicate AllPark(actions: seq<Action>) {
    forall i :: 0 <= i < |actions| ==> Parks(actions[i])
  }

  lemma {:induction false} EpochGrows(s: State, actions: seq<Action>)
    requires Sound(s) && AllPark(actions)
    ensures Sound(Run(s, actions)) && Run(s, actions).epoch >= s.epoch
    decreases |actions|
  {
    if actions != [] {
      var n := |actions| - 1;
      EpochGrows(s, actions[..n]);
      NextSound(Run(s, actions[..n]), actions[n]);
      StepEpoch(Run(s, actions[..n]), actions[n]);
    }
  }

  lemma {:induction false} SteadyUndisturbed(s: State, actions: seq<Action>)
    requires Sound(s) && AllPark(actions) && Run(s, actions).epoch == s.epoch && Steady(s, actions)
    ensures Undisturbed(s, actions)
    decreases |actions|
  {
    if actions != [] {
      var n := |actions| - 1;
      var now, last := Run(s, actions[..n]), actions[n];
      EpochGrows(s, actions[..n]);
      StepEpoch(now, last);
      SteadyUndisturbed(s, actions[..n]);
      if last.Unpark? {
        StepSteady(now, last);
      }
    }
  }

  /** A stretch of parks and unparks that leaves the epoch unmoved, with no thread on its way out of a mutex
      wait at its end, leaves it unchanged all along whether every participant is parked and none settling,
      exactly when nothing in it disturbs. */
  lemma UnmovedEpoch(s: State, actions: seq<Action>)
    requires Sound(s) && AllPark(actions)
    requires Run(s, actions).holding == map[] && Run(s, actions).epoch == s.epoch
    ensures Steady(s, actions) <==> Undisturbed(s, actions)
  {
    if Undisturbed(s, actions) {
      SteadyOrMoving(s, actions);
    }
    if Steady(s, actions) {
      SteadyUndisturbed(s, actions);
    }
  }

  /** With one on its way out it can change, though nothing disturbs and the epoch is yet to move. */
  lemma StillHolding(s: State, l: int)
    requires IsParked(s, l) && s.rows[l].wait == Some(Wait(false, None, true)) && l !in s.flagged
    requires s.settling == 0 && s.parked == s.participants
    ensures var after := Next(s, Uncounted(l));
            !Disturbs(s, Uncounted(l)) && after.epoch == s.epoch && after.holding != map[] && AllIn(s) && !AllIn(after)
  {
    assert l in Next(s, Uncounted(l)).holding;
  }

  /** The stretch can be disturbed: the last waiter to settle meets a closed gate. */
  lemma HeldAtGateDisturbs() returns (actions: seq<Action>)
    ensures var s := Run(START, actions);
            var held := Next(s, Unpark(1, true));
            Disturbs(s, Unpark(1, true)) && held.epoch == s.epoch && AllIn(held) && !AllIn(s)
  {
    var wait := Wait(true, None, false);
    var parked := OneParked(wait);
    var closed := Next(Next(parked, Settle(1)), CloseGate);
    assert closed == parked.(settling := 1, gateClosed := true);
    actions := [Count(1), AddRow(1, true), Park(1, wait), Settle(1), CloseGate];
    RunFive(START, Count(1), AddRow(1, true), Park(1, wait), Settle(1), CloseGate);
    assert Run(START, actions) == closed;
    LastSettlerHeld(closed);
  }

  lemma OneParked(wait: Wait) returns (parked: State)
    requires wait == Wait(true, None, false)
    ensures parked == Next(Next(Next(START, Count(1)), AddRow(1, true)), Park(1, wait))
    ensures parked == START.(counted := {1}, participants := 1, rows := map[1 := Row(true, Some(wait))],
                             parked := 1, simParked := 1, epoch := 1)
  {
    var joined := Next(Next(START, Count(1)), AddRow(1, true));
    assert joined == START.(counted := {1}, participants := 1, rows := map[1 := Row(true, None)]);
    parked := Next(joined, Park(1, wait));
  }

  lemma LastSettlerHeld(s: State)
    requires IsParked(s, 1) && s.rows[1].wait.value.sim && !s.rows[1].wait.value.mutex && s.gateClosed
    requires 1 !in s.stale && s.settling == 1 && s.parked >= s.participants
    ensures var held := Next(s, Unpark(1, true));
            Disturbs(s, Unpark(1, true)) && held.epoch == s.epoch && AllIn(held) && !AllIn(s)
  {
  }

  lemma RunFive(s: State, a: Action, b: Action, c: Action, d: Action, e: Action)
    ensures Run(s, [a, b, c, d, e]) == Next(Next(Next(Next(Next(s, a), b), c), d), e)
  {
    assert [a, b, c, d, e][..4] == [a, b, c, d] && [a, b, c, d][..3] == [a, b, c];
    assert [a, b, c][..2] == [a, b] && [a, b][..1] == [a];
    assert Run(s, [a]) == Next(Run(s, []), a);
    assert Run(s, [a, b]) == Next(Run(s, [a]), b);
    assert Run(s, [a, b, c]) == Next(Run(s, [a, b]), c);
    assert Run(s, [a, b, c, d]) == Next(Run(s, [a, b, c]), d);
  }
}
