/**
 The queue of changes a hook leaves for the census's next holder: a ring any number of threads push to
 without waiting, drained by the holder alone. Every atomic access, and every write and read of a slot's
 value, is a step of its own.
 */
module PendingQueue {
  import opened Options

  const CAPACITY := 1024

  /** `ticket` is the one the slot may take next, or one past the one it holds. */
  datatype Slot = Slot(ticket: int, value: int)

  /** Where a push is. */
  datatype Push =
    | Idle
    | LoadTail(value: int) | LoadSeq(value: int, pos: int) | Claim(value: int, pos: int)
    | Write(value: int, pos: int) | Publish(value: int, pos: int)

  /** Where the drain is, if one is under way. */
  datatype Drain =
    | Rest
    | Wait(end: int, pos: int) | Take(end: int, pos: int)
    | Free(end: int, pos: int, value: int) | Advance(end: int, pos: int, value: int)
    | Apply(end: int, pos: int, value: int)

  /** `order` are the values by ticket, and `applied` those handed out. */
  datatype State = State(slots: seq<Slot>, tail: int, head: int, pushes: map<int, Push>, drain: Drain,
                         order: seq<int>, applied: seq<int>)
  {
    function At(t: int): Push {
      if t in pushes then pushes[t] else Idle
    }

    function Go(t: int, pc: Push): State {
      this.(pushes := pushes[t := pc])
    }
  }

  datatype Action = StartPush(thread: int, value: int) | StepPush(thread: int, spurious: bool) | StartDrain | StepDrain

  function Start(): State {
    State(seq(CAPACITY, i => Slot(i, 0)), 0, 0, map[], Rest, [], [])
  }

  function Next(s: State, a: Action): State
    requires |s.slots| == CAPACITY
  {
    match a
    case StartPush(t, value) => if s.At(t).Idle? then s.Go(t, LoadTail(value)) else s
    case StepPush(t, spurious) => Effect(s, t, spurious).Go(t, After(s, t, spurious))
    case StartDrain => if s.drain.Rest? then s.(drain := Wait(s.tail, s.head)) else s
    case StepDrain => DrainStep(s)
  }

  /** What the next access of a push does. */
  function Effect(s: State, t: int, spurious: bool): State
    requires |s.slots| == CAPACITY
  {
    match s.At(t)
    case Claim(value, pos) =>
      if s.tail == pos && !spurious then s.(tail := s.tail + 1, order := s.order + [value]) else s
    case Write(value, pos) => s.(slots := s.slots[pos % CAPACITY := Slot(s.slots[pos % CAPACITY].ticket, value)])
    case Publish(_, pos) => s.(slots := s.slots[pos % CAPACITY := Slot(pos + 1, s.slots[pos % CAPACITY].value)])
    case _ => s
  }

  /** Where it leaves the push. */
  function After(s: State, t: int, spurious: bool): Push
    requires |s.slots| == CAPACITY
  {
    match s.At(t)
    case Idle => Idle
    case LoadTail(value) => LoadSeq(value, s.tail)
    case LoadSeq(value, pos) =>
      var seen := s.slots[pos % CAPACITY].ticket;
      if seen == pos then Claim(value, pos) else if seen < pos then Idle else LoadTail(value)
    case Claim(value, pos) => if s.tail == pos && !spurious then Write(value, pos) else LoadSeq(value, s.tail)
    case Write(value, pos) => Publish(value, pos)
    case Publish(_, _) => Idle
  }

  /** A push that finds its slot a lap behind gives up. */
  predicate Refused(s: State, t: int)
    requires |s.slots| == CAPACITY
  {
    s.At(t).LoadSeq? && s.slots[s.At(t).pos % CAPACITY].ticket < s.At(t).pos
  }

  function DrainStep(s: State): State
    requires |s.slots| == CAPACITY
  {
    match s.drain
    case Rest => s
    case Wait(end, pos) =>
      if pos == end then s.(drain := Rest)
      else if s.slots[pos % CAPACITY].ticket == pos + 1 then s.(drain := Take(end, pos))
      else s
    case Take(end, pos) => s.(drain := Free(end, pos, s.slots[pos % CAPACITY].value))
    case Free(end, pos, value) =>
      s.(drain := Advance(end, pos, value),
         slots := s.slots[pos % CAPACITY := Slot(pos + CAPACITY, s.slots[pos % CAPACITY].value)])
    case Advance(end, pos, value) => s.(drain := Apply(end, pos + 1, value), head := pos + 1)
    case Apply(end, pos, value) => s.(drain := Wait(end, pos), applied := s.applied + [value])
  }

  // ------------------------------------------------------------------------------------------
  // The invariant
  // ------------------------------------------------------------------------------------------

  /** The tickets below this one have left the ring. */
  function Freed(s: State): int {
    if s.drain.Advance? then s.head + 1 else s.head
  }

  predicate Filling(pc: Push, p: int) {
    (pc.Write? || pc.Publish?) && pc.pos == p
  }

  ghost predicate InFlight(s: State, p: int) {
    exists t :: Filling(s.At(t), p)
  }

  /** A slot of the current lap is free, being filled or filled. */
  ghost predicate SlotOf(s: State, p: int)
    requires |s.slots| == CAPACITY && |s.order| == s.tail && 0 <= p
  {
    var slot := s.slots[p % CAPACITY];
    if p >= s.tail then slot.ticket == p
    else (slot.ticket == p + 1 && slot.value == s.order[p]) || (slot.ticket == p && InFlight(s, p))
  }

  ghost predicate Ring(s: State) {
    && |s.slots| == CAPACITY && |s.order| == s.tail
    && 0 <= Freed(s) <= s.tail <= Freed(s) + CAPACITY
    && forall p :: Freed(s) <= p < Freed(s) + CAPACITY ==> SlotOf(s, p)
  }

  /** How far a push has come. */
  ghost predicate Pushing(s: State, pc: Push)
    requires |s.slots| == CAPACITY && |s.order| == s.tail
  {
    match pc
    case Idle => true
    case LoadTail(_) => true
    case LoadSeq(_, pos) => 0 <= pos <= s.tail
    case Claim(_, pos) => 0 <= pos <= s.tail && pos < Freed(s) + CAPACITY
    case Write(value, pos) =>
      Freed(s) <= pos < s.tail && 0 <= pos && s.slots[pos % CAPACITY].ticket == pos && s.order[pos] == value
    case Publish(value, pos) =>
      Freed(s) <= pos < s.tail && 0 <= pos && s.slots[pos % CAPACITY] == Slot(pos, value) && s.order[pos] == value
  }

  ghost predicate Pushers(s: State)
    requires |s.slots| == CAPACITY && |s.order| == s.tail
  {
    forall t {:trigger s.At(t)} :: Pushing(s, s.At(t))
  }

  /** No two pushes hold one ticket. */
  ghost predicate Single(s: State) {
    forall t, u, p {:trigger Filling(s.At(t), p), Filling(s.At(u), p)} ::
      Filling(s.At(t), p) && Filling(s.At(u), p) ==> t == u
  }

  /** How far the drain has come. */
  ghost predicate Draining(s: State)
    requires |s.slots| == CAPACITY && |s.order| == s.tail && 0 <= s.head <= s.tail
  {
    match s.drain
    case Rest => s.applied == s.order[..s.head]
    case Wait(end, pos) => pos == s.head && pos <= end <= s.tail && s.applied == s.order[..s.head]
    case Take(end, pos) =>
      pos == s.head && pos < end <= s.tail && s.applied == s.order[..s.head]
      && s.slots[pos % CAPACITY].ticket == pos + 1
    case Free(end, pos, value) =>
      pos == s.head && pos < end <= s.tail && s.applied == s.order[..s.head]
      && s.slots[pos % CAPACITY].ticket == pos + 1
      && value == s.order[pos]
    case Advance(end, pos, value) =>
      pos == s.head && pos < end <= s.tail && s.applied == s.order[..s.head] && value == s.order[pos]
    case Apply(end, pos, value) =>
      pos == s.head > 0 && pos <= end <= s.tail && s.applied == s.order[..s.head - 1] && value == s.order[pos - 1]
  }

  ghost predicate Sound(s: State) {
    Ring(s) && s.head >= 0 && Pushers(s) && Single(s) && Draining(s)
  }

  // ------------------------------------------------------------------------------------------
  // Every step keeps it
  // ------------------------------------------------------------------------------------------

  lemma SameSlot(p: int, q: int)
    requires p % CAPACITY == q % CAPACITY && -CAPACITY < p - q < CAPACITY
    ensures p == q
  {
  }

  /** The ticket of the current lap that shares a slot with `pos`. */
  function OnLap(first: int, pos: int): (p: int)
    ensures first <= p < first + CAPACITY && p % CAPACITY == pos % CAPACITY
  {
    first + (pos - first) % CAPACITY
  }

  lemma SeenTicket(s: State, pos: int)
    requires Ring(s) && 0 <= pos <= s.tail
    ensures s.slots[pos % CAPACITY].ticket == pos ==> pos < Freed(s) + CAPACITY
    ensures s.slots[pos % CAPACITY].ticket < pos ==> s.tail == Freed(s) + CAPACITY
  {
    var p := OnLap(Freed(s), pos);
    assert SlotOf(s, p);
  }

  lemma StillInFlight(s: State, s': State, t: int, p: int)
    requires InFlight(s, p) && (Filling(s.At(t), p) ==> Filling(s'.At(t), p))
    requires forall u :: u != t ==> s'.At(u) == s.At(u)
    ensures InFlight(s', p)
  {
  }

  lemma OthersStay(s: State, t: int, spurious: bool)
    requires |s.slots| == CAPACITY
    ensures forall u :: u != t ==> Next(s, StepPush(t, spurious)).At(u) == s.At(u)
    ensures Next(s, StepPush(t, spurious)).At(t) == After(s, t, spurious)
  {
  }

  /** Nothing changes but where a push or the drain is. */
  ghost predicate Quiet(s: State, s': State, t: int) {
    && s'.slots == s.slots && s'.tail == s.tail && s'.order == s.order && Freed(s') == Freed(s)
    && (forall u :: u != t ==> s'.At(u) == s.At(u))
    && (forall p :: Filling(s'.At(t), p) <==> Filling(s.At(t), p))
  }

  lemma QuietRing(s: State, s': State, t: int)
    requires Ring(s) && Quiet(s, s', t)
    ensures Ring(s')
  {
    forall p | Freed(s) <= p < Freed(s) + CAPACITY
      ensures SlotOf(s', p)
    {
      assert SlotOf(s, p);
      if InFlight(s, p) {
        StillInFlight(s, s', t, p);
      }
    }
  }

  lemma QuietPushers(s: State, s': State, t: int)
    requires Ring(s) && Pushers(s) && Single(s) && Quiet(s, s', t) && Pushing(s, s'.At(t))
    ensures Pushers(s') && Single(s')
  {
  }

  /** A load, a failed claim, a refusal. */
  lemma LookSound(s: State, t: int, spurious: bool)
    requires Sound(s) && Effect(s, t, spurious) == s && !s.At(t).Publish? && !s.At(t).Write?
    ensures Sound(Next(s, StepPush(t, spurious)))
  {
    var s' := Next(s, StepPush(t, spurious));
    OthersStay(s, t, spurious);
    assert Pushing(s, s.At(t));
    if s.At(t).LoadSeq? {
      SeenTicket(s, s.At(t).pos);
    }
    QuietRing(s, s', t);
    QuietPushers(s, s', t);
  }

  lemma ClaimSound(s: State, t: int)
    requires Sound(s) && s.At(t).Claim? && s.tail == s.At(t).pos
    ensures Sound(Next(s, StepPush(t, false)))
  {
    var s', pos := Next(s, StepPush(t, false)), s.tail;
    OthersStay(s, t, false);
    assert Pushing(s, s.At(t)) && Filling(s'.At(t), pos);
    assert SlotOf(s, pos);
    forall p | Freed(s) <= p < Freed(s) + CAPACITY
      ensures SlotOf(s', p)
    {
      assert SlotOf(s, p);
      if InFlight(s, p) {
        StillInFlight(s, s', t, p);
      }
    }
    forall u
      ensures Pushing(s', s'.At(u))
      ensures u != t ==> !Filling(s'.At(u), pos)
    {
      assert Pushing(s, s.At(u));
    }
  }

  /** A push fills a slot no other push, and not the drain, is at. */
  lemma Apart(s: State, t: int, u: int)
    requires Sound(s) && (s.At(t).Write? || s.At(t).Publish?) && (s.At(u).Write? || s.At(u).Publish?) && u != t
    ensures s.At(u).pos % CAPACITY != s.At(t).pos % CAPACITY
  {
    assert Pushing(s, s.At(t)) && Pushing(s, s.At(u));
    assert Filling(s.At(t), s.At(t).pos) && !Filling(s.At(u), s.At(t).pos);
    if s.At(u).pos % CAPACITY == s.At(t).pos % CAPACITY {
      SameSlot(s.At(u).pos, s.At(t).pos);
    }
  }

  lemma FillSound(s: State, t: int, spurious: bool)
    requires Sound(s) && (s.At(t).Write? || s.At(t).Publish?)
    ensures Sound(Next(s, StepPush(t, spurious)))
  {
    var s', pos := Next(s, StepPush(t, spurious)), s.At(t).pos;
    OthersStay(s, t, spurious);
    assert Pushing(s, s.At(t)) && Filling(s.At(t), pos);
    forall p | Freed(s) <= p < Freed(s) + CAPACITY
      ensures SlotOf(s', p)
    {
      assert SlotOf(s, p);
      if p % CAPACITY == pos % CAPACITY {
        SameSlot(p, pos);
        assert s.At(t).Write? ==> Filling(s'.At(t), p);
      } else if InFlight(s, p) {
        StillInFlight(s, s', t, p);
      }
    }
    forall u | u != t
      ensures Pushing(s', s'.At(u))
    {
      assert Pushing(s, s.At(u));
      if s.At(u).Write? || s.At(u).Publish? {
        Apart(s, t, u);
      }
    }
    DrainElsewhere(s, pos);
  }

  lemma DrainElsewhere(s: State, pos: int)
    requires Sound(s) && Freed(s) <= pos < s.tail && s.slots[pos % CAPACITY].ticket == pos
    ensures s.drain.Take? || s.drain.Free? ==> s.drain.pos % CAPACITY != pos % CAPACITY
  {
  }

  /** Handing a slot on to the next lap. */
  lemma FreeRing(s: State)
    requires Sound(s) && s.drain.Free?
    ensures Ring(DrainStep(s))
  {
    var s', pos := DrainStep(s), s.drain.pos;
    assert forall t :: s'.At(t) == s.At(t);
    assert SlotOf(s, pos);
    forall p | Freed(s') <= p < Freed(s') + CAPACITY
      ensures SlotOf(s', p)
    {
      if p % CAPACITY == pos % CAPACITY {
        SameSlot(p, pos + CAPACITY);
      } else {
        assert SlotOf(s, p);
        if InFlight(s, p) {
          StillInFlight(s, s', 0, p);
        }
      }
    }
  }

  lemma FreeSound(s: State)
    requires Sound(s) && s.drain.Free?
    ensures Sound(DrainStep(s))
  {
    var s' := DrainStep(s);
    assert forall t :: s'.At(t) == s.At(t);
    FreeRing(s);
    forall t
      ensures Pushing(s', s'.At(t))
    {
      assert Pushing(s, s.At(t));
      if s.At(t).Write? || s.At(t).Publish? {
        DrainElsewhere(s, s.At(t).pos);
      }
    }
  }

  lemma DrainSound(s: State)
    requires Sound(s) && !s.drain.Free?
    ensures Sound(DrainStep(s))
  {
    var s' := DrainStep(s);
    assert forall t :: s'.At(t) == s.At(t);
    if s.drain.Take? {
      assert SlotOf(s, s.drain.pos);
    }
    assert Pushing(s, s.At(0));
    QuietRing(s, s', 0);
    QuietPushers(s, s', 0);
  }

  lemma CallSound(s: State, a: Action)
    requires Sound(s) && (a.StartPush? || a.StartDrain?)
    ensures Sound(Next(s, a))
  {
    var s', t := Next(s, a), if a.StartPush? then a.thread else 0;
    assert forall u :: u != t ==> s'.At(u) == s.At(u);
    assert Pushing(s, s.At(t));
    QuietRing(s, s', t);
    QuietPushers(s, s', t);
  }

  lemma NextSound(s: State, a: Action)
    requires Sound(s)
    ensures Sound(Next(s, a))
  {
    match a
    case StepPush(t, spurious) =>
      if s.At(t).Write? || s.At(t).Publish? {
        FillSound(s, t, spurious);
      } else if s.At(t).Claim? && s.tail == s.At(t).pos && !spurious {
        ClaimSound(s, t);
      } else {
        LookSound(s, t, spurious);
      }
    case StepDrain =>
      if s.drain.Free? {
        FreeSound(s);
      } else {
        DrainSound(s);
      }
    case _ => CallSound(s, a);
  }

  ghost predicate Reaches(s: State, actions: seq<Action>, s': State)
    decreases |actions|
  {
    if actions == [] then s' == s
    else |s.slots| == CAPACITY && Reaches(Next(s, actions[0]), actions[1..], s')
  }

  lemma StartSound()
    ensures Sound(Start())
  {
  }

  lemma {:induction false} ReachesSound(s: State, actions: seq<Action>, s': State)
    requires Sound(s) && Reaches(s, actions, s')
    ensures Sound(s')
    decreases |actions|
  {
    if actions != [] {
      NextSound(s, actions[0]);
      ReachesSound(Next(s, actions[0]), actions[1..], s');
    }
  }

  // ------------------------------------------------------------------------------------------
  // What the queue promises
  // ------------------------------------------------------------------------------------------

  /** Changes are handed out in the order their tickets were claimed, none lost and none twice. */
  lemma InOrder(actions: seq<Action>, s: State)
    requires Reaches(Start(), actions, s)
    ensures s.applied <= s.order && |s.order| == s.tail
  {
    StartSound();
    ReachesSound(Start(), actions, s);
  }

  /** A push is refused only with the ring full of changes not yet handed out. */
  lemma RefusedOnlyFull(actions: seq<Action>, s: State, t: int)
    requires Reaches(Start(), actions, s) && |s.slots| == CAPACITY && Refused(s, t)
    ensures s.tail - Freed(s) == CAPACITY
  {
    StartSound();
    ReachesSound(Start(), actions, s);
    assert Pushing(s, s.At(t));
    SeenTicket(s, s.At(t).pos);
  }

  /** `early` have been handed out, or will be before the drain under way ends. */
  ghost predicate Due(s: State, early: seq<int>) {
    early <= s.order && (|early| <= |s.applied| || (!s.drain.Rest? && |early| <= s.drain.end))
  }

  lemma NextDue(s: State, a: Action, early: seq<int>)
    requires Sound(s) && Due(s, early)
    ensures Due(Next(s, a), early)
  {
  }

  lemma {:induction false} ReachesDue(s: State, actions: seq<Action>, s': State, early: seq<int>)
    requires Sound(s) && Due(s, early) && Reaches(s, actions, s')
    ensures Sound(s') && Due(s', early)
    decreases |actions|
  {
    if actions != [] {
      NextSound(s, actions[0]);
      NextDue(s, actions[0], early);
      ReachesDue(Next(s, actions[0]), actions[1..], s', early);
    }
  }

  /** A drain hands out every change whose ticket was claimed before it began, so all whose push had returned. */
  lemma DrainSeesAll(before: seq<Action>, s: State, during: seq<Action>, s': State)
    requires Reaches(Start(), before, s) && |s.slots| == CAPACITY && s.drain.Rest?
    requires Reaches(Next(s, StartDrain), during, s') && s'.drain.Rest?
    ensures s.order <= s'.applied
  {
    StartSound();
    ReachesSound(Start(), before, s);
    NextSound(s, StartDrain);
    ReachesDue(Next(s, StartDrain), during, s', s.order);
  }

  // ------------------------------------------------------------------------------------------
  // Every push
  // ------------------------------------------------------------------------------------------

  /** What each thread has pushed, and for each push that has returned its ticket, or none if it was refused. */
  datatype Log = Log(pushed: map<int, seq<int>>, returned: map<int, seq<Option<int>>>) {
    function Pushed(t: int): seq<int> {
      if t in pushed then pushed[t] else []
    }

    function Returned(t: int): seq<Option<int>> {
      if t in returned then returned[t] else []
    }
  }

  const NO_PUSHES := Log(map[], map[])

  function Logged(s: State, log: Log, a: Action): Log
    requires |s.slots| == CAPACITY
  {
    match a
    case StartPush(t, value) =>
      if s.At(t).Idle? then log.(pushed := log.pushed[t := log.Pushed(t) + [value]]) else log
    case StepPush(t, _) =>
      if s.At(t).Publish? then log.(returned := log.returned[t := log.Returned(t) + [Some(s.At(t).pos)]])
      else if Refused(s, t) then log.(returned := log.returned[t := log.Returned(t) + [None]])
      else log
    case _ => log
  }

  /** The run's state and log. */
  ghost predicate Logs(s: State, log: Log, actions: seq<Action>, s': State, log': Log)
    decreases |actions|
  {
    if actions == [] then s' == s && log' == log
    else |s.slots| == CAPACITY && Logs(Next(s, actions[0]), Logged(s, log, actions[0]), actions[1..], s', log')
  }

  /** The push a ticket was given to. */
  predicate HasTicket(s: State, log: Log, t: int, i: int, p: int) {
    if i < |log.Returned(t)| then 0 <= i && log.Returned(t)[i] == Some(p)
    else i == |log.Returned(t)| && Filling(s.At(t), p)
  }

  /** A push under way is the thread's last, and every other has returned. */
  ghost predicate Stands(s: State, log: Log, t: int) {
    && |log.Pushed(t)| == |log.Returned(t)| + (if s.At(t).Idle? then 0 else 1)
    && (!s.At(t).Idle? ==> log.Pushed(t)[|log.Returned(t)|] == s.At(t).value)
  }

  /** A push under way is the thread's last and every other one has returned, those not refused with their
      value at their ticket. */
  ghost predicate Told(s: State, log: Log, t: int)
    requires |s.order| == s.tail
  {
    && Stands(s, log, t)
    && (forall i, p {:trigger HasTicket(s, log, t, i, p)} :: HasTicket(s, log, t, i, p) ==>
          0 <= p < s.tail && s.order[p] == log.Pushed(t)[i])
  }

  ghost predicate AllTold(s: State, log: Log)
    requires |s.order| == s.tail
  {
    forall t {:trigger s.At(t)} :: Told(s, log, t)
  }

  ghost predicate IsGiven(s: State, log: Log, p: int) {
    exists t, i :: HasTicket(s, log, t, i, p)
  }

  /** No ticket is given twice, and every one to a push. */
  ghost predicate Given(s: State, log: Log) {
    && (forall t, i, u, j, p {:trigger HasTicket(s, log, t, i, p), HasTicket(s, log, u, j, p)} ::
          HasTicket(s, log, t, i, p) && HasTicket(s, log, u, j, p) ==> t == u && i == j)
    && (forall p {:trigger IsGiven(s, log, p)} :: 0 <= p < s.tail ==> IsGiven(s, log, p))
  }

  predicate Claims(s: State, a: Action) {
    a.StepPush? && s.At(a.thread).Claim? && s.tail == s.At(a.thread).pos && !a.spurious
  }

  /** A step gives out the next ticket, to the push that claims it, or none. */
  lemma Tickets(s: State, log: Log, a: Action, u: int, i: int, p: int)
    requires Sound(s) && Told(s, log, u)
    ensures HasTicket(Next(s, a), Logged(s, log, a), u, i, p) <==>
              HasTicket(s, log, u, i, p)
              || (Claims(s, a) && u == a.thread && i == |log.Returned(u)| && p == s.tail)
    ensures Next(s, a).tail == s.tail + if Claims(s, a) then 1 else 0
    ensures s.order <= Next(s, a).order
  {
    if a.StepPush? {
      StepTickets(s, log, a.thread, a.spurious, u, i, p);
    }
  }

  lemma StepTickets(s: State, log: Log, t: int, spurious: bool, u: int, i: int, p: int)
    requires Sound(s) && Told(s, log, u)
    ensures var a := StepPush(t, spurious);
            && (HasTicket(Next(s, a), Logged(s, log, a), u, i, p) <==>
                  HasTicket(s, log, u, i, p) || (Claims(s, a) && u == t && i == |log.Returned(u)| && p == s.tail))
            && Next(s, a).tail == s.tail + (if Claims(s, a) then 1 else 0)
            && s.order <= Next(s, a).order
  {
    OthersStay(s, t, spurious);
  }

  lemma NextStands(s: State, log: Log, a: Action, u: int)
    requires |s.slots| == CAPACITY && Stands(s, log, u)
    ensures Stands(Next(s, a), Logged(s, log, a), u)
    ensures log.Pushed(u) <= Logged(s, log, a).Pushed(u)
  {
    if a.StepPush? {
      OthersStay(s, a.thread, a.spurious);
    }
  }

  lemma NextTold(s: State, log: Log, a: Action, u: int)
    requires Sound(s) && Sound(Next(s, a)) && Told(s, log, u)
    ensures Told(Next(s, a), Logged(s, log, a), u)
  {
    var s', log' := Next(s, a), Logged(s, log, a);
    NextStands(s, log, a, u);
    forall i, p {:trigger HasTicket(s', log', u, i, p)} | HasTicket(s', log', u, i, p)
      ensures 0 <= p < s'.tail && s'.order[p] == log'.Pushed(u)[i]
    {
      Tickets(s, log, a, u, i, p);
      if HasTicket(s, log, u, i, p) {
        assert 0 <= p < s.tail && s.order[p] == log.Pushed(u)[i];
      } else {
        ClaimedValue(s, a);
      }
    }
  }

  lemma ClaimedValue(s: State, a: Action)
    requires |s.slots| == CAPACITY && |s.order| == s.tail && Claims(s, a)
    ensures Next(s, a).order == s.order + [s.At(a.thread).value]
  {
  }

  lemma NextGiven(s: State, log: Log, a: Action)
    requires Sound(s) && AllTold(s, log) && Given(s, log)
    ensures Given(Next(s, a), Logged(s, log, a))
  {
    var s', log' := Next(s, a), Logged(s, log, a);
    forall t, i, p
      ensures HasTicket(s', log', t, i, p) <==>
                HasTicket(s, log, t, i, p)
                || (Claims(s, a) && t == a.thread && i == |log.Returned(t)| && p == s.tail)
      ensures HasTicket(s, log, t, i, p) ==> p < s.tail
      ensures s'.tail == s.tail + if Claims(s, a) then 1 else 0
    {
      assert Told(s, log, t);
      Tickets(s, log, a, t, i, p);
    }
    forall p {:trigger IsGiven(s', log', p)} | 0 <= p < s'.tail
      ensures IsGiven(s', log', p)
    {
      if p < s.tail {
        assert IsGiven(s, log, p);
      } else {
        assert HasTicket(s', log', a.thread, |log.Returned(a.thread)|, p);
      }
    }
  }

  lemma {:induction false} RunTold(s: State, log: Log, actions: seq<Action>, s': State, log': Log)
    requires Sound(s) && AllTold(s, log) && Given(s, log) && Logs(s, log, actions, s', log')
    ensures Sound(s') && AllTold(s', log') && Given(s', log')
    decreases |actions|
  {
    if actions != [] {
      NextSound(s, actions[0]);
      NextGiven(s, log, actions[0]);
      forall u
        ensures Told(Next(s, actions[0]), Logged(s, log, actions[0]), u)
      {
        assert Told(s, log, u);
        NextTold(s, log, actions[0], u);
      }
      RunTold(Next(s, actions[0]), Logged(s, log, actions[0]), actions[1..], s', log');
    }
  }

  lemma NothingTold(s: State, log: Log)
    requires s.order == [] && s.tail == 0 && s.pushes == map[] && log == NO_PUSHES
    ensures AllTold(s, log) && Given(s, log)
  {
    forall t
      ensures Told(s, log, t)
    {
      assert log.Pushed(t) == [] && log.Returned(t) == [] && s.At(t) == Idle;
      assert Stands(s, log, t);
      assert forall i, p :: !HasTicket(s, log, t, i, p);
    }
  }

  lemma StartTold()
    ensures Sound(Start()) && AllTold(Start(), NO_PUSHES) && Given(Start(), NO_PUSHES)
  {
    StartSound();
    NothingTold(Start(), NO_PUSHES);
  }

  /** In every run each push has returned or is its thread's last and under way; one that returned unrefused has
      its value at a ticket no other push has, and every ticket is a push's. */
  lemma EveryPush(actions: seq<Action>, s: State, log: Log)
    requires Logs(Start(), NO_PUSHES, actions, s, log)
    ensures |s.order| == s.tail && AllTold(s, log) && Given(s, log)
  {
    StartTold();
    RunTold(Start(), NO_PUSHES, actions, s, log);
  }

  lemma {:induction false} LogsReach(s: State, log: Log, actions: seq<Action>, s': State, log': Log)
    requires Logs(s, log, actions, s', log')
    ensures Reaches(s, actions, s')
    decreases |actions|
  {
    if actions != [] {
      LogsReach(Next(s, actions[0]), Logged(s, log, actions[0]), actions[1..], s', log');
    }
  }

  /** So a drain hands out, at its ticket, the value of every push that had returned unrefused before it began. */
  lemma DrainsReturned(before: seq<Action>, s: State, log: Log, during: seq<Action>, s': State, t: int, i: int)
    requires Logs(Start(), NO_PUSHES, before, s, log) && |s.slots| == CAPACITY && s.drain.Rest?
    requires Reaches(Next(s, StartDrain), during, s') && s'.drain.Rest?
    requires 0 <= i < |log.Returned(t)| && log.Returned(t)[i].Some?
    ensures var p := log.Returned(t)[i].value;
            i < |log.Pushed(t)| && 0 <= p < |s'.applied| && s'.applied[p] == log.Pushed(t)[i]
  {
    EveryPush(before, s, log);
    LogsReach(Start(), NO_PUSHES, before, s, log);
    DrainSeesAll(before, s, during, s');
    assert Told(s, log, t) && HasTicket(s, log, t, i, log.Returned(t)[i].value);
  }

  // ------------------------------------------------------------------------------------------
  // Alone
  // ------------------------------------------------------------------------------------------

  /** A push that no other thread gets in the way of is queued, or refused with the ring full. */
  lemma PushAlone(s: State, t: int, value: int)
    requires Sound(s) && s.At(t).Idle?
    ensures var s1 := Next(s, StartPush(t, value));
            var s2 := Next(s1, StepPush(t, false));
            var s3 := Next(s2, StepPush(t, false));
            if s.tail - Freed(s) == CAPACITY then Refused(s2, t) && s3.At(t).Idle? && s3.order == s.order
            else
              var s4 := Next(s3, StepPush(t, false));
              var s5 := Next(s4, StepPush(t, false));
              var s6 := Next(s5, StepPush(t, false));
              s6.At(t).Idle? && s6.order == s.order + [value] && s6.slots[s.tail % CAPACITY] == Slot(s.tail + 1, value)
  {
    assert SlotOf(s, if s.tail - Freed(s) == CAPACITY then s.tail - CAPACITY else s.tail);
  }

  ghost predicate NoneFilling(s: State) {
    forall t, p :: !Filling(s.At(t), p)
  }

  /** How many steps a drain has left. */
  function Left(d: Drain): int {
    match d
    case Rest => 0
    case Wait(end, pos) => 5 * (end - pos)
    case Take(end, pos) => 5 * (end - pos) - 1
    case Free(end, pos, _) => 5 * (end - pos) - 2
    case Advance(end, pos, _) => 5 * (end - pos) - 3
    case Apply(end, pos, _) => 5 * (end - pos) + 1
  }

  lemma DrainsOn(s: State)
    requires Sound(s) && NoneFilling(s) && !s.drain.Rest? && s.drain.end == s.tail && s.drain != Wait(s.tail, s.tail)
    ensures var s' := DrainStep(s);
            && NoneFilling(s') && !s'.drain.Rest? && s'.drain.end == s'.tail && s'.order == s.order
            && 0 <= Left(s'.drain) == Left(s.drain) - 1
  {
    var s' := DrainStep(s);
    assert forall t :: s'.At(t) == s.At(t);
    if s.drain.Wait? {
      assert SlotOf(s, s.drain.pos);
    }
  }

  lemma ReachesOn(s: State, a: Action, rest: seq<Action>, s': State)
    requires |s.slots| == CAPACITY && Reaches(Next(s, a), rest, s')
    ensures Reaches(s, [a] + rest, s')
  {
    assert ([a] + rest)[1..] == rest;
  }

  /** A drain with no push in the middle of filling a slot hands out everything. */
  lemma {:induction false} DrainAlone(s: State) returns (actions: seq<Action>, s': State)
    requires Sound(s) && NoneFilling(s) && !s.drain.Rest? && s.drain.end == s.tail
    ensures Reaches(s, actions, s') && s'.drain.Rest? && s'.applied == s'.order == s.order
    decreases Left(s.drain)
  {
    NextSound(s, StepDrain);
    var next := DrainStep(s);
    if s.drain == Wait(s.tail, s.tail) {
      actions, s' := [], next;
    } else {
      DrainsOn(s);
      actions, s' := DrainAlone(next);
    }
    ReachesOn(s, StepDrain, actions, s');
    actions := [StepDrain] + actions;
  }
}
