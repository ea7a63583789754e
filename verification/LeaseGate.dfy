/**
 Leases against time skips: any number of threads take leases, give them back, try to move the clock and are
 charged for calls, every access to the gate, the table and the counter a step of its own.
 */
module LeaseGate {
  import opened Options
  import ClockSpin

  /** Where a thread is in its call; the gate is held after `TakeGate` and `SkipGate`, up to `Ungate`. */
  datatype Pc =
    | Idle
    | TakeGate(id: int) | TakeInsert(id: int) | TakeCount(id: int) | TakeUngate(id: int) | TakeBump(id: int)
    | ReleaseRemove(id: int) | ReleaseCount(id: int)
    | SkipGate(amount: nat) | SkipLoad(amount: nat) | SkipMove(amount: nat) | SkipUngate

  /** `returned` are the leases a caller has been given, `held` those of them whose release has not begun,
      and `counted` those the counter counts. */
  datatype State = State(gate: Option<int>, leases: set<int>, leaseCount: int, nextLease: nat, clock: nat,
                         pcs: map<int, Pc>, returned: set<int>, held: set<int>, counted: set<int>)
  {
    function At(t: int): Pc {
      if t in pcs then pcs[t] else Idle
    }

    function Go(t: int, pc: Pc): State {
      this.(pcs := pcs[t := pc])
    }
  }

  datatype Action =
    | Take(thread: int) | Release(thread: int, id: int) | Skip(thread: int, amount: nat)
    | Charge(thread: int) | Step(thread: int)

  const START := State(None, {}, 0, 0, 0, map[], {}, {}, {})

  function Next(s: State, a: Action): State {
    match a
    case Take(t) => if s.At(t).Idle? then s.(nextLease := s.nextLease + 1).Go(t, TakeGate(s.nextLease)) else s
    case Release(t, id) =>
      if s.At(t).Idle? && id in s.returned then s.(held := s.held - {id}).Go(t, ReleaseRemove(id)) else s
    case Skip(t, amount) => if s.At(t).Idle? then s.Go(t, SkipGate(amount)) else s
    // A call's latency is charged without the gate.
    case Charge(t) => if s.At(t).Idle? then s.(clock := s.clock + ClockSpin.CALL_LATENCY) else s
    case Step(t) => Advance(s, t)
  }

  function Advance(s: State, t: int): State {
    match s.At(t)
    case Idle => s
    case TakeGate(id) => if s.gate.None? then s.(gate := Some(t)).Go(t, TakeInsert(id)) else s
    case TakeInsert(id) => s.(leases := s.leases + {id}).Go(t, TakeCount(id))
    case TakeCount(id) => s.(leaseCount := s.leaseCount + 1, counted := s.counted + {id}).Go(t, TakeUngate(id))
    case TakeUngate(id) => s.(gate := None).Go(t, TakeBump(id))
    case TakeBump(id) => s.(returned := s.returned + {id}, held := s.held + {id}).Go(t, Idle)
    case ReleaseRemove(id) =>
      if id in s.leases then s.(leases := s.leases - {id}).Go(t, ReleaseCount(id)) else s.Go(t, Idle)
    case ReleaseCount(id) => s.(leaseCount := s.leaseCount - 1, counted := s.counted - {id}).Go(t, Idle)
    case SkipGate(amount) => if s.gate.None? then s.(gate := Some(t)).Go(t, SkipLoad(amount)) else s
    case SkipLoad(amount) => s.Go(t, if s.leaseCount > 0 then SkipUngate else SkipMove(amount))
    case SkipMove(amount) => s.(clock := s.clock + amount).Go(t, SkipUngate)
    case SkipUngate => s.(gate := None).Go(t, Idle)
  }

  function Run(s: State, actions: seq<Action>): State
    decreases |actions|
  {
    if actions == [] then s else Next(Run(s, actions[..|actions| - 1]), actions[|actions| - 1])
  }

  // ------------------------------------------------------------------------------------------
  // The invariant
  // ------------------------------------------------------------------------------------------

  predicate HasGate(pc: Pc) {
    pc.TakeInsert? || pc.TakeCount? || pc.TakeUngate? || pc.SkipLoad? || pc.SkipMove? || pc.SkipUngate?
  }

  predicate Taking(pc: Pc) {
    pc.TakeGate? || pc.TakeInsert? || pc.TakeCount? || pc.TakeUngate? || pc.TakeBump?
  }

  /** A thread that alone has the lease in hand. */
  predicate Owns(pc: Pc, id: int) {
    (Taking(pc) || pc.ReleaseCount?) && pc.id == id
  }

  /** How far a thread's call has come. */
  predicate Doing(s: State, pc: Pc) {
    && (Taking(pc) ==> 0 <= pc.id < s.nextLease && pc.id !in s.returned)
    && match pc
       case TakeGate(id) => id !in s.leases && id !in s.counted
       case TakeInsert(id) => id !in s.leases && id !in s.counted
       case TakeCount(id) => id in s.leases && id !in s.counted
       case TakeUngate(id) => id in s.leases && id in s.counted
       case TakeBump(id) => id in s.leases && id in s.counted
       case ReleaseRemove(id) => id in s.returned && id !in s.held
       case ReleaseCount(id) => id in s.returned && id !in s.leases && id in s.counted
       case SkipMove(_) => s.counted == {}
       case _ => true
  }

  ghost predicate Threads(s: State) {
    forall t {:trigger s.At(t)} :: Doing(s, s.At(t)) && (HasGate(s.At(t)) <==> s.gate == Some(t))
  }

  ghost predicate Single(s: State) {
    forall t, u, id {:trigger Owns(s.At(t), id), Owns(s.At(u), id)} :: Owns(s.At(t), id) && Owns(s.At(u), id) ==> t == u
  }

  ghost predicate Counts(s: State) {
    && s.leaseCount == |s.counted|
    && s.held <= s.leases && s.held <= s.returned
    && (forall id :: id in s.leases ==> 0 <= id < s.nextLease)
    && (forall id :: id in s.counted ==> 0 <= id < s.nextLease)
    && (forall id :: id in s.returned ==> 0 <= id < s.nextLease)
    && (forall id :: id in s.returned && id in s.leases ==> id in s.counted)
  }

  ghost predicate Sound(s: State) {
    Threads(s) && Single(s) && Counts(s)
  }

  lemma TakeSound(s: State, t: int)
    requires Sound(s)
    ensures Sound(Next(s, Take(t)))
  {
    var s' := Next(s, Take(t));
    assert forall u :: u != t ==> s'.At(u) == s.At(u);
    forall u
      ensures Owns(s.At(u), s.nextLease) ==> false
    {
      assert Doing(s, s.At(u));
    }
  }

  lemma CallSound(s: State, a: Action)
    requires Sound(s) && (a.Release? || a.Skip?)
    ensures Sound(Next(s, a))
  {
    var s', t := Next(s, a), a.thread;
    assert forall u :: u != t ==> s'.At(u) == s.At(u);
  }

  lemma ChargeSound(s: State, t: int)
    requires Sound(s)
    ensures Sound(Next(s, Charge(t)))
  {
    assert forall u :: Next(s, Charge(t)).At(u) == s.At(u);
  }

  lemma AdvanceCounts(s: State, t: int)
    requires Counts(s) && Doing(s, s.At(t))
    ensures Counts(Advance(s, t))
  {
  }

  lemma AdvanceSingle(s: State, t: int)
    requires Sound(s)
    ensures Single(Advance(s, t))
  {
    var s' := Advance(s, t);
    AdvanceOthers(s, t);
    forall u, id | Owns(s'.At(t), id) && Owns(s'.At(u), id)
      ensures t == u
    {
      assert Doing(s, s.At(t)) && Doing(s, s.At(u));
      assert Owns(s.At(t), id) || s.At(t) == ReleaseRemove(id);
    }
  }

  lemma AdvanceOthers(s: State, t: int)
    ensures forall u :: u != t ==> Advance(s, t).At(u) == s.At(u)
  {
  }

  lemma AdvanceMover(s: State, t: int)
    requires Sound(s)
    ensures Doing(Advance(s, t), Advance(s, t).At(t))
            && (HasGate(Advance(s, t).At(t)) <==> Advance(s, t).gate == Some(t))
  {
  }

  lemma AdvanceOther(s: State, t: int, u: int)
    requires Sound(s) && u != t
    ensures Doing(Advance(s, t), s.At(u)) && (HasGate(s.At(u)) <==> Advance(s, t).gate == Some(u))
  {
    assert Doing(s, s.At(t)) && Doing(s, s.At(u));
    assert HasGate(s.At(u)) <==> s.gate == Some(u);
    var pc := s.At(t);
    if Taking(pc) || pc.ReleaseCount? {
      assert Owns(pc, pc.id) && !Owns(s.At(u), pc.id);
    }
  }

  lemma AdvanceSound(s: State, t: int)
    requires Sound(s)
    ensures Sound(Advance(s, t))
  {
    AdvanceCounts(s, t);
    AdvanceSingle(s, t);
    AdvanceMover(s, t);
    AdvanceOthers(s, t);
    forall u | u != t
      ensures Doing(Advance(s, t), s.At(u)) && (HasGate(s.At(u)) <==> Advance(s, t).gate == Some(u))
    {
      AdvanceOther(s, t, u);
    }
  }

  lemma {:induction false} RunSound(actions: seq<Action>)
    ensures Sound(Run(START, actions))
    decreases |actions|
  {
    if actions != [] {
      var s, a := Run(START, actions[..|actions| - 1]), actions[|actions| - 1];
      RunSound(actions[..|actions| - 1]);
      if a.Step? {
        AdvanceSound(s, a.thread);
      } else if a.Take? {
        TakeSound(s, a.thread);
      } else if a.Charge? {
        ChargeSound(s, a.thread);
      } else {
        CallSound(s, a);
      }
    }
  }

  /** No skip moves the clock while a lease is held, whatever the interleaving: only a call's latency does. */
  lemma ClockHeld(actions: seq<Action>, a: Action)
    requires Run(START, actions).held != {}
    ensures var s := Run(START, actions);
            Next(s, a).clock == s.clock + if a.Charge? && s.At(a.thread).Idle? then ClockSpin.CALL_LATENCY else 0
  {
    RunSound(actions);
    var s := Run(START, actions);
    HeldCounted(s);
    assert Doing(s, s.At(a.thread));
  }

  /** Alone: with the gate free, a skip moves the clock by its amount if no lease is counted, else by nothing, and
      leaves the gate free. */
  lemma SkipAlone(s: State, t: int, amount: nat)
    requires s.At(t).Idle? && s.gate == None
    ensures var s1 := Next(s, Skip(t, amount));
            var s2 := Next(s1, Step(t));
            var s3 := Next(s2, Step(t));
            var s4 := Next(s3, Step(t));
            if s.leaseCount > 0 then s4 == s.(pcs := s.pcs[t := Idle])
            else Next(s4, Step(t)) == s.(clock := s.clock + amount, pcs := s.pcs[t := Idle])
  {
  }

  /** Alone: a take with the gate free hands out a new lease, held and counted. */
  lemma TakeAlone(s: State, t: int)
    requires s.At(t).Idle? && s.gate == None
    ensures var id := s.nextLease;
            var s1 := Next(s, Take(t));
            var s2 := Next(Next(Next(Next(Next(s1, Step(t)), Step(t)), Step(t)), Step(t)), Step(t));
            s2 == s.(nextLease := id + 1, leases := s.leases + {id}, leaseCount := s.leaseCount + 1,
                     counted := s.counted + {id}, returned := s.returned + {id}, held := s.held + {id},
                     pcs := s.pcs[t := Idle])
  {
    var id := s.nextLease;
    var s1 := Next(s, Take(t));
    assert s1 == s.(nextLease := id + 1, pcs := s.pcs[t := TakeGate(id)]);
    var s2 := Next(s1, Step(t));
    assert s2 == s1.(gate := Some(t), pcs := s.pcs[t := TakeInsert(id)]);
    var s3 := Next(s2, Step(t));
    assert s3 == s2.(leases := s.leases + {id}, pcs := s.pcs[t := TakeCount(id)]);
  }

  /** Alone: a release takes it back. */
  lemma ReleaseAlone(s: State, t: int, id: int)
    requires Sound(s) && s.At(t).Idle? && id in s.held
    ensures var s' := Next(Next(Next(s, Release(t, id)), Step(t)), Step(t));
            s' == s.(leases := s.leases - {id}, leaseCount := s.leaseCount - 1, counted := s.counted - {id},
                     held := s.held - {id}, pcs := s.pcs[t := Idle])
  {
    var s1 := Next(s, Release(t, id));
    assert s1 == s.(held := s.held - {id}, pcs := s.pcs[t := ReleaseRemove(id)]);
    var s2 := Next(s1, Step(t));
    assert s2 == s1.(leases := s.leases - {id}, pcs := s.pcs[t := ReleaseCount(id)]);
  }

  lemma HeldCounted(s: State)
    requires Counts(s)
    ensures s.held <= s.counted
  {
    forall id | id in s.held
      ensures id in s.counted
    {
      assert id in s.returned && id in s.leases;
    }
  }

  // ------------------------------------------------------------------------------------------
  // Nothing left over
  // ------------------------------------------------------------------------------------------

  predicate Changing(pc: Pc, id: int) {
    (Taking(pc) || pc.ReleaseRemove?) && pc.id == id
  }

  predicate Uncounting(pc: Pc, id: int) {
    pc == ReleaseCount(id)
  }

  /** A lease in the table is held or a call on it is under way, and so is one counted but not there. */
  ghost predicate Accounted(s: State, id: int) {
    && (id in s.leases && id !in s.held ==> exists t :: Changing(s.At(t), id))
    && (id in s.counted && id !in s.leases ==> exists t :: Uncounting(s.At(t), id))
  }

  lemma NextAccounted(s: State, a: Action, id: int)
    requires Sound(s) && Accounted(s, id)
    ensures Accounted(Next(s, a), id)
  {
    var s', t := Next(s, a), a.thread;
    assert forall u :: u != t ==> s'.At(u) == s.At(u);
    assert Doing(s, s.At(t));
    if id in s'.leases && id !in s'.held && !Changing(s'.At(t), id) {
      var u :| Changing(s.At(u), id);
      assert Changing(s'.At(u), id);
    }
    if id in s'.counted && id !in s'.leases && !Uncounting(s'.At(t), id) {
      var u :| Uncounting(s.At(u), id);
      assert Uncounting(s'.At(u), id);
    }
  }

  lemma {:induction false} RunAccounted(actions: seq<Action>, id: int)
    ensures Accounted(Run(START, actions), id)
    decreases |actions|
  {
    if actions != [] {
      RunAccounted(actions[..|actions| - 1], id);
      RunSound(actions[..|actions| - 1]);
      NextAccounted(Run(START, actions[..|actions| - 1]), actions[|actions| - 1], id);
    }
  }

  ghost predicate Quiet(s: State) {
    forall t :: s.At(t).Idle?
  }

  /** With no call in progress the counter is the number of leases held, so a skip is let through just when
      there are none. */
  lemma QuietCount(actions: seq<Action>)
    requires Quiet(Run(START, actions))
    ensures var s := Run(START, actions); s.leaseCount == |s.held| && s.leases == s.held
  {
    RunSound(actions);
    var s := Run(START, actions);
    forall id
      ensures id in s.counted <==> id in s.held
      ensures id in s.leases <==> id in s.held
    {
      RunAccounted(actions, id);
    }
    assert s.counted == s.held;
  }
}
