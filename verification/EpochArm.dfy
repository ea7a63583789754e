/**
 Arming a callback against the epoch: any number of threads `arm` and `bump` at once, every atomic access
 and every lock and unlock a step of its own.
 */
module EpochArm {
  import opened Options

  const U64 := 0x1_0000_0000_0000_0000

  /** A callback to run once the epoch moves past `seen`. */
  datatype Armed = Armed(id: int, seen: int)

  /** Where a thread is in its call; those after `BumpLock` and `ArmLock` hold the lock until `Unlock` is done. */
  datatype Pc =
    | Idle
    | BumpLoad | BumpLock | BumpStore | BumpTake
    | ArmLock(callback: Armed) | ArmWrite(callback: Armed) | ArmStore(callback: Armed) | ArmLoad(callback: Armed)
    | ArmUnstore(callback: Armed) | ArmTake(callback: Armed)
    | Unlock

  datatype State = State(epoch: int, isArmed: bool, armed: Option<Armed>, lock: Option<int>, pcs: map<int, Pc>,
                         made: nat, released: multiset<int>, replaced: multiset<int>)
  {
    function At(t: int): Pc {
      if t in pcs then pcs[t] else Idle
    }

    function Go(t: int, pc: Pc): State {
      this.(pcs := pcs[t := pc])
    }
  }

  datatype Action = Bump(thread: int) | Arm(thread: int, seen: int) | Step(thread: int)

  const START := State(0, false, None, None, map[], 0, multiset{}, multiset{})

  /** One atomic access; a thread that waits for the lock, or does not run the call, does nothing. */
  function Next(s: State, a: Action): State {
    match a
    case Bump(t) => if s.At(t).Idle? then s.(epoch := (s.epoch + 1) % U64).Go(t, BumpLoad) else s
    case Arm(t, seen) => if s.At(t).Idle? then s.(made := s.made + 1).Go(t, ArmLock(Armed(s.made, seen))) else s
    case Step(t) => Advance(s, t)
  }

  function Advance(s: State, t: int): State {
    Effect(s, t).Go(t, After(s, t))
  }

  /** What the access does. */
  function Effect(s: State, t: int): State {
    match s.At(t)
    case BumpLock => if s.lock.None? then s.(lock := Some(t)) else s
    case BumpStore => s.(isArmed := false)
    case BumpTake => Take(s)
    case ArmLock(_) => if s.lock.None? then s.(lock := Some(t)) else s
    case ArmWrite(c) => Put(s, c)
    case ArmStore(_) => s.(isArmed := true)
    case ArmUnstore(_) => s.(isArmed := false)
    case ArmTake(_) => Take(s)
    case Unlock => s.(lock := None)
    case _ => s
  }

  /** Where it leaves the thread. */
  function After(s: State, t: int): Pc {
    match s.At(t)
    case Idle => Idle
    case BumpLoad => if s.isArmed then BumpLock else Idle
    case BumpLock => if s.lock.None? then BumpStore else BumpLock
    case BumpStore => BumpTake
    case BumpTake => Unlock
    case ArmLock(c) => if s.lock.None? then ArmWrite(c) else ArmLock(c)
    case ArmWrite(c) => ArmStore(c)
    case ArmStore(c) => ArmLoad(c)
    case ArmLoad(c) => if s.epoch == c.seen then Unlock else ArmUnstore(c)
    case ArmUnstore(c) => ArmTake(c)
    case ArmTake(_) => Unlock
    case Unlock => Idle
  }

  /** The armed callback goes to the caller to run. */
  function Take(s: State): State {
    if s.armed.Some? then s.(armed := None, released := s.released + multiset{s.armed.value.id}) else s
  }

  function Put(s: State, c: Armed): State {
    s.(armed := Some(c), replaced := if s.armed.Some? then s.replaced + multiset{s.armed.value.id} else s.replaced)
  }

  function Run(s: State, actions: seq<Action>): State
    decreases |actions|
  {
    if actions == [] then s else Next(Run(s, actions[..|actions| - 1]), actions[|actions| - 1])
  }

  // ------------------------------------------------------------------------------------------
  // The invariant
  // ------------------------------------------------------------------------------------------

  predicate Holds(pc: Pc) {
    pc.BumpStore? || pc.BumpTake? || pc.ArmWrite? || pc.ArmStore? || pc.ArmLoad? || pc.ArmUnstore? || pc.ArmTake?
    || pc.Unlock?
  }

  /** A bump that has moved the epoch and will yet look for a callback. */
  predicate Chases(pc: Pc) {
    pc.BumpLoad? || pc.BumpLock?
  }

  ghost predicate Chased(s: State) {
    exists t :: Chases(s.At(t))
  }

  /** With nobody between changing the callback and its flag, they agree, and a callback the epoch has
      moved past is being looked for. */
  ghost predicate Settled(s: State) {
    && s.isArmed == s.armed.Some?
    && (s.armed.Some? && s.armed.value.seen != s.epoch ==> Chased(s))
  }

  /** What the thread that holds the lock has done so far. */
  ghost predicate Doing(s: State, pc: Pc) {
    match pc
    case BumpTake => !s.isArmed
    case ArmStore(c) => s.armed == Some(c)
    case ArmLoad(c) => s.armed == Some(c) && s.isArmed
    case ArmUnstore(c) => s.armed == Some(c)
    case ArmTake(c) => s.armed == Some(c) && !s.isArmed
    case Unlock => Settled(s)
    case _ => true
  }

  ghost predicate Exclusive(s: State) {
    forall t {:trigger s.At(t)} :: Holds(s.At(t)) <==> s.lock == Some(t)
  }

  ghost predicate Sound(s: State) {
    && Exclusive(s)
    && (s.lock.None? ==> Settled(s))
    && (s.lock.Some? ==> Doing(s, s.At(s.lock.value)))
  }

  /** Whatever the other threads do, a bump still looking for a callback goes on looking. */
  lemma StillChased(s: State, s': State, t: int)
    requires forall u :: u != t ==> s'.At(u) == s.At(u)
    ensures Chased(s) && !Chased(s') ==> Chases(s.At(t)) && !Chases(s'.At(t))
  {
  }

  lemma CallSound(s: State, a: Action)
    requires Sound(s) && !a.Step? && s.At(a.thread).Idle?
    ensures Sound(Next(s, a))
  {
    var s', t := Next(s, a), a.thread;
    assert forall u :: u != t ==> s'.At(u) == s.At(u);
    StillChased(s, s', t);
    if a.Bump? {
      assert Chases(s'.At(t));
    }
  }

  lemma HolderSound(s: State, t: int)
    requires Sound(s) && s.lock == Some(t)
    ensures Sound(Advance(s, t))
  {
    var s' := Advance(s, t);
    assert Holds(s.At(t));
    assert forall u :: u != t ==> s'.At(u) == s.At(u);
    StillChased(s, s', t);
  }

  lemma OtherSound(s: State, t: int)
    requires Sound(s) && s.lock != Some(t)
    ensures Sound(Advance(s, t))
  {
    var s' := Advance(s, t);
    assert !Holds(s.At(t));
    assert forall u :: u != t ==> s'.At(u) == s.At(u);
    StillChased(s, s', t);
  }

  lemma NextSound(s: State, a: Action)
    requires Sound(s)
    ensures Sound(Next(s, a))
  {
    if a.Step? && s.lock == Some(a.thread) {
      HolderSound(s, a.thread);
    } else if a.Step? {
      OtherSound(s, a.thread);
    } else if s.At(a.thread).Idle? {
      CallSound(s, a);
    }
  }

  lemma {:induction false} RunSound(actions: seq<Action>)
    ensures Sound(Run(START, actions))
    decreases |actions|
  {
    if actions != [] {
      RunSound(actions[..|actions| - 1]);
      NextSound(Run(START, actions[..|actions| - 1]), actions[|actions| - 1]);
    }
  }

  ghost predicate Quiet(s: State) {
    forall t :: s.At(t).Idle?
  }

  /** No callback is lost: with no call in progress, one still armed waits for an epoch not moved yet. */
  lemma NothingLost(actions: seq<Action>)
    ensures var s := Run(START, actions);
            Quiet(s) ==> s.isArmed == s.armed.Some? && (s.armed.Some? ==> s.armed.value.seen == s.epoch)
  {
    RunSound(actions);
    var s := Run(START, actions);
    assert s.lock.Some? ==> Holds(s.At(s.lock.value));
  }

  predicate Bumping(pc: Pc) {
    pc.BumpLoad? || pc.BumpLock? || pc.BumpStore? || pc.BumpTake?
  }

  /** No bump is under way, and an arm about to run its own callback found it late. */
  ghost predicate Calm(s: State) {
    forall t {:trigger s.At(t)} ::
      && !Bumping(s.At(t))
      && (s.At(t).ArmUnstore? || s.At(t).ArmTake? ==> s.At(t).callback.seen != s.epoch)
  }

  predicate NoBump(actions: seq<Action>) {
    forall i :: 0 <= i < |actions| ==> !actions[i].Bump?
  }

  lemma NextCalm(s: State, a: Action, id: int)
    requires Sound(s) && Calm(s) && !a.Bump?
    requires s.armed == Some(Armed(id, s.epoch)) || id in s.replaced
    ensures var s' := Next(s, a);
            && Calm(s') && s'.epoch == s.epoch
            && (s'.armed == Some(Armed(id, s.epoch)) || id in s'.replaced)
  {
    if a.Step? {
      StepCalm(s, a.thread, id);
    } else {
      assert forall u :: u != a.thread ==> Next(s, a).At(u) == s.At(u);
    }
  }

  lemma StepCalm(s: State, t: int, id: int)
    requires Sound(s) && Calm(s) && (s.armed == Some(Armed(id, s.epoch)) || id in s.replaced)
    ensures var s' := Advance(s, t);
            && Calm(s') && s'.epoch == s.epoch
            && (s'.armed == Some(Armed(id, s.epoch)) || id in s'.replaced)
  {
    var s' := Advance(s, t);
    assert Holds(s.At(t)) <==> s.lock == Some(t);
    assert !Bumping(s.At(t));
    forall u
      ensures u != t ==> s'.At(u) == s.At(u)
    {
    }
  }

  /** With no bump under way and none to come, a callback armed for the current epoch stays armed, unless another
      takes its place. */
  lemma {:induction false} StaysArmed(s: State, actions: seq<Action>, id: int)
    requires Sound(s) && Calm(s) && NoBump(actions) && s.armed == Some(Armed(id, s.epoch))
    ensures var s' := Run(s, actions);
            && Sound(s') && Calm(s') && s'.epoch == s.epoch
            && (s'.armed == Some(Armed(id, s.epoch)) || id in s'.replaced)
    decreases |actions|
  {
    if actions != [] {
      var before, a := Run(s, actions[..|actions| - 1]), actions[|actions| - 1];
      StaysArmed(s, actions[..|actions| - 1], id);
      NextSound(before, a);
      NextCalm(before, a, id);
    }
  }

  /** Where `n` steps of one thread lead. */
  function Stepped(s: State, t: int, n: nat): State {
    if n == 0 then s else Advance(Stepped(s, t, n - 1), t)
  }

  /** Steps of that thread alone lead there. */
  ghost predicate Leads(s: State, t: int, s': State) {
    exists n: nat :: Stepped(s, t, n) == s'
  }

  lemma LeadsOn(s: State, t: int, now: State)
    requires Leads(s, t, now)
    ensures Leads(s, t, Advance(now, t))
  {
    var n: nat :| Stepped(s, t, n) == now;
    assert Stepped(s, t, n + 1) == Advance(now, t);
  }

  /** The thread is there, with the epoch, the flag, the callback and the ones released as given. */
  predicate Stands(s: State, t: int, pc: Pc, epoch: int, isArmed: bool, armed: Option<Armed>, released: multiset<int>) {
    s.At(t) == pc && s.epoch == epoch && s.isArmed == isArmed && s.armed == armed && s.released == released
  }

  /** The lock is taken, for a bump or an arm, and given back. */
  lemma Locks(s: State, t: int, now: State, e: int, f: bool, a: Option<Armed>, r: multiset<int>) returns (next: State)
    requires Leads(s, t, now) && now.lock == None && (now.At(t).BumpLock? || now.At(t).ArmLock?)
    requires Stands(now, t, now.At(t), e, f, a, r)
    ensures Leads(s, t, next)
    ensures Stands(next, t, if now.At(t).BumpLock? then BumpStore else ArmWrite(now.At(t).callback), e, f, a, r)
  {
    LeadsOn(s, t, now);
    next := Advance(now, t);
  }

  lemma Unlocks(s: State, t: int, now: State, e: int, f: bool, a: Option<Armed>, r: multiset<int>) returns (next: State)
    requires Leads(s, t, now) && Stands(now, t, Unlock, e, f, a, r)
    ensures Leads(s, t, next) && Stands(next, t, Idle, e, f, a, r)
  {
    LeadsOn(s, t, now);
    next := Advance(now, t);
  }

  lemma Writes(s: State, t: int, now: State, c: Armed, e: int, r: multiset<int>) returns (next: State)
    requires Leads(s, t, now) && Stands(now, t, ArmWrite(c), e, now.isArmed, now.armed, r)
    ensures Leads(s, t, next) && Stands(next, t, ArmLoad(c), e, true, Some(c), r)
  {
    LeadsOn(s, t, now);
    next := Advance(now, t);
    assert Stands(next, t, ArmStore(c), e, now.isArmed, Some(c), r);
    next := Flags(s, t, next, c, e, r);
  }

  lemma Flags(s: State, t: int, now: State, c: Armed, e: int, r: multiset<int>) returns (next: State)
    requires Leads(s, t, now) && Stands(now, t, ArmStore(c), e, now.isArmed, Some(c), r)
    ensures Leads(s, t, next) && Stands(next, t, ArmLoad(c), e, true, Some(c), r)
  {
    LeadsOn(s, t, now);
    next := Advance(now, t);
  }

  lemma Looks(s: State, t: int, now: State, c: Armed, e: int, r: multiset<int>) returns (next: State)
    requires Leads(s, t, now) && Stands(now, t, ArmLoad(c), e, true, Some(c), r)
    ensures Leads(s, t, next)
    ensures Stands(next, t, if e == c.seen then Unlock else ArmUnstore(c), e, true, Some(c), r)
  {
    LeadsOn(s, t, now);
    next := Advance(now, t);
  }

  /** The flag goes down, and the callback is taken to be run. */
  lemma Unflags(s: State, t: int, now: State, c: Armed, e: int, r: multiset<int>) returns (next: State)
    requires Leads(s, t, now) && (now.At(t) == ArmUnstore(c) || now.At(t) == BumpStore)
    requires Stands(now, t, now.At(t), e, true, Some(c), r)
    ensures Leads(s, t, next) && Stands(next, t, Unlock, e, false, None, r + multiset{c.id})
  {
    LeadsOn(s, t, now);
    next := Advance(now, t);
    assert Stands(next, t, if now.At(t) == BumpStore then BumpTake else ArmTake(c), e, false, Some(c), r);
    next := Takes(s, t, next, c, e, r);
  }

  lemma Takes(s: State, t: int, now: State, c: Armed, e: int, r: multiset<int>) returns (next: State)
    requires Leads(s, t, now) && (now.At(t) == ArmTake(c) || now.At(t) == BumpTake)
    requires Stands(now, t, now.At(t), e, false, Some(c), r)
    ensures Leads(s, t, next) && Stands(next, t, Unlock, e, false, None, r + multiset{c.id})
  {
    LeadsOn(s, t, now);
    next := Advance(now, t);
  }

  /** Alone: a callback is armed if the epoch is the one it saw, and otherwise released at once. */
  lemma ArmAlone(s: State, t: int, seen: int) returns (s': State)
    requires s.At(t).Idle? && s.lock == None
    ensures Leads(Next(s, Arm(t, seen)), t, s')
    ensures if seen == s.epoch then Stands(s', t, Idle, s.epoch, true, Some(Armed(s.made, seen)), s.released)
            else Stands(s', t, Idle, s.epoch, false, None, s.released + multiset{s.made})
  {
    var called, c, e := Next(s, Arm(t, seen)), Armed(s.made, seen), s.epoch;
    assert Stepped(called, t, 0) == called;
    s' := Locks(called, t, called, e, s.isArmed, s.armed, s.released);
    s' := Writes(called, t, s', c, e, s.released);
    s' := Looks(called, t, s', c, e, s.released);
    if seen == e {
      s' := Unlocks(called, t, s', e, true, Some(c), s.released);
    } else {
      s' := Unflags(called, t, s', c, e, s.released);
      s' := Unlocks(called, t, s', e, false, None, s.released + multiset{c.id});
    }
  }

  /** Alone: a bump moves the epoch and runs the callback that is armed. */
  lemma BumpAlone(s: State, t: int) returns (s': State)
    requires s.At(t).Idle? && s.lock == None && s.isArmed && s.armed.Some?
    ensures Leads(Next(s, Bump(t)), t, s')
    ensures Stands(s', t, Idle, (s.epoch + 1) % U64, false, None, s.released + multiset{s.armed.value.id})
  {
    var called, c, e := Next(s, Bump(t)), s.armed.value, (s.epoch + 1) % U64;
    assert Stepped(called, t, 0) == called;
    LeadsOn(called, t, called);
    s' := Advance(called, t);
    assert Stands(s', t, BumpLock, e, true, Some(c), s.released) && s'.lock == None;
    s' := Locks(called, t, s', e, true, Some(c), s.released);
    s' := Unflags(called, t, s', c, e, s.released);
    s' := Unlocks(called, t, s', e, false, None, s.released + multiset{c.id});
  }

  // ------------------------------------------------------------------------------------------
  // Where every callback went
  // ------------------------------------------------------------------------------------------

  /** The callback a thread has yet to store. */
  predicate Carries(pc: Pc, id: int) {
    (pc.ArmLock? || pc.ArmWrite?) && pc.callback.id == id
  }

  ghost predicate Carried(s: State, id: int) {
    exists t :: Carries(s.At(t), id)
  }

  predicate IsArmed(s: State, id: int) {
    s.armed.Some? && s.armed.value.id == id
  }

  function Stored(s: State, id: int): nat {
    s.released[id] + s.replaced[id] + if IsArmed(s, id) then 1 else 0
  }

  /** Only one thread carries it. */
  ghost predicate Single(s: State, id: int) {
    forall t, u {:trigger s.At(t), s.At(u)} :: Carries(s.At(t), id) && Carries(s.At(u), id) ==> t == u
  }

  /** Every callback ever passed to `arm` is in just one place. */
  ghost predicate Placed(s: State, id: int) {
    && Stored(s, id) + (if Carried(s, id) then 1 else 0) == (if 0 <= id < s.made then 1 else 0)
    && Single(s, id)
  }

  lemma CarriedNext(s: State, s': State, t: int, id: int)
    requires Single(s, id) && forall u :: u != t ==> s'.At(u) == s.At(u)
    ensures Carries(s.At(t), id) && !Carries(s'.At(t), id) ==> !Carried(s', id)
    ensures Carries(s.At(t), id) == Carries(s'.At(t), id) ==> Carried(s', id) == Carried(s, id)
    ensures Carries(s'.At(t), id) ==> Carried(s', id)
  {
  }

  lemma CallPlaced(s: State, a: Action, id: int)
    requires Placed(s, id) && !a.Step?
    ensures Placed(Next(s, a), id)
  {
    var s', t := Next(s, a), a.thread;
    assert forall u :: u != t ==> s'.At(u) == s.At(u);
    CarriedNext(s, s', t, id);
  }

  lemma AdvanceStored(s: State, t: int, id: int)
    ensures Stored(Advance(s, t), id) == Stored(s, id) + if s.At(t).ArmWrite? && s.At(t).callback.id == id then 1 else 0
    ensures Advance(s, t).made == s.made
  {
  }

  lemma AdvanceCarries(s: State, t: int, id: int)
    ensures Carries(s.At(t), id) <==>
              Carries(Advance(s, t).At(t), id) || (s.At(t).ArmWrite? && s.At(t).callback.id == id)
    ensures s.At(t).ArmWrite? ==> !Carries(Advance(s, t).At(t), id)
  {
  }

  lemma AdvanceOthers(s: State, t: int, u: int)
    requires u != t
    ensures Advance(s, t).At(u) == s.At(u)
  {
  }

  lemma AdvancePlaced(s: State, t: int, id: int)
    requires Placed(s, id)
    ensures Placed(Advance(s, t), id)
  {
    AdvanceStored(s, t, id);
    AdvanceCarries(s, t, id);
    forall u | u != t
      ensures Advance(s, t).At(u) == s.At(u)
    {
      AdvanceOthers(s, t, u);
    }
    StillPlaced(s, Advance(s, t), t, id, s.At(t).ArmWrite? && s.At(t).callback.id == id);
  }

  lemma StillPlaced(s: State, s': State, t: int, id: int, wrote: bool)
    requires Placed(s, id) && s'.made == s.made && forall u :: u != t ==> s'.At(u) == s.At(u)
    requires Stored(s', id) == Stored(s, id) + if wrote then 1 else 0
    requires Carries(s.At(t), id) <==> Carries(s'.At(t), id) || wrote
    requires wrote ==> !Carries(s'.At(t), id)
    ensures Placed(s', id)
  {
  }

  /** Every callback is released at most once, and otherwise replaced or still armed. */
  lemma {:induction false} EachOnce(actions: seq<Action>, id: int)
    ensures Placed(Run(START, actions), id)
    ensures var s := Run(START, actions);
            s.released[id] <= 1
            && (Quiet(s) && 0 <= id < s.made ==>
                  s.released[id] + s.replaced[id] + (if IsArmed(s, id) then 1 else 0) == 1)
    decreases |actions|
  {
    if actions != [] {
      EachOnce(actions[..|actions| - 1], id);
      var s, a := Run(START, actions[..|actions| - 1]), actions[|actions| - 1];
      if a.Step? {
        AdvancePlaced(s, a.thread, id);
      } else {
        CallPlaced(s, a, id);
      }
    }
    var s := Run(START, actions);
    if Quiet(s) {
      assert forall t :: !Carries(s.At(t), id);
    }
  }
}
