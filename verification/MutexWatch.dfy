/**
 A participant starts watching a contended mutex while threads of the domain take and let go of it, recursively
 too. A thread locks or unlocks the mutex itself, then stores that in its own record, then looks for a watch
 and, if there may be one, sends the census a record. The watcher publishes the watch and then reads which
 thread's own record shows the mutex. Every access is a step of its own, for any number of threads.
 */
module MutexWatch {
  import opened Options
  import opened Choosing
  import opened HeldMutexes

  /** A take or a free, for the census. */
  datatype Record = Record(lineage: int, taken: bool)

  /** How far a thread is with noting a take or a free: made on the mutex, stored in its own record, on its way
      to the census. */
  datatype Stage = Made | Stored | Recording

  datatype Note = Note(stage: Stage, taken: bool)

  datatype Census = Unlocked | ByWatcher | ByOther

  datatype Phase = Unstarted | Locked | Drained | Reading | Watching

  /** `holder` has locked the mutex `depth` times over. `nested` tells whether the last note it had under way
      when the watch was published, or has made since, is a free that left it holding. `others` counts the
      watches of other mutexes in this one's slot of the filter. */
  datatype State = State(
    threads: set<int>, others: nat, holder: Option<int>, depth: nat, nested: bool, notes: map<int, Note>,
    published: bool, queue: seq<Record>, census: Census,
    phase: Phase, todo: set<int>, found: Option<int>, owner: Option<Owner>)

  datatype Action =
    | Acquire(thread: int) | Release(thread: int) | Store(thread: int) | Load(thread: int)
    | Send(thread: int, full: bool)
    | Lock | Drain | Publish | Read(thread: int) | Own
    | OtherLock | OtherUnlock | OtherWatch | OtherUnwatch

  predicate Initial(s: State) {
    && (s.holder.Some? ==> s.holder.value in s.threads) && (s.holder.Some? <==> s.depth > 0) && s.notes == map[]
    && !s.published && s.queue == [] && s.census == Unlocked && s.phase == Unstarted && s.owner == None
  }

  /** What a record makes of the watched mutex's owner. */
  function Apply(o: Option<Owner>, r: Record): Option<Owner> {
    match o
    case None => None
    case Some(owner) =>
      if r.taken then Some(Thread(r.lineage))
      else if owner.Unknown? || owner.Outside? || owner == Thread(r.lineage) then Some(Owner.Free)
      else o
  }

  function ApplyAll(o: Option<Owner>, rs: seq<Record>): Option<Owner> {
    if rs == [] then o else Apply(ApplyAll(o, rs[..|rs| - 1]), rs[|rs| - 1])
  }

  /** How often the thread's own record shows the mutex. */
  function Showing(s: State, t: int): int {
    (if s.holder == Some(t) then s.depth else 0)
    + if t in s.notes && s.notes[t].stage.Made? then (if s.notes[t].taken then -1 else 1) else 0
  }

  predicate Shows(s: State, t: int) {
    Showing(s, t) > 0
  }

  /** The owner a reading of the threads' records gives. */
  function OwnerOf(found: Option<int>): Owner {
    if found.Some? then Thread(found.value) else Outside
  }

  /** A free under way that leaves its thread holding. */
  predicate FreeUnderWay(s: State) {
    s.holder.Some? && s.holder.value in s.notes && !s.notes[s.holder.value].taken
  }

  function Next(s: State, a: Action): State {
    match a
    case Acquire(t) =>
      if t in s.threads && t !in s.notes && (s.holder == None || s.holder == Some(t))
      then s.(holder := Some(t), depth := s.depth + 1, nested := false, notes := s.notes[t := Note(Made, true)])
      else s
    case Release(t) =>
      if t !in s.notes && s.holder == Some(t) && s.depth > 0
      then s.(holder := if s.depth > 1 then s.holder else None, depth := s.depth - 1, nested := s.depth > 1,
              notes := s.notes[t := Note(Made, false)])
      else s
    case Store(t) =>
      if t in s.notes && s.notes[t].stage.Made? then s.(notes := s.notes[t := Note(Stored, s.notes[t].taken)]) else s
    // The slot of the filter counts this watch and those of the other mutexes in it.
    case Load(t) =>
      if t !in s.notes || !s.notes[t].stage.Stored? then s
      else if s.published || s.others > 0 then s.(notes := s.notes[t := Note(Recording, s.notes[t].taken)])
      else s.(notes := s.notes - {t})
    // At once if nobody has the census, else queued for its holder; with the queue full it waits.
    case Send(t, full) =>
      if t !in s.notes || !s.notes[t].stage.Recording? then s
      else
        var r := Record(t, s.notes[t].taken);
        if s.census == Unlocked
        then s.(notes := s.notes - {t}, queue := [], owner := Apply(ApplyAll(s.owner, s.queue), r))
        else if full then s
        else s.(notes := s.notes - {t}, queue := s.queue + [r])
    case Lock => if s.phase.Unstarted? && s.census == Unlocked then s.(phase := Locked, census := ByWatcher) else s
    case Drain => if s.phase.Locked? then s.(phase := Drained, queue := [], owner := ApplyAll(s.owner, s.queue)) else s
    case Publish =>
      if s.phase.Drained?
      then s.(phase := Reading, published := true, todo := s.threads, found := None, nested := FreeUnderWay(s))
      else s
    case Read(t) =>
      if s.phase.Reading? && s.found.None? && t in s.todo
      then s.(todo := s.todo - {t}, found := if Shows(s, t) then Some(t) else None)
      else s
    case Own =>
      if s.phase.Reading? && (s.found.Some? || s.todo == {})
      then s.(phase := Watching, census := Unlocked, owner := Some(OwnerOf(s.found)))
      else s
    case OtherLock =>
      if s.census == Unlocked then s.(census := ByOther, queue := [], owner := ApplyAll(s.owner, s.queue)) else s
    case OtherUnlock => if s.census == ByOther then s.(census := Unlocked) else s
    case OtherWatch => s.(others := s.others + 1)
    case OtherUnwatch => if s.others > 0 then s.(others := s.others - 1) else s
  }

  function Run(s: State, actions: seq<Action>): State
    decreases |actions|
  {
    if actions == [] then s else Next(Run(s, actions[..|actions| - 1]), actions[|actions| - 1])
  }

  /** The thread the census names. */
  function Who(o: Option<Owner>): Option<int> {
    if o.Some? && o.value.Thread? then Some(o.value.lineage) else None
  }

  /** Whom the census is to name: a thread from its take to its next free. */
  function Target(s: State): Option<int> {
    if s.nested then None else s.holder
  }

  predicate Names(s: State) {
    s.owner.Some? && Who(s.owner) == Target(s)
  }

  /** The watch is on, no note is under way and nothing is queued. */
  predicate AtRest(s: State) {
    s.phase.Watching? && s.notes == map[] && s.queue == []
  }

  /** However the threads and the watch go on, at rest the census names whom it is to name and nobody else. */
  ghost predicate NothingMissed(s: State) {
    forall actions :: AtRest(Run(s, actions)) ==> Names(Run(s, actions))
  }

  // ------------------------------------------------------------------------------------------
  // Records applied in order
  // ------------------------------------------------------------------------------------------

  /** The thread of the last take. */
  function LastTake(rs: seq<Record>): Option<int> {
    if rs == [] then None
    else if rs[|rs| - 1].taken then Some(rs[|rs| - 1].lineage)
    else LastTake(rs[..|rs| - 1])
  }

  /** A free by the thread, with no take after it. */
  predicate Freed(rs: seq<Record>, t: int) {
    rs != [] && !rs[|rs| - 1].taken && (rs[|rs| - 1].lineage == t || Freed(rs[..|rs| - 1], t))
  }

  /** Records decide by the last take, and otherwise by whether the owner's free is among them. */
  lemma {:induction false} Applied(o: Owner, rs: seq<Record>)
    ensures ApplyAll(Some(o), rs)
            == Some(if LastTake(rs).Some? then
                      if Freed(rs, LastTake(rs).value) then Owner.Free else Thread(LastTake(rs).value)
                    else if rs == [] || (o.Thread? && !Freed(rs, o.lineage)) then o
                    else Owner.Free)
    ensures Who(ApplyAll(Some(o), rs))
            == var last := if LastTake(rs).Some? then LastTake(rs) else Who(Some(o));
               if last.Some? && Freed(rs, last.value) then None else last
  {
    if rs != [] {
      Applied(o, rs[..|rs| - 1]);
    }
  }

  lemma ApplyOne(o: Option<Owner>, rs: seq<Record>, r: Record)
    ensures ApplyAll(o, rs + [r]) == Apply(ApplyAll(o, rs), r)
  {
    assert (rs + [r])[..|rs|] == rs;
  }

  // ------------------------------------------------------------------------------------------
  // Which owners the notes under way put right
  // ------------------------------------------------------------------------------------------

  /** With `x` named and the notes of `noting` to come: the target is named, or will be by its own note, or the
      thread wrongly named has its free to come. */
  predicate Settles(x: Option<int>, target: Option<int>, noting: set<int>) {
    || x == target
    || (target.Some? && target.value in noting)
    || (target.None? && x.Some? && x.value in noting)
  }

  /** The owner comes right once the queue is drained and the notes under way arrive. */
  predicate Good(s: State, o: Owner) {
    Settles(Who(ApplyAll(Some(o), s.queue)), Target(s), s.notes.Keys)
  }

  /** The mutex and the notes agree: a take under way is the target's, a free anybody else's. */
  predicate Kept(s: State) {
    && (s.holder.Some? ==> s.holder.value in s.threads) && (s.holder.Some? <==> s.depth > 0)
    && (s.nested ==> s.holder.Some?)
    && (forall t :: t in s.notes ==> (s.notes[t].taken <==> Target(s) == Some(t)))
  }

  /** While the watcher reads: what it has found comes right, or else what it may yet find, and so does finding
      nothing, unless it is yet to read the record of a thread that holds the mutex all along. */
  predicate ReadingRight(s: State) {
    if s.found.Some? then Good(s, OwnerOf(s.found))
    else
      && (forall t :: t in s.todo && Shows(s, t) ==> Good(s, Thread(t)))
      && (Good(s, Outside) || (Target(s).Some? && Target(s).value !in s.notes && Target(s).value in s.todo))
  }

  predicate Right(s: State) {
    && Kept(s) && s.published && (s.phase.Reading? || s.phase.Watching?)
    && (s.phase.Reading? ==> s.census == ByWatcher && s.owner == None && ReadingRight(s))
    && (s.phase.Watching? ==> s.census != ByWatcher && s.owner.Some? && Good(s, s.owner.value))
  }

  lemma AcquireGood(s: State, t: int, o: Owner)
    requires Next(s, Acquire(t)) != s
    ensures Good(Next(s, Acquire(t)), o)
  {
  }

  lemma ReleaseGood(s: State, t: int, o: Owner)
    requires Kept(s) && Next(s, Release(t)) != s && Good(s, o)
    ensures Good(Next(s, Release(t)), o)
  {
  }

  /** A record that arrives leaves it as it was whether an owner comes right. */
  lemma SendGood(s: State, t: int, o: Owner, s': State)
    requires Kept(s) && t in s.notes && s'.notes == s.notes - {t} && Target(s') == Target(s)
    requires s'.queue == s.queue + [Record(t, s.notes[t].taken)]
    ensures Good(s', o) <==> Good(s, o)
  {
    ApplyOne(Some(o), s.queue, Record(t, s.notes[t].taken));
    Applied(o, s.queue);
  }

  lemma AcquireRight(s: State, t: int)
    requires Right(s)
    ensures Right(Next(s, Acquire(t)))
  {
    var s' := Next(s, Acquire(t));
    if s' != s {
      forall o ensures Good(s', o) {
        AcquireGood(s, t, o);
      }
    }
  }

  lemma ReleaseRight(s: State, t: int)
    requires Right(s)
    ensures Right(Next(s, Release(t)))
  {
    var s' := Next(s, Release(t));
    if s' != s {
      forall o | Good(s, o) ensures Good(s', o) {
        ReleaseGood(s, t, o);
      }
      Applied(Outside, s.queue);
      Applied(Thread(t), s.queue);
    }
  }

  lemma NotingRight(s: State, a: Action)
    requires Right(s) && (a.Store? || a.Load?)
    ensures Right(Next(s, a))
  {
    var s' := Next(s, a);
    assert s'.notes.Keys == s.notes.Keys && s'.queue == s.queue && Target(s') == Target(s);
    assert forall o :: Good(s', o) <==> Good(s, o);
  }

  lemma SendRight(s: State, t: int, full: bool)
    requires Right(s)
    ensures Right(Next(s, Send(t, full)))
  {
    var s' := Next(s, Send(t, full));
    if s' != s {
      var r := Record(t, s.notes[t].taken);
      if s.census == Unlocked {
        var q := s'.(queue := s.queue + [r]);
        SendGood(s, t, s.owner.value, q);
        ApplyOne(s.owner, s.queue, r);
        Applied(s.owner.value, s.queue);
      } else {
        forall o ensures Good(s', o) <==> Good(s, o) {
          SendGood(s, t, o, s');
        }
      }
    }
  }

  lemma ReadRight(s: State, a: Action)
    requires Right(s) && (a.Read? || a.Own?)
    ensures Right(Next(s, a))
  {
    var s' := Next(s, a);
    assert forall o :: Good(s', o) <==> Good(s, o);
  }

  lemma OtherRight(s: State, a: Action)
    requires Right(s)
    requires a.Lock? || a.Drain? || a.Publish? || a.OtherLock? || a.OtherUnlock? || a.OtherWatch? || a.OtherUnwatch?
    ensures Right(Next(s, a))
  {
    var s' := Next(s, a);
    if s.phase.Watching? {
      Applied(s.owner.value, s.queue);
    }
    assert s'.queue == s.queue ==> forall o :: Good(s', o) <==> Good(s, o);
  }

  /** Every step keeps it. */
  lemma {:induction false} RunRight(s: State, actions: seq<Action>)
    requires Right(s)
    ensures Right(Run(s, actions))
    decreases |actions|
  {
    if actions != [] {
      var before, a := Run(s, actions[..|actions| - 1]), actions[|actions| - 1];
      RunRight(s, actions[..|actions| - 1]);
      match a
      case Acquire(t) => AcquireRight(before, t);
      case Release(t) => ReleaseRight(before, t);
      case Store(_) => NotingRight(before, a);
      case Load(_) => NotingRight(before, a);
      case Send(t, full) => SendRight(before, t, full);
      case Read(_) => ReadRight(before, a);
      case Own => ReadRight(before, a);
      case _ => OtherRight(before, a);
    }
  }

  // ------------------------------------------------------------------------------------------
  // The exact condition
  // ------------------------------------------------------------------------------------------

  /** The watch has just been published. */
  predicate JustPublished(s: State) {
    && Kept(s) && s.phase.Reading? && s.published && s.census == ByWatcher && s.owner == None
    && s.found == None && s.todo == s.threads && (s.nested ==> FreeUnderWay(s))
  }

  /** What is queued and under way can be trusted: the holder's own take is under way, or the last take queued
      is the holder's and lasts, or none is queued, nor a free of the holder's, and no other record still shows
      the mutex; with no holder, a take queued has its free queued or under way. */
  predicate Trusted(s: State) {
    var target, last := Target(s), LastTake(s.queue);
    if target.None? then last.Some? ==> Freed(s.queue, last.value) || last.value in s.notes
    else if target.value in s.notes then true
    else if last.Some? then last == target && !Freed(s.queue, last.value)
    else !Freed(s.queue, target.value) && forall t :: t in s.threads && Shows(s, t) ==> t == target.value
  }

  lemma TrustedMeans(s: State)
    requires JustPublished(s)
    ensures Trusted(s) <==> ReadingRight(s)
  {
    Applied(Outside, s.queue);
    forall t ensures ApplyAll(Some(Thread(t)), s.queue).Some? && Who(ApplyAll(Some(Thread(t)), s.queue))
                     == var last := if LastTake(s.queue).Some? then LastTake(s.queue) else Some(t);
                        if Freed(s.queue, last.value) then None else last
    {
      Applied(Thread(t), s.queue);
    }
    if Target(s).Some? {
      assert Target(s).value !in s.notes ==> Shows(s, Target(s).value);
    }
  }

  lemma {:induction false} RunOver(s: State, xs: seq<Action>, ys: seq<Action>)
    ensures Run(s, xs + ys) == Run(Run(s, xs), ys)
    decreases |ys|
  {
    if ys == [] {
      assert xs + ys == xs;
    } else {
      assert (xs + ys)[..|xs + ys| - 1] == xs + ys[..|ys| - 1];
      RunOver(s, xs, ys[..|ys| - 1]);
    }
  }

  lemma RunOne(s: State, a: Action)
    ensures Run(s, [a]) == Next(s, a)
  {
    assert [a][..0] == [];
  }

  lemma RunTwo(s: State, a: Action, b: Action)
    ensures Run(s, [a, b]) == Next(Next(s, a), b)
  {
    assert [a, b][..1] == [a];
    RunOne(s, a);
  }

  lemma RunThree(s: State, a: Action, b: Action, c: Action)
    ensures Run(s, [a, b, c]) == Next(Next(Next(s, a), b), c)
  {
    assert [a, b, c][..2] == [a, b];
    RunTwo(s, a, b);
  }

  /** The watcher reads on until it finds the mutex or has read every record. */
  lemma {:induction false} ReadAll(s: State) returns (actions: seq<Action>)
    requires s.phase.Reading? && s.found == None
    ensures var s' := Run(s, actions);
            s' == s.(todo := s'.todo, found := s'.found) && (s'.found.None? ==> s'.todo == {})
    decreases |s.todo|
  {
    if s.todo == {} {
      actions := [];
    } else {
      var t := SomeOf(s.todo);
      RunOne(s, Read(t));
      var rest := [];
      if !Shows(s, t) {
        rest := ReadAll(Next(s, Read(t)));
      }
      RunOver(s, [Read(t)], rest);
      actions := [Read(t)] + rest;
    }
  }

  /** Reading can end with an owner that does not come right. */
  lemma ReadWrong(s: State) returns (actions: seq<Action>)
    requires JustPublished(s) && !ReadingRight(s)
    ensures var s' := Run(s, actions);
            Watched(s') && Kept(s') && s'.holder == s.holder && s'.nested == s.nested && !Good(s', s'.owner.value)
  {
    if t :| t in s.todo && Shows(s, t) && !Good(s, Thread(t)) {
      RunTwo(s, Read(t), Own);
      actions := [Read(t), Own];
    } else {
      var read := ReadAll(s);
      var found := Run(s, read).found;
      RunOne(Run(s, read), Own);
      RunOver(s, read, [Own]);
      actions := read + [Own];
      Applied(Outside, s.queue);
      Applied(OwnerOf(found), s.queue);
    }
  }

  predicate Watched(s: State) {
    s.phase.Watching? && s.published && s.census == Unlocked && s.owner.Some?
  }

  /** A note under way arrives. */
  lemma Arrives(s: State, t: int)
    requires Watched(s) && t in s.notes
    ensures Run(s, [Store(t), Load(t), Send(t, false)])
            == s.(notes := s.notes - {t}, queue := [],
                  owner := Apply(ApplyAll(s.owner, s.queue), Record(t, s.notes[t].taken)))
  {
    RunThree(s, Store(t), Load(t), Send(t, false));
    var note := Note(Recording, s.notes[t].taken);
    StoredSent(s, t);
    assert s.notes[t := note] - {t} == s.notes - {t};
  }

  lemma StoredSent(s: State, t: int)
    requires s.published && t in s.notes
    ensures Next(Next(s, Store(t)), Load(t)) == s.(notes := s.notes[t := Note(Recording, s.notes[t].taken)])
  {
    var stored, recording := Note(Stored, s.notes[t].taken), Note(Recording, s.notes[t].taken);
    assert s.notes[t := stored][t := recording] == s.notes[t := recording];
    assert s.notes[t].stage.Recording? ==> s.notes[t := recording] == s.notes;
  }

  lemma ArrivesGood(s: State, t: int, s': State)
    requires Watched(s) && Kept(s) && t in s.notes
    requires s' == s.(notes := s.notes - {t}, queue := [],
                      owner := Apply(ApplyAll(s.owner, s.queue), Record(t, s.notes[t].taken)))
    ensures Watched(s') && Kept(s') && (Good(s', s'.owner.value) <==> Good(s, s.owner.value))
  {
    var r := Record(t, s.notes[t].taken);
    Applied(s.owner.value, s.queue);
    SendGood(s, t, s.owner.value, s'.(queue := s.queue + [r]));
    ApplyOne(s.owner, s.queue, r);
  }

  /** With no further take or free the census comes to rest, right just when its owner was to come right. */
  lemma {:induction false} Settled(s: State) returns (actions: seq<Action>)
    requires Watched(s) && Kept(s)
    ensures var s' := Run(s, actions);
            AtRest(s') && s'.holder == s.holder && s'.nested == s.nested && s'.owner.Some?
            && (Who(s'.owner) == Target(s) <==> Good(s, s.owner.value))
    decreases |s.notes.Keys|
  {
    if s.notes == map[] {
      RunOne(s, OtherLock);
      actions := [OtherLock];
      Applied(s.owner.value, s.queue);
    } else {
      var t := SomeOf(s.notes.Keys);
      Arrives(s, t);
      var one := [Store(t), Load(t), Send(t, false)];
      ArrivesGood(s, t, Run(s, one));
      var rest := Settled(Run(s, one));
      RunOver(s, one, rest);
      actions := one + rest;
    }
  }

  /** A watch misses nothing from its publication on exactly when what was queued and under way then could be
      trusted. */
  lemma RightIfTrusted(s: State)
    requires JustPublished(s)
    ensures NothingMissed(s) <==> Trusted(s)
  {
    TrustedMeans(s);
    if Trusted(s) {
      forall actions | AtRest(Run(s, actions))
        ensures Names(Run(s, actions))
      {
        RunRight(s, actions);
      }
    } else {
      var read := ReadWrong(s);
      var rest := Settled(Run(s, read));
      RunOver(s, read, rest);
      assert AtRest(Run(s, read + rest)) && !Names(Run(s, read + rest));
    }
  }

  /** And then it is right about who holds the mutex exactly while the holder's last note is not a free. */
  lemma RightUnlessNested(s: State, actions: seq<Action>)
    requires JustPublished(s) && Trusted(s) && AtRest(Run(s, actions))
    ensures Who(Run(s, actions).owner) == Run(s, actions).holder <==> !Run(s, actions).nested
  {
    TrustedMeans(s);
    RunRight(s, actions);
  }

  /** A take or a free has been seen, or is on its way. */
  predicate Noticed(s: State) {
    && Right(s) && s.phase.Watching?
    && (s.owner.value.Free? || s.owner.value.Thread? || s.queue != [] || s.notes != map[])
  }

  lemma NextNoticed(s: State, a: Action)
    requires Noticed(s) && Right(Next(s, a))
    ensures Noticed(Next(s, a))
  {
    var s' := Next(s, a);
    Applied(s.owner.value, s.queue);
    match a
    case Acquire(t) => assert s' == s || t in s'.notes;
    case Release(t) => assert s' == s || t in s'.notes;
    case Store(t) => assert s' == s || t in s'.notes;
    case Load(t) => assert s' == s || t in s'.notes;
    case _ =>
  }

  /** From then on the census at rest names a thread or has the mutex free: no longer held outside. */
  lemma {:induction false} FreeAtRest(s: State, actions: seq<Action>)
    requires Noticed(s)
    ensures Noticed(Run(s, actions))
    ensures var s' := Run(s, actions);
            AtRest(s') ==> s'.owner == Some(if Target(s').Some? then Thread(Target(s').value) else Owner.Free)
    decreases |actions|
  {
    RunRight(s, actions);
    if actions != [] {
      FreeAtRest(s, actions[..|actions| - 1]);
      NextNoticed(Run(s, actions[..|actions| - 1]), actions[|actions| - 1]);
    }
  }

  // ------------------------------------------------------------------------------------------
  // Up to the watch
  // ------------------------------------------------------------------------------------------

  predicate Unpublished(s: State) {
    && !s.published && s.owner == None
    && (s.holder.Some? ==> s.holder.value in s.threads) && (s.holder.Some? <==> s.depth > 0)
    && (s.phase.Unstarted? || s.phase.Locked? || s.phase.Drained?)
    && (s.phase.Unstarted? <==> s.census != ByWatcher)
    && (forall t :: t in s.notes && s.notes[t].taken ==> s.holder == Some(t))
  }

  predicate Publicly(s: State) {
    s.published && (s.phase.Reading? || s.phase.Watching?)
  }

  lemma {:induction false} NothingApplied(rs: seq<Record>)
    ensures ApplyAll(None, rs) == None
  {
    if rs != [] {
      NothingApplied(rs[..|rs| - 1]);
    }
  }

  lemma NextUnpublished(s: State, a: Action)
    requires Unpublished(s) || Publicly(s)
    ensures Unpublished(Next(s, a)) || Publicly(Next(s, a))
  {
    NothingApplied(s.queue);
  }

  /** Until the watch is published no record has an effect, and a take under way is the holder's. */
  lemma {:induction false} RunUnpublished(s: State, actions: seq<Action>)
    requires Initial(s)
    ensures Unpublished(Run(s, actions)) || Publicly(Run(s, actions))
    decreases |actions|
  {
    if actions != [] {
      var before, a := Run(s, actions[..|actions| - 1]), actions[|actions| - 1];
      RunUnpublished(s, actions[..|actions| - 1]);
      NextUnpublished(before, a);
    }
  }

  /** In every run, the watch misses nothing from its publication on exactly when what is queued and under way
      then can be trusted. */
  lemma EveryWatch(s: State, before: seq<Action>)
    requires Initial(s) && Run(s, before).phase.Drained?
    ensures var published := Next(Run(s, before), Publish);
            NothingMissed(published) <==> Trusted(published)
  {
    RunUnpublished(s, before);
    RightIfTrusted(Next(Run(s, before), Publish));
  }

  predicate Alone(actions: seq<Action>) {
    forall i :: 0 <= i < |actions| ==> !actions[i].OtherWatch?
  }

  lemma {:induction false} NothingQueued(s: State, before: seq<Action>)
    requires Initial(s) && s.others == 0 && Alone(before) && !Run(s, before).published
    ensures Unqueued(Run(s, before))
    decreases |before|
  {
    if before != [] {
      var n := |before| - 1;
      assert !Run(s, before[..n]).published;
      NothingQueued(s, before[..n]);
      NextUnqueued(Run(s, before[..n]), before[n]);
    }
  }

  predicate Unqueued(s: State) {
    s.others == 0 && s.queue == [] && !s.published && forall t :: t in s.notes ==> !s.notes[t].stage.Recording?
  }

  lemma NextUnqueued(s: State, a: Action)
    requires Unqueued(s) && !a.OtherWatch?
    ensures Unqueued(Next(s, a)) || Next(s, a).published
  {
  }

  /** A thread has let go of the mutex and its record still shows it, though the next holder has made its note. */
  predicate Overtaken(s: State) {
    && s.holder.Some? && s.holder.value !in s.notes
    && exists t :: t in s.threads && t != s.holder.value && Shows(s, t)
  }

  /** With no other watched mutex in the slot, nothing is missed unless a holder's record is overtaken so. */
  lemma AloneRight(s: State, before: seq<Action>)
    requires Initial(s) && s.others == 0 && Alone(before) && Run(s, before).phase.Drained?
    ensures NothingMissed(Next(Run(s, before), Publish)) <==> !Overtaken(Run(s, before))
  {
    EveryWatch(s, before);
    RunUnpublished(s, before);
    NothingQueued(s, before);
    AloneTrusted(Run(s, before));
  }

  lemma AloneTrusted(d: State)
    requires Unpublished(d) && d.queue == [] && d.phase.Drained?
    ensures Trusted(Next(d, Publish)) <==> !Overtaken(d)
  {
    var p := Next(d, Publish);
    assert forall t :: Shows(p, t) <==> Shows(d, t);
  }

  /** Nor is anything missed by a watch published before a record is queued behind its drain, shared slot or not,
      on the same condition. */
  lemma PublishedAtOnce(s: State, before: seq<Action>)
    requires Initial(s) && Run(s, before).phase.Locked?
    ensures NothingMissed(Next(Next(Run(s, before), Drain), Publish)) <==> !Overtaken(Run(s, before))
  {
    var locked := Run(s, before);
    RunUnpublished(s, before);
    NothingApplied(locked.queue);
    AloneTrusted(Next(locked, Drain));
    RightIfTrusted(Next(Next(locked, Drain), Publish));
    assert forall t :: Shows(Next(locked, Drain), t) <==> Shows(locked, t);
  }

  /** A thread's own record shows a take from when it is stored until its free is stored, and nothing else is taken
      or let go by the thread meanwhile. */
  lemma ShownWhenStored(s: State, t: int)
    requires t in s.threads && t !in s.notes && s.holder == None && s.depth == 0 && !s.published && s.others == 0
    ensures var made := Next(s, Acquire(t));
            var stored := Next(made, Store(t));
            var freed := Next(Next(stored, Load(t)), Release(t));
            && !Shows(made, t) && Shows(stored, t) && Shows(freed, t) && !Shows(Next(freed, Store(t)), t)
            && Next(made, Acquire(t)) == Next(made, Release(t)) == made
            && Next(stored, Acquire(t)) == Next(stored, Release(t)) == stored
  {
  }

  /** A record that finds the queue full waits for the census instead. */
  lemma FullWaits(s: State, t: int)
    requires s.census != Unlocked
    ensures Next(s, Send(t, true)) == s
  {
  }

  /** While somebody else has the census a record leaves the owner alone, and has its effect when it is next taken. */
  lemma QueuedWhileTaken(s: State, t: int)
    requires s.census == Unlocked && t in s.notes && s.notes[t].stage.Recording?
    ensures var taken := Next(s, OtherLock);
            var sent := Next(taken, Send(t, false));
            var again := Next(Next(sent, OtherUnlock), OtherLock);
            && taken.owner == sent.owner == ApplyAll(s.owner, s.queue)
            && sent.queue == [Record(t, s.notes[t].taken)]
            && again.queue == [] && again.owner == Apply(sent.owner, Record(t, s.notes[t].taken))
  {
    var r := Record(t, s.notes[t].taken);
    ApplyOne(ApplyAll(s.owner, s.queue), [], r);
    assert [] + [r] == [r];
  }

  // ------------------------------------------------------------------------------------------
  // Runs that go wrong
  // ------------------------------------------------------------------------------------------

  /** A take or a free that no watch is there for. */
  lemma SkippedTake(s: State, t: int) returns (actions: seq<Action>)
    requires t in s.threads && t !in s.notes && s.holder == None && s.depth == 0 && !s.published && s.others == 0
    ensures Run(s, actions) == s.(holder := Some(t), depth := 1, nested := false) && Alone(actions)
  {
    RunThree(s, Acquire(t), Store(t), Load(t));
    actions := [Acquire(t), Store(t), Load(t)];
    assert s.notes[t := Note(Made, true)][t := Note(Stored, true)] - {t} == s.notes;
  }

  lemma SkippedFree(s: State, t: int) returns (actions: seq<Action>)
    requires t !in s.notes && s.holder == Some(t) && s.depth == 1 && !s.published && s.others == 0
    ensures Run(s, actions) == s.(holder := None, depth := 0, nested := false) && Alone(actions)
  {
    RunThree(s, Release(t), Store(t), Load(t));
    actions := [Release(t), Store(t), Load(t)];
    assert s.notes[t := Note(Made, false)][t := Note(Stored, false)] - {t} == s.notes;
  }

  lemma Starts(s: State)
    requires s.phase.Unstarted? && s.census == Unlocked && s.queue == []
    ensures Run(s, [Lock, Drain]) == s.(phase := Drained, census := ByWatcher)
  {
    RunTwo(s, Lock, Drain);
  }

  /** A thread is slow to note its free: the next holder's take goes unseen, the watcher finds the first, and
      its free then makes the mutex free. */
  lemma LateFree(s: State, t: int, u: int) returns (before: seq<Action>)
    requires Initial(s) && s.others == 0 && s.holder == None && t in s.threads && u in s.threads && t != u
    ensures Alone(before) && Run(s, before).phase.Drained? && !NothingMissed(Next(Run(s, before), Publish))
  {
    var taken := SkippedTake(s, t);
    var s1 := Run(s, taken);
    RunOne(s1, Release(t));
    var s2 := Run(s1, [Release(t)]);
    var next := SkippedTake(s2, u);
    var s3 := Run(s2, next);
    Starts(s3);
    RunOver(s, taken, [Release(t)]);
    RunOver(s, taken + [Release(t)], next);
    RunOver(s, taken + [Release(t)] + next, [Lock, Drain]);
    before := taken + [Release(t)] + next + [Lock, Drain];
    assert Run(s, before) == s3.(phase := Drained, census := ByWatcher);
    assert Shows(Run(s, before), t);
    AloneRight(s, before);
  }

  /** A take queued for another mutex's sake outlives its hold: the free, noted once that other watch is over and
      before this one is published, is skipped, and the record applied after. */
  lemma StaleRecord(s: State, t: int) returns (before: seq<Action>)
    requires Initial(s) && s.others == 0 && s.holder == None && t in s.threads
    ensures Run(s, before).phase.Drained? && !NothingMissed(Next(Run(s, before), Publish))
  {
    var queued := QueuedForAnother(s, t);
    var s1 := Run(s, queued);
    RunOne(s1, OtherUnwatch);
    var s2 := Run(s1, [OtherUnwatch]);
    var freed := SkippedFree(s2, t);
    RunOver(s, queued, [OtherUnwatch]);
    RunOver(s, queued + [OtherUnwatch], freed);
    before := queued + [OtherUnwatch] + freed;
    EveryWatch(s, before);
    assert LastTake([Record(t, true)]) == Some(t) && !Freed([Record(t, true)], t);
  }

  lemma QueuedForAnother(s: State, t: int) returns (actions: seq<Action>)
    requires Initial(s) && s.others == 0 && s.holder == None && t in s.threads
    ensures var s' := Run(s, actions);
            s' == s.(others := 1, phase := Drained, census := ByWatcher, holder := Some(t), depth := 1,
                     nested := false, queue := [Record(t, true)])
  {
    Starts(s);
    var s1 := Run(s, [Lock, Drain]);
    RunTwo(s1, OtherWatch, Acquire(t));
    var s2 := Run(s1, [OtherWatch, Acquire(t)]);
    TakeQueued(s2, t);
    RunOver(s, [Lock, Drain], [OtherWatch, Acquire(t)]);
    RunOver(s, [Lock, Drain] + [OtherWatch, Acquire(t)], [Store(t), Load(t), Send(t, false)]);
    actions := [Lock, Drain] + [OtherWatch, Acquire(t)] + [Store(t), Load(t), Send(t, false)];
  }

  lemma TakeQueued(s: State, t: int)
    requires s.notes == map[t := Note(Made, true)] && s.others > 0 && s.census == ByWatcher && s.queue == []
    ensures Run(s, [Store(t), Load(t), Send(t, false)]) == s.(notes := map[], queue := [Record(t, true)])
  {
    RunThree(s, Store(t), Load(t), Send(t, false));
  }

  /** A thread that takes the mutex again and lets go once leaves it free for the census, and still holds it. */
  lemma NestedFree(s: State, t: int) returns (actions: seq<Action>)
    requires Initial(s) && s.holder == Some(t) && s.depth == 1
    ensures var s' := Run(s, actions);
            AtRest(s') && s'.holder == Some(t) && Shows(s', t) && s'.owner == Some(Owner.Free) && Alone(actions)
  {
    var watched := WatchesHolder(s, t);
    var s1 := Run(s, watched);
    RunOne(s1, Acquire(t));
    var s2, arrives := Run(s1, [Acquire(t)]), [Store(t), Load(t), Send(t, false)];
    Arrives(s2, t);
    var s3 := Run(s2, arrives);
    assert s3 == s1.(depth := 2, nested := false);
    RunOne(s3, Release(t));
    Arrives(Run(s3, [Release(t)]), t);
    RunOver(s, watched, [Acquire(t)]);
    RunOver(s, watched + [Acquire(t)], arrives);
    RunOver(s, watched + [Acquire(t)] + arrives, [Release(t)]);
    RunOver(s, watched + [Acquire(t)] + arrives + [Release(t)], arrives);
    actions := watched + [Acquire(t)] + arrives + [Release(t)] + arrives;
  }

  lemma WatchesHolder(s: State, t: int) returns (actions: seq<Action>)
    requires Initial(s) && s.holder == Some(t)
    ensures var s' := Run(s, actions);
            s' == s.(nested := false, published := true, phase := Watching, todo := s.threads - {t}, found := Some(t),
                     owner := Some(Thread(t)))
    ensures Alone(actions)
  {
    Starts(s);
    var s1 := Run(s, [Lock, Drain]);
    RunThree(s1, Publish, Read(t), Own);
    RunOver(s, [Lock, Drain], [Publish, Read(t), Own]);
    actions := [Lock, Drain] + [Publish, Read(t), Own];
  }
}
