/**
 The mutexes each thread holds, as its lock hooks saw it: eight slots and a count of what did not fit,
 standing for a multiset of any size.
 */
module HeldMutexes {
  import opened Options
  import opened Choosing

  const HELD_SLOTS := 8

  /** The slots in use; 0 marks a free one. */
  function Recorded(slots: seq<int>): multiset<int> {
    multiset(slots)[0 := 0]
  }

  /** The slots are some of the holds, and slots and spill count together are all of them. */
  predicate Refines(slots: seq<int>, spilled: int, holds: multiset<int>) {
    Recorded(slots) <= holds && |Recorded(slots)| + spilled == |holds|
  }

  lemma StoreRecorded(slots: seq<int>, i: int, value: int)
    requires 0 <= i < |slots|
    ensures multiset(slots[i := value]) == multiset(slots) - multiset{slots[i]} + multiset{value}
    ensures slots[i] == 0 && value != 0 ==> Recorded(slots[i := value]) == Recorded(slots) + multiset{value}
    ensures slots[i] != 0 ==> slots[i] in Recorded(slots)
    ensures slots[i] != 0 && value == 0 ==> Recorded(slots[i := value]) == Recorded(slots) - multiset{slots[i]}
  {
  }

  lemma SmallerHolds(a: multiset<int>, b: multiset<int>, x: int)
    requires a <= b && x !in a && x in b
    ensures |a| < |b| && a <= b - multiset{x} && |b - multiset{x}| == |b| - 1
  {
    assert b == a + (b - a) && x in b - a;
  }

  lemma FreedSlot(slots: seq<int>, i: int, spilled: int, holds: multiset<int>)
    requires Refines(slots, spilled, holds) && 0 <= i < |slots| && slots[i] != 0
    ensures slots[i] in holds && Refines(slots[i := 0], spilled, holds - multiset{slots[i]})
    ensures Recorded(slots[i := 0]) == Recorded(slots) - multiset{slots[i]}
  {
    StoreRecorded(slots, i, 0);
  }

  lemma FreedSpill(slots: seq<int>, spilled: nat, holds: multiset<int>, mutex: int)
    requires Refines(slots, spilled, holds) && mutex !in slots
    ensures Refines(slots, if spilled > 0 then spilled - 1 else 0, holds - multiset{mutex}) <==>
              mutex in holds || spilled == 0
  {
    assert mutex !in Recorded(slots);
    if mutex in holds {
      SmallerHolds(Recorded(slots), holds, mutex);
    } else {
      assert holds - multiset{mutex} == holds;
    }
  }

  class Held {
    const slots: array<int>
    var spilled: nat
    ghost var holds: multiset<int>

    ghost predicate Valid()
      reads this, slots
    {
      slots.Length == HELD_SLOTS && 0 !in holds && Refines(slots[..], spilled, holds)
    }

    constructor ()
      ensures Valid() && holds == multiset{} && fresh(slots)
    {
      slots := new int[HELD_SLOTS](_ => 0);
      spilled, holds := 0, multiset{};
      new;
      assert forall x :: x in slots[..] ==> x == 0;
    }

    /** The first slot that holds `value`. */
    method Find(value: int) returns (found: Option<int>)
      ensures found.Some? ==> 0 <= found.value < slots.Length && slots[found.value] == value
      ensures found.None? ==> value !in slots[..]
    {
      var i := 0;
      while i < slots.Length
        invariant 0 <= i <= slots.Length && value !in slots[..i]
      {
        if slots[i] == value {
          return Some(i);
        }
        i := i + 1;
      }
      assert slots[..] == slots[..i];
      found := None;
    }

    /** The thread took `mutex`, perhaps again. */
    method Take(mutex: int)
      requires Valid() && mutex != 0
      modifies this, slots
      ensures Valid() && holds == old(holds) + multiset{mutex}
      ensures if 0 in old(slots[..])
              then spilled == old(spilled) && Recorded(slots[..]) == old(Recorded(slots[..])) + multiset{mutex}
              else spilled == old(spilled) + 1 && slots[..] == old(slots[..])
    {
      var free := Find(0);
      match free {
        case Some(i) =>
          StoreRecorded(slots[..], i, mutex);
          ghost var before := slots[..];
          slots[i] := mutex;
          assert slots[..] == before[i := mutex];
        case None =>
          spilled := spilled + 1;
      }
      holds := holds + multiset{mutex};
    }

    /** The thread let go of `mutex`. Letting go of one taken unseen leaves the record right just when
        nothing is spilled. */
    method Free(mutex: int)
      requires Valid() && mutex != 0
      modifies this, slots
      ensures holds == old(holds) - multiset{mutex}
      ensures Valid() <==> mutex in old(holds) || old(spilled) == 0
      ensures if mutex in old(slots[..])
              then spilled == old(spilled) && Recorded(slots[..]) == old(Recorded(slots[..])) - multiset{mutex}
              else spilled == (if old(spilled) > 0 then old(spilled) - 1 else 0) && slots[..] == old(slots[..])
    {
      var used := Find(mutex);
      ghost var before, left := slots[..], holds - multiset{mutex};
      match used {
        case Some(i) =>
          FreedSlot(before, i, spilled, holds);
          slots[i] := 0;
          assert slots[..] == before[i := 0];
        case None =>
          FreedSpill(before, spilled, holds, mutex);
          if spilled > 0 {
            spilled := spilled - 1;
          }
          assert slots[..] == before;
      }
      assert 0 !in left;
      holds := left;
    }

    /** Whether the thread is seen holding `mutex`. */
    method Holds(mutex: int) returns (holding: bool)
      requires Valid() && mutex != 0
      ensures holding <==> mutex in Recorded(slots[..])
      ensures holding ==> mutex in holds
      ensures !holding && spilled == 0 ==> mutex !in holds
    {
      var used := Find(mutex);
      holding := used.Some?;
      if mutex !in Recorded(slots[..]) && mutex in holds {
        SmallerHolds(Recorded(slots[..]), holds, mutex);
      }
    }
  }

  datatype Owner = Free | Unknown | Outside | Thread(lineage: int)

  /** Who holds the mutex, as the threads' records show. */
  method HolderOf(held: map<int, Held>, mutex: int) returns (owner: Owner)
    requires mutex != 0 && forall l :: l in held ==> held[l].Valid()
    ensures owner.Thread? ==> owner.lineage in held && Shown(held[owner.lineage], mutex)
    ensures owner.Thread? ==> mutex in held[owner.lineage].holds
    ensures !owner.Thread? ==> forall l :: l in held ==> !Shown(held[l], mutex)
    ensures owner.Outside? ==> forall l :: l in held ==> mutex !in held[l].holds
    ensures owner.Unknown? ==> exists l :: l in held && held[l].spilled > 0
    ensures !owner.Free?
  {
    var spilled := false;
    ghost var spiller := 0;
    var todo := held.Keys;
    while todo != {}
      invariant todo <= held.Keys
      invariant forall l :: l in held && l !in todo ==> !Shown(held[l], mutex)
      invariant spilled ==> spiller in held && held[spiller].spilled > 0
      invariant !spilled ==> forall l :: l in held && l !in todo ==> mutex !in held[l].holds
      decreases |todo|
    {
      var l := AnyOf(todo);
      var holding := held[l].Holds(mutex);
      if holding {
        return Thread(l);
      }
      if held[l].spilled > 0 {
        spilled, spiller := true, l;
      }
      todo := todo - {l};
    }
    owner := if spilled then Unknown else Outside;
  }

  ghost predicate Shown(held: Held, mutex: int)
    reads held, held.slots
  {
    mutex in Recorded(held.slots[..])
  }

  lemma RecordedBound(slots: seq<int>)
    ensures |Recorded(slots)| <= |slots|
  {
    assert Recorded(slots) <= multiset(slots);
    assert multiset(slots) == Recorded(slots) + (multiset(slots) - Recorded(slots));
  }

  /** Nine holds spill one, and then letting go of a mutex taken unseen leaves the record wrong. */
  method UnseenFree(unseen: int) returns (held: Held)
    requires unseen > 9
    ensures !held.Valid() && unseen !in held.holds && |held.holds| == 9
  {
    held := new Held();
    var mutex := 0;
    while mutex < 9
      invariant 0 <= mutex <= 9 && fresh(held) && fresh(held.slots) && held.Valid()
      invariant |held.holds| == mutex && forall m :: m in held.holds ==> 0 < m <= mutex
    {
      mutex := mutex + 1;
      held.Take(mutex);
    }
    RecordedBound(held.slots[..]);
    assert held.holds - multiset{unseen} == held.holds;
    held.Free(unseen);
  }
}
