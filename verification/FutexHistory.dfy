/**
 The simple machine the futex accounting stands for: it forgets nothing, and answers whether a thread
 returned by a wake by asking whether everything that ever happened on the word can explain it.
 */
module FutexHistory {
  import opened Options
  import opened WakeMatching
  import M = Matchings

  datatype ThreadClass = Participant | Background | Helper | Driver

  /** What a row's thread is blocked in; `token` is the generation the wait began at. */
  datatype RowWait = RowWait(key: Option<int>, mask: Mask, token: nat, expected: Option<int>, scope: Option<bool>,
                             preReleased: bool, claimed: bool)

  datatype Row = Row(kind: ThreadClass, wait: Option<RowWait>)

  type Rows = map<int, Row>

  predicate OnWord(row: Row, key: int) {
    row.kind.Participant? && row.wait.Some? && row.wait.value.key == Some(key)
  }

  /** Parked on the word and not yet credited. */
  predicate IsLive(row: Row, key: int) {
    OnWord(row, key) && !row.wait.value.claimed
  }

  /** The wait as wake attribution sees it. */
  function Receipt(w: RowWait, retired: nat): Wait {
    Wait(w.token, retired, w.mask, w.scope)
  }

  /** A wake made now on the word would reach this row. */
  predicate Heard(row: Row, key: int, mask: Mask, scope: Option<bool>) {
    IsLive(row, key) && !(mask !! row.wait.value.mask) && (scope.None? || row.wait.value.scope == scope)
  }

  function Hearers(rows: Rows, key: int, mask: Mask, scope: Option<bool>): set<int> {
    set l | l in rows && Heard(rows[l], key, mask, scope)
  }

  /** Released already: its word moved, or it was credited a wake. */
  predicate Flagged(row: Row) {
    row.wait.Some? && (row.wait.value.preReleased || row.wait.value.claimed)
  }

  /** A futex wait that a wake reaching nobody ended, because the word no longer holds what it expects. */
  predicate Overtaken(row: Row, key: int, mask: Mask, private: bool, word: int) {
    && OnWord(row, key) && !(mask !! row.wait.value.mask) && row.wait.value.scope == Some(private)
    && row.wait.value.expected.Some? && row.wait.value.expected.value != word
  }

  function MarkPreReleased(row: Row): Row {
    if row.wait.Some? then row.(wait := Some(row.wait.value.(preReleased := true))) else row
  }

  function Unmarked(row: Row): Row {
    if row.wait.Some? then row.(wait := Some(row.wait.value.(preReleased := false, claimed := false))) else row
  }

  /** Every row in `among` that was overtaken, marked. */
  function MarkOvertaken(rows: Rows, among: set<int>, key: int, mask: Mask, private: bool, word: int): Rows {
    map l | l in rows ::
      if l in among && Overtaken(rows[l], key, mask, private, word) then MarkPreReleased(rows[l]) else rows[l]
  }

  datatype History = History(rows: Rows, generation: nat, wakes: map<int, seq<Wake>>, credited: map<int, set<Wait>>) {
    /** Every wake ever made on the word, once for each waiter the kernel says it reached. */
    ghost function WakesOn(key: int): seq<Wake> {
      if key in wakes then wakes[key] else []
    }

    /** Every wait ever credited to a wake on the word. */
    ghost function CreditedOn(key: int): set<Wait> {
      if key in credited then credited[key] else {}
    }

    /** All the wakes can explain all the credited waits and this one too. */
    ghost predicate Explains(key: int, w: Wait) {
      Matchable(WakesOn(key), CreditedOn(key) + {w})
    }

    /** The wakes on a parked wait's word can explain its return. */
    ghost predicate CanClaim(l: int) {
      && l in rows && rows[l].kind.Participant? && rows[l].wait.Some? && rows[l].wait.value.key.Some?
      && Explains(rows[l].wait.value.key.value, Receipt(rows[l].wait.value, U64_MAX))
    }

    /** The thread's native wait may return: it is on a word, which has moved, or it was credited, or a wake
        can explain it. One that has left its word for the gate has been taken, and is not released. */
    ghost predicate Released(l: int) {
      && l in rows && rows[l].kind.Participant? && rows[l].wait.Some? && rows[l].wait.value.key.Some?
      && (Flagged(rows[l]) || CanClaim(l))
    }

    /** Some participant's wait was flagged released, on its word or off it, or may return. */
    ghost predicate Pending() {
      exists l :: IsFlagged(l) || Released(l)
    }

    ghost predicate IsFlagged(l: int) {
      l in rows && rows[l].kind.Participant? && Flagged(rows[l])
    }

    /** A wake the kernel says reached `n` waiters: a new generation if it can have reached one seen. */
    ghost function Signal(key: int, n: nat, mask: Mask, scope: Option<bool>): History {
      var now := if n > 0 && Hearers(rows, key, mask, scope) != {} then generation + 1 else generation;
      this.(generation := now, wakes := wakes[key := WakesOn(key) + M.Copies(Wake(mask, scope, now), n)])
    }

    /** A wake that reached nobody ends the waits its word has moved past. */
    ghost function SignalFutex(key: int, count: int, mask: Mask, private: bool, word: Option<int>): History {
      if count > 0 then Signal(key, count, mask, Some(private))
      else if count == 0 && word.Some?
      then this.(rows := MarkOvertaken(rows, rows.Keys, key, mask, private, word.value))
      else this
    }

    /** The thread's wait ended before it was enrolled, as the word had moved. */
    ghost function PreEnrollment(l: int): History {
      if l in rows && rows[l].kind.Participant? && rows[l].wait.Some? && rows[l].wait.value.expected.Some?
      then this.(rows := rows[l := MarkPreReleased(rows[l])]) else this
    }

    /** The thread begins a wait, under a generation of its own, or runs again. */
    ghost function Waits(l: int, wait: Option<RowWait>): History {
      var now := if wait.Some? then generation + 1 else generation;
      if l in rows then
        this.(generation := now, rows := rows[l := rows[l].(wait := Stamped(wait, now))])
      else
        this.(generation := now)
    }

    /** The thread left its word for the timestamp gate. */
    ghost function LeavesWord(l: int): History {
      if l in rows && rows[l].wait.Some? then
        this.(rows := rows[l := rows[l].(wait := Some(rows[l].wait.value.(key := None)))])
      else this
    }

    /** The thread is parked on a word, not released yet. */
    ghost predicate Asks(l: int) {
      && l in rows && rows[l].wait.Some? && rows[l].wait.value.key.Some?
      && !rows[l].wait.value.claimed && !rows[l].wait.value.preReleased
    }

    /** The wakes on the thread's word can explain its return now. */
    ghost predicate Explained(l: int)
      requires Asks(l)
    {
      Explains(rows[l].wait.value.key.value, Receipt(rows[l].wait.value, generation + 1))
    }

    /** Whether the thread's return is owed to a wake or a move of its word. */
    ghost predicate Owns(l: int) {
      l in rows && (Flagged(rows[l]) || (Asks(l) && Explained(l)))
    }

    /** The thread returns, credited if a wake explains it. */
    ghost function Claim(l: int): History {
      if !Asks(l) then this else if Explained(l) then Credit(l) else this.(generation := generation + 1)
    }

    ghost function Credit(l: int): History
      requires Asks(l)
    {
      var wait := rows[l].wait.value;
      History(rows[l := rows[l].(wait := Some(wait.(claimed := true)))], generation + 1, wakes,
              credited[wait.key.value := CreditedOn(wait.key.value) + {Receipt(wait, generation + 1)}])
    }

    /** An executive attaches or detaches: attribution starts afresh. */
    ghost function Clear(): History {
      History(map l | l in rows :: Unmarked(rows[l]), generation, map[], map[])
    }

    ghost function AddRow(l: int, kind: ThreadClass): History {
      this.(rows := rows[l := Row(kind, None)])
    }

    ghost function RemoveRow(l: int): History {
      this.(rows := rows - {l})
    }

    ghost function Reclass(l: int, kind: ThreadClass): History {
      if l in rows then this.(rows := rows[l := Row(kind, None)]) else this
    }
  }

  function Stamped(wait: Option<RowWait>, now: nat): Option<RowWait> {
    if wait.Some? then Some(wait.value.(token := now)) else None
  }
}
