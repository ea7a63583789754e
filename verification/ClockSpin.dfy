/**
 A participant that waits by polling the clock or by yielding, with every other participant waiting: how each
 of its reads and yields moves virtual time, how soon it gets past any deadline with timers in its way, and how
 far. Times are in nanoseconds.
 */
module ClockSpin {
  import opened Options

  const CALL_LATENCY := 1_000
  const SECOND := 1_000_000_000
  const SPIN_AFTER := 64
  const SPIN_EVEN_READS := 65_536
  const SPIN_STEP_DIVISOR := 64
  const U32_MAX := 0xffff_ffff

  /** A thread's clock reads and yields since its last other call. */
  datatype Spin = Spin(events: nat, clockReads: nat, yielded: bool, polling: bool, origin: Option<nat>)

  const IDLE := Spin(0, 0, false, false, None)

  function Saturating(n: nat): nat {
    if n < U32_MAX then n + 1 else n
  }

  /** One more read or yield. */
  function Noted(spin: Spin, read: bool): Spin {
    var clockReads := if read then Saturating(spin.clockReads) else spin.clockReads;
    Spin(Saturating(spin.events), clockReads, spin.yielded || !read, read, spin.origin)
  }

  /** The spin is counted from when it is caught. */
  function Counted(spin: Spin, now: nat): Spin {
    if spin.origin.None? then spin.(origin := Some(now)) else spin
  }

  /** How far one read of a caught spin means to move the clock; one that yields is past its even stretch. */
  function StepOf(spin: Spin, now: nat): nat {
    var clockReads := if spin.yielded then U32_MAX else spin.clockReads;
    if clockReads < SPIN_AFTER + SPIN_EVEN_READS then CALL_LATENCY
    else Grow(now - if spin.origin.Some? && spin.origin.value <= now then spin.origin.value else now)
  }

  /** A part of the time spun so far, between a call's latency and a second. */
  function Grow(spun: nat): nat {
    var part := spun / SPIN_STEP_DIVISOR;
    var floored := if part < CALL_LATENCY then CALL_LATENCY else part;
    if floored > SECOND then SECOND else floored
  }

  /** The earliest timer ahead. */
  function Earliest(timers: seq<nat>, now: nat): (r: Option<nat>)
    ensures r.Some? ==> r.value in timers && r.value > now
    ensures forall t :: t in timers && t > now ==> r.Some? && r.value <= t
  {
    if timers == [] then None
    else
      assert forall t :: t in timers ==> t == timers[0] || t in timers[1..];
      var rest := Earliest(timers[1..], now);
      if timers[0] > now && (rest.None? || timers[0] < rest.value) then Some(timers[0]) else rest
  }

  /** A step stops 1 ns short of a timer it would reach, and from there goes just past it. */
  function Landing(now: nat, step: nat, at: Option<nat>): nat {
    if at.None? || now + step < at.value then now + step
    else if now + 1 < at.value then at.value - 1
    else at.value + 1
  }

  /** A time skip goes just past the timer. */
  function Skip(now: nat, at: Option<nat>): nat {
    if at.Some? then at.value + 1 else now
  }

  /** The spin of one thread, the clock it polls and the timers of the others. */
  class Spinner {
    var spin: Spin
    var now: nat
    const timers: seq<nat>

    constructor (start: nat, timers: seq<nat>)
      ensures spin == IDLE && now == start && this.timers == timers
    {
      spin, now, this.timers := IDLE, start, timers;
    }

    /** Counts a read or a yield: whether the spin is caught, and whether this event polls the clock. */
    method NoteSpin(read: bool) returns (caught: bool, polling: bool)
      modifies this`spin
      ensures spin == Noted(old(spin), read)
      ensures caught <==> spin.events >= SPIN_AFTER
      ensures polling <==> read || old(spin).polling
    {
      polling := read || spin.polling;
      spin := Noted(spin, read);
      caught := spin.events >= SPIN_AFTER;
    }

    /** A read, which steps the clock once the spin is caught. */
    method ReadClock()
      modifies this
      ensures Spinning(spin, now) == Turn(Spinning(old(spin), old(now)), timers, true)
    {
      var caught, _ := NoteSpin(true);
      if caught {
        spin := Counted(spin, now);
        now := Landing(now, StepOf(spin, now), Earliest(timers, now));
      }
    }

    /** A yield, which moves no time after a read and else skips time once the spin is caught. */
    method YieldPoint()
      modifies this
      ensures Spinning(spin, now) == Turn(Spinning(old(spin), old(now)), timers, false)
    {
      var caught, polling := NoteSpin(false);
      if !polling && caught {
        spin := Counted(spin, now);
        now := Skip(now, Earliest(timers, now));
      }
    }
  }

  // ------------------------------------------------------------------------------------------
  // Runs
  // ------------------------------------------------------------------------------------------

  datatype Spinning = Spinning(spin: Spin, now: nat)

  /** One read or yield of the thread. */
  function Turn(s: Spinning, timers: seq<nat>, read: bool): Spinning {
    var noted := Noted(s.spin, read);
    if noted.events < SPIN_AFTER || (!read && s.spin.polling) then Spinning(noted, s.now)
    else
      var counted, at := Counted(noted, s.now), Earliest(timers, s.now);
      Spinning(counted, if read then Landing(s.now, StepOf(counted, s.now), at) else Skip(s.now, at))
  }

  /** Where the first `n` events get to. */
  function Run(start: nat, timers: seq<nat>, events: seq<bool>, n: nat): Spinning
    requires n <= |events|
  {
    if n == 0 then Spinning(IDLE, start) else Turn(Run(start, timers, events, n - 1), timers, events[n - 1])
  }

  /** The reads among the first `n` events. */
  function Reads(events: seq<bool>, n: nat): (r: nat)
    requires n <= |events|
    ensures r <= n
  {
    if n == 0 then 0 else Reads(events, n - 1) + if events[n - 1] then 1 else 0
  }

  /** The time the spin has moved by its first `n` events. */
  function Spun(start: nat, timers: seq<nat>, events: seq<bool>, n: nat): int
    requires n <= |events|
  {
    Run(start, timers, events, n).now - start
  }

  function Capped(n: nat): nat {
    if n < U32_MAX then n else U32_MAX
  }

  /** What `n` events, `r` of them reads and the last one a read or not, have made of the spin. */
  predicate SpinOf(s: Spinning, start: nat, n: nat, r: nat, last: bool) {
    && s.spin.events == Capped(n) && s.spin.clockReads == Capped(r) && s.spin.yielded == (r < n)
    && s.spin.polling == last && s.now >= start
    && (s.spin.origin == None || s.spin.origin == Some(start))
    && (s.spin.origin == None ==> s.now == start) && (n < SPIN_AFTER ==> s.now == start)
  }

  lemma {:induction false} Facts(start: nat, timers: seq<nat>, events: seq<bool>, n: nat)
    requires n <= |events|
    ensures SpinOf(Run(start, timers, events, n), start, n, Reads(events, n), n > 0 && events[n - 1])
    decreases n
  {
    if n > 0 {
      Facts(start, timers, events, n - 1);
      var s := Run(start, timers, events, n - 1);
      TurnFacts(s, timers, start, n - 1, Reads(events, n - 1), n > 1 && events[n - 2], events[n - 1]);
    }
  }

  lemma TurnFacts(s: Spinning, timers: seq<nat>, start: nat, n: nat, r: nat, last: bool, read: bool)
    requires r <= n && SpinOf(s, start, n, r, last)
    ensures SpinOf(Turn(s, timers, read), start, n + 1, if read then r + 1 else r, read)
  {
  }

  /** What each event moves: nothing before the 64th, nor a yield after a read. A read means to move 1 us, as long
      as the spin has not yielded and has made fewer than 65,600 reads, and from then a 64th of the time spun,
      between 1 us and 1 s; it stops 1 ns short of a timer in the way of that, or just past it when already
      there. Any other yield goes just past the next timer. */
  lemma Moves(start: nat, timers: seq<nat>, events: seq<bool>, n: nat)
    requires n < |events|
    ensures var now, next := Run(start, timers, events, n).now, Run(start, timers, events, n + 1).now;
            var part, at := (now - start) / 64, Earliest(timers, now);
            var meant := if Reads(events, n + 1) == n + 1 < 65_600 || part < 1_000 then 1_000
                         else if part > 1_000_000_000 then 1_000_000_000
                         else part;
            if n + 1 < 64 || (!events[n] && n > 0 && events[n - 1]) then next == now
            else if !events[n] then next == if at.Some? then at.value + 1 else now
            else if at.None? || now + meant < at.value then next == now + meant
            else if now < at.value - 1 then next == at.value - 1
            else next == at.value + 1
  {
    Facts(start, timers, events, n);
  }

  // ------------------------------------------------------------------------------------------
  // How soon
  // ------------------------------------------------------------------------------------------

  /** The time `m` steps make that no timer cuts short, the first `even` of them 1 us long. */
  function Clear(even: nat, m: nat): nat {
    if m == 0 then 0 else Clear(even, m - 1) + ClearStep(even, m - 1, Clear(even, m - 1))
  }

  function ClearStep(even: nat, m: nat, spun: nat): nat {
    if m < even then CALL_LATENCY else Grow(spun)
  }

  lemma {:induction false} ClearGrows(even: nat, m: nat, k: nat)
    requires m <= k
    ensures Clear(even, k) >= Clear(even, m) + (k - m) * CALL_LATENCY
    decreases k
  {
    if m < k {
      ClearGrows(even, m, k - 1);
    }
  }

  /** The timers passed. */
  function Passed(timers: seq<nat>, start: nat, now: nat): set<nat> {
    set t | t in timers && start < t <= now
  }

  /** The most steps that timers have cut short: two for each one passed, and one for one just ahead. */
  function Cut(timers: seq<nat>, start: nat, now: nat): nat {
    2 * |Passed(timers, start, now)| + if now + 1 in timers then 1 else 0
  }

  lemma PassedSize(a: set<nat>, b: set<nat>, t: nat)
    requires a <= b
    ensures |a| <= |b|
    ensures t in b && t !in a ==> |a| < |b|
  {
    assert b == a + (b - a);
    if t in b && t !in a {
      assert t in b - a;
    }
  }

  lemma CutGrows(timers: seq<nat>, start: nat, now: nat, next: nat)
    requires start <= now <= next
    ensures Cut(timers, start, now) <= Cut(timers, start, next)
    ensures now + 1 in timers && now < next ==> Cut(timers, start, now) < Cut(timers, start, next)
  {
    PassedSize(Passed(timers, start, now), Passed(timers, start, next), now + 1);
    assert now + 1 in timers && now < next ==> now + 1 in Passed(timers, start, next);
    assert now + 1 !in Passed(timers, start, now);
  }

  /** A step that a timer cuts short is one more. */
  lemma CutShort(timers: seq<nat>, start: nat, now: nat, step: nat)
    requires start <= now && step >= CALL_LATENCY
    ensures var next := Landing(now, step, Earliest(timers, now));
            next == now + step || Cut(timers, start, next) > Cut(timers, start, now)
  {
    var at := Earliest(timers, now);
    if at.Some? && now + step >= at.value {
      if now + 1 < at.value {
        assert Passed(timers, start, at.value - 1) == Passed(timers, start, now);
      } else {
        CutGrows(timers, start, now, at.value + 1);
      }
    }
  }

  /** The steps that cannot have been cut short, of `r` reads. */
  function Whole(timers: seq<nat>, start: nat, now: nat, r: nat): nat {
    var cut := Cut(timers, start, now) + SPIN_AFTER - 1;
    if r > cut then r - cut else 0
  }

  /** A yield among the events that catch the spin. */
  predicate YieldsEarly(events: seq<bool>) {
    |events| >= SPIN_AFTER && Reads(events, SPIN_AFTER) < SPIN_AFTER
  }

  /** The reads of a spin that move the clock evenly: none if it yields early on. */
  function Even(events: seq<bool>): nat {
    if YieldsEarly(events) then 0 else SPIN_EVEN_READS
  }

  lemma {:induction false} YieldsStay(events: seq<bool>, m: nat, n: nat)
    requires m <= n <= |events|
    ensures n - Reads(events, n) >= m - Reads(events, m)
    decreases n
  {
    if m < n {
      YieldsStay(events, m, n - 1);
    }
  }

  /** Not behind a spin that no timer cuts short, once the steps so cut are taken off. */
  predicate AheadOf(timers: seq<nat>, start: nat, even: nat, now: nat, r: nat) {
    start <= now && Clear(even, Whole(timers, start, now, r)) <= now - start
  }

  lemma {:induction false} Ahead(start: nat, timers: seq<nat>, events: seq<bool>, n: nat)
    requires n <= |events|
    ensures AheadOf(timers, start, Even(events), Run(start, timers, events, n).now, Reads(events, n))
    decreases n
  {
    if n > 0 {
      var s, r := Run(start, timers, events, n - 1), Reads(events, n - 1);
      Ahead(start, timers, events, n - 1);
      Facts(start, timers, events, n - 1);
      if SPIN_AFTER <= n && events[n - 1] {
        EvenFits(events, n);
      }
      NextAhead(s, timers, start, Even(events), n - 1, r, n > 1 && events[n - 2], events[n - 1]);
    }
  }

  lemma EvenFits(events: seq<bool>, n: nat)
    requires SPIN_AFTER <= n <= |events| && events[n - 1]
    ensures Even(events) == SPIN_EVEN_READS || (Even(events) == 0 && Reads(events, n - 1) < n - 1)
  {
    YieldsStay(events, SPIN_AFTER, n);
  }

  lemma NextAhead(s: Spinning, timers: seq<nat>, start: nat, even: nat, n: nat, r: nat, last: bool, read: bool)
    requires r <= n && SpinOf(s, start, n, r, last) && AheadOf(timers, start, even, s.now, r)
    requires read && SPIN_AFTER <= n + 1 ==> even == SPIN_EVEN_READS || (even == 0 && r < n)
    ensures AheadOf(timers, start, even, Turn(s, timers, read).now, if read then r + 1 else r)
  {
    if read && SPIN_AFTER <= n + 1 {
      ReadAhead(s, timers, start, even, n, r, last);
    } else {
      YieldAhead(timers, start, s.now, Turn(s, timers, read).now, even, r, if read then r + 1 else r);
    }
  }

  lemma YieldAhead(timers: seq<nat>, start: nat, now: nat, next: nat, even: nat, r: nat, r': nat)
    requires now <= next && AheadOf(timers, start, even, now, r) && (r' == r || r' < SPIN_AFTER)
    ensures AheadOf(timers, start, even, next, r')
  {
    CutGrows(timers, start, now, next);
    if r' == r {
      ClearGrows(even, Whole(timers, start, next, r), Whole(timers, start, now, r));
    }
  }

  lemma ReadAhead(s: Spinning, timers: seq<nat>, start: nat, even: nat, n: nat, r: nat, last: bool)
    requires SPIN_AFTER <= n + 1 && r <= n && SpinOf(s, start, n, r, last)
    requires even == SPIN_EVEN_READS || (even == 0 && r < n)
    requires AheadOf(timers, start, even, s.now, r)
    ensures AheadOf(timers, start, even, Turn(s, timers, true).now, r + 1)
  {
    var counted := Counted(Noted(s.spin, true), s.now);
    var step, next := StepOf(counted, s.now), Turn(s, timers, true).now;
    CutShort(timers, start, s.now, step);
    CutGrows(timers, start, s.now, next);
    var w, w' := Whole(timers, start, s.now, r), Whole(timers, start, next, r + 1);
    if next == s.now + step {
      StepAhead(s, start, even, n, r, last, w);
      assert w' <= w + 1;
      ClearGrows(even, w', w + 1);
    } else {
      assert w' <= w;
      ClearGrows(even, w', w);
    }
  }

  /** The step meant is at least the one that no timer would have cut short. */
  lemma StepAhead(s: Spinning, start: nat, even: nat, n: nat, r: nat, last: bool, w: nat)
    requires SPIN_AFTER <= n + 1 && r <= n && SpinOf(s, start, n, r, last)
    requires even == SPIN_EVEN_READS || (even == 0 && r < n)
    requires Clear(even, w) <= s.now - start && (w == 0 || w + SPIN_AFTER - 1 <= r)
    ensures ClearStep(even, w, Clear(even, w)) <= StepOf(Counted(Noted(s.spin, true), s.now), s.now)
  {
    GrowsWith(Clear(even, w), s.now - start);
  }

  lemma GrowsWith(a: nat, b: nat)
    requires a <= b
    ensures Grow(a) <= Grow(b)
  {
  }

  /** From here on every step is a second. */
  const CAPPED := SECOND * SPIN_STEP_DIVISOR

  /** Steps only grow, so `k` of them make at least `k` times the first. */
  lemma {:induction false} Steps(even: nat, m: nat, k: nat)
    requires even <= m
    ensures Clear(even, m + k) >= Clear(even, m) + k * Grow(Clear(even, m))
    decreases k
  {
    if k > 0 {
      Steps(even, m, k - 1);
      ClearGrows(even, m, m + k - 1);
      GrowsWith(Clear(even, m), Clear(even, m + k - 1));
      Product(k, Grow(Clear(even, m)));
    }
  }

  lemma Product(k: nat, g: nat)
    requires k > 0
    ensures k * g == (k - 1) * g + g
  {
  }

  /** 65 steps double the time spun, until steps are a second long. */
  lemma Doubles(even: nat, m: nat)
    requires even <= m && 4_095 <= Clear(even, m) <= CAPPED
    ensures Clear(even, m + 65) >= 2 * Clear(even, m)
  {
    Steps(even, m, 65);
  }

  /** How often `from` must double to get to `to`. */
  function Doublings(from: nat, to: nat): nat
    requires from > 0
    decreases if from < to then to - from else 0
  {
    if from >= to then 0 else 1 + Doublings(2 * from, to)
  }

  lemma {:induction false} DoublesUp(even: nat, m: nat, from: nat, to: nat)
    requires even <= m && 4_095 <= from <= Clear(even, m) && to <= CAPPED
    ensures Clear(even, m + 65 * Doublings(from, to)) >= to
    decreases if from < to then to - from else 0
  {
    if from < to {
      assert 65 * Doublings(from, to) == 65 + 65 * Doublings(2 * from, to);
      if Clear(even, m) <= CAPPED {
        Doubles(even, m);
      } else {
        Steps(even, m, 65);
      }
      DoublesUp(even, m + 65, 2 * from, to);
    }
  }

  /** How many steps that no timer cuts short get to a deadline: the even ones, 65 for every doubling until
      steps are a second long, and one for every second from there. */
  function StepsTo(even: nat, deadline: nat): nat {
    var level := if even < 64 then 64 else even;
    level
    + 65 * Doublings(level * CALL_LATENCY, if deadline < CAPPED then deadline else CAPPED)
    + if deadline < CAPPED then 0 else (deadline - CAPPED) / SECOND + 1
  }

  lemma ClearReaches(even: nat, deadline: nat)
    ensures Clear(even, StepsTo(even, deadline)) >= deadline
  {
    var level, to := if even < 64 then 64 else even, if deadline < CAPPED then deadline else CAPPED;
    ClearGrows(even, 0, level);
    DoublesUp(even, level, level * CALL_LATENCY, to);
    if deadline >= CAPPED {
      ClearPast(even, level + 65 * Doublings(level * CALL_LATENCY, to), deadline - CAPPED);
    }
  }

  lemma ClearPast(even: nat, m: nat, left: nat)
    requires even <= m && Clear(even, m) >= CAPPED
    ensures Clear(even, m + (left / SECOND + 1)) >= CAPPED + left
  {
    assert Grow(Clear(even, m)) == SECOND;
    Steps(even, m, left / SECOND + 1);
    Seconds(left);
  }

  lemma Seconds(left: nat)
    ensures (left / SECOND + 1) * SECOND >= left
  {
  }

  /** How many reads get a spin to a deadline: those before it is caught, those of a spin with no timer in its
      way, and two for every timer on the way. */
  function ReadsTo(start: nat, timers: seq<nat>, even: nat, deadline: nat): nat {
    SPIN_AFTER - 1 + StepsTo(even, deadline) + 2 * |Passed(timers, start, start + deadline)|
  }

  lemma CutBound(timers: seq<nat>, start: nat, now: nat, end: nat)
    requires start <= now < end
    ensures Cut(timers, start, now) <= 2 * |Passed(timers, start, end)|
  {
    PassedSize(Passed(timers, start, now), Passed(timers, start, end), now + 1);
    assert now + 1 in timers ==> now + 1 in Passed(timers, start, end);
    assert now + 1 !in Passed(timers, start, now);
  }

  /** Enough reads get a spin to any deadline, whatever it yields between them and whatever timers there are. */
  lemma Reaches(start: nat, timers: seq<nat>, events: seq<bool>, n: nat, deadline: nat)
    requires n <= |events| && Reads(events, n) >= ReadsTo(start, timers, Even(events), deadline)
    ensures Spun(start, timers, events, n) >= deadline
  {
    var now, even := Run(start, timers, events, n).now, Even(events);
    Ahead(start, timers, events, n);
    if now - start < deadline {
      CutBound(timers, start, now, start + deadline);
      ClearReaches(even, deadline);
      ClearGrows(even, StepsTo(even, deadline), Whole(timers, start, now, Reads(events, n)));
      assert false;
    }
  }

  /** With no timer in its way, a spin that yields early on or not at all makes just those steps. */
  lemma {:induction false} Exactly(start: nat, events: seq<bool>, n: nat)
    requires SPIN_AFTER - 1 <= n <= |events| && (YieldsEarly(events) || Reads(events, n) == n)
    ensures Reads(events, n) >= Reads(events, SPIN_AFTER - 1)
    ensures Spun(start, [], events, n) == Clear(Even(events), Reads(events, n) - Reads(events, SPIN_AFTER - 1))
    decreases n
  {
    if n < SPIN_AFTER {
      Facts(start, [], events, n);
    } else {
      Exactly(start, events, n - 1);
      NextExactly(start, events, n - 1, Reads(events, n - 1) - Reads(events, SPIN_AFTER - 1));
    }
  }

  lemma NextExactly(start: nat, events: seq<bool>, n: nat, m: nat)
    requires SPIN_AFTER <= n + 1 <= |events| && (YieldsEarly(events) || Reads(events, n + 1) == n + 1)
    requires m == Reads(events, n) - Reads(events, SPIN_AFTER - 1)
    requires Spun(start, [], events, n) == Clear(Even(events), m)
    ensures Spun(start, [], events, n + 1) == Clear(Even(events), if events[n] then m + 1 else m)
  {
    Facts(start, [], events, n);
    if events[n] {
      Alike(events, n + 1);
      StepsAlike(Run(start, [], events, n), start, Even(events), n, Reads(events, n), n > 0 && events[n - 1], m);
    }
  }

  lemma Alike(events: seq<bool>, n: nat)
    requires SPIN_AFTER <= n <= |events| && events[n - 1] && (YieldsEarly(events) || Reads(events, n) == n)
    ensures var even, r := Even(events), Reads(events, n - 1);
            (even == 0 && r < n - 1)
            || (even == SPIN_EVEN_READS && r == n - 1 && Reads(events, SPIN_AFTER - 1) == SPIN_AFTER - 1)
  {
    EvenFits(events, n);
    YieldsStay(events, SPIN_AFTER, n);
    YieldsStay(events, SPIN_AFTER - 1, n);
  }

  lemma StepsAlike(s: Spinning, start: nat, even: nat, n: nat, r: nat, last: bool, m: nat)
    requires SPIN_AFTER <= n + 1 && r <= n && SpinOf(s, start, n, r, last)
    requires (even == 0 && r < n) || (even == SPIN_EVEN_READS && r == n && m == n - (SPIN_AFTER - 1))
    requires s.now - start == Clear(even, m)
    ensures Turn(s, [], true).now - start == Clear(even, m + 1)
  {
    MeansAlike(s, start, even, n, r, last, m);
  }

  lemma MeansAlike(s: Spinning, start: nat, even: nat, n: nat, r: nat, last: bool, m: nat)
    requires SPIN_AFTER <= n + 1 && r <= n && SpinOf(s, start, n, r, last)
    requires (even == 0 && r < n) || (even == SPIN_EVEN_READS && r == n && m == n - (SPIN_AFTER - 1))
    ensures StepOf(Counted(Noted(s.spin, true), s.now), s.now) == ClearStep(even, m, s.now - start)
  {
  }

  /** Reads alone, with no timer in the way: each of the first 65,536 from the 64th on moves just 1 us. */
  lemma EvenStretch(start: nat, events: seq<bool>, n: nat)
    requires 63 <= n <= 65_599 && n <= |events| && Reads(events, n) == n
    ensures Spun(start, [], events, n) == (n - 63) * 1_000
  {
    YieldsStay(events, SPIN_AFTER - 1, n);
    if n >= SPIN_AFTER {
      YieldsStay(events, SPIN_AFTER, n);
      ClearEven(n - 63);
    }
    Exactly(start, events, n);
  }

  lemma {:induction false} ClearEven(m: nat)
    requires m <= SPIN_EVEN_READS
    ensures Clear(SPIN_EVEN_READS, m) == m * CALL_LATENCY
  {
    if m > 0 {
      ClearEven(m - 1);
    }
  }

  /** An hour off, with no timer in the way, takes about 4,000 reads past the even stretch. */
  lemma AnHour()
    ensures ReadsTo(0, [], SPIN_EVEN_READS, 3_600 * SECOND) == SPIN_AFTER - 1 + SPIN_EVEN_READS + 4_187
  {
    var e := SPIN_EVEN_READS * CALL_LATENCY;
    assert Doublings(512 * e, CAPPED) == 1 + Doublings(1_024 * e, CAPPED) == 1;
    assert Doublings(128 * e, CAPPED) == 1 + Doublings(256 * e, CAPPED) == 3;
    assert Doublings(32 * e, CAPPED) == 1 + Doublings(64 * e, CAPPED) == 5;
    assert Doublings(8 * e, CAPPED) == 1 + Doublings(16 * e, CAPPED) == 7;
    assert Doublings(2 * e, CAPPED) == 1 + Doublings(4 * e, CAPPED) == 9;
    assert Passed([], 0, 3_600 * SECOND) == {};
  }

  // ------------------------------------------------------------------------------------------
  // How far
  // ------------------------------------------------------------------------------------------

  /** The furthest a read gets past a deadline: 1 us, or a 64th of the way there. */
  function Slack(deadline: nat): nat {
    if deadline / SPIN_STEP_DIVISOR > CALL_LATENCY then deadline / SPIN_STEP_DIVISOR else CALL_LATENCY
  }

  /** The event that gets to the deadline. */
  predicate Crosses(start: nat, timers: seq<nat>, events: seq<bool>, n: nat, deadline: nat) {
    n < |events| && Spun(start, timers, events, n) < deadline <= Spun(start, timers, events, n + 1)
  }

  /** A read gets there with hardly any time over; a yield gets just past the next timer. */
  lemma Overshoot(start: nat, timers: seq<nat>, events: seq<bool>, n: nat, deadline: nat)
    requires Crosses(start, timers, events, n, deadline)
    ensures events[n] ==> Spun(start, timers, events, n + 1) < deadline + Slack(deadline)
    ensures !events[n] ==>
              var at := Earliest(timers, Run(start, timers, events, n).now);
              at.Some? && Spun(start, timers, events, n + 1) == at.value + 1 - start
  {
    Facts(start, timers, events, n);
  }

  /** Where time skips alone stop before `end`. */
  function LastStop(timers: seq<nat>, end: nat, from: nat): nat
    decreases end - from
  {
    var at := Earliest(timers, from);
    if at.Some? && at.value + 1 < end then LastStop(timers, end, at.value + 1) else from
  }

  /** The next skip from there ends far past the deadline. */
  predicate LateTimer(start: nat, timers: seq<nat>, deadline: nat) {
    var at := Earliest(timers, LastStop(timers, start + deadline, start));
    at.Some? && at.value + 1 - start >= deadline + Slack(deadline)
  }

  /** However the thread reads and yields, it gets past the deadline with hardly any time over. */
  ghost predicate NeverLate(start: nat, timers: seq<nat>, deadline: nat) {
    forall events, n: nat :: Crosses(start, timers, events, n, deadline) ==>
      Spun(start, timers, events, n + 1) < deadline + Slack(deadline)
  }

  /** A stop of time skips alone. */
  predicate IsStop(timers: seq<nat>, start: nat, c: nat) {
    start <= c && LastStop(timers, c + 1, start) == c
  }

  lemma {:induction false} NextStop(timers: seq<nat>, from: nat, c: nat)
    requires from <= c && LastStop(timers, c + 1, from) == c && Earliest(timers, c).Some?
    ensures var d := Earliest(timers, c).value + 1; LastStop(timers, d + 1, from) == d
    decreases c - from
  {
    var at := Earliest(timers, from);
    if from < c {
      NextStop(timers, at.value + 1, c);
    }
  }

  lemma {:induction false} StopsAt(timers: seq<nat>, from: nat, c: nat, end: nat)
    requires from <= c < end && LastStop(timers, c + 1, from) == c
    requires Earliest(timers, c).Some? ==> Earliest(timers, c).value + 1 >= end
    ensures LastStop(timers, end, from) == c
    decreases c - from
  {
    var at := Earliest(timers, from);
    if from < c {
      StopsAt(timers, at.value + 1, c, end);
    }
  }

  /** At any time the next timer is the one ahead of a stop. */
  predicate BehindIt(timers: seq<nat>, start: nat, now: nat, c: nat) {
    IsStop(timers, start, c) && c <= now && Earliest(timers, now) == Earliest(timers, c)
  }

  lemma {:induction false} StopBehind(start: nat, timers: seq<nat>, events: seq<bool>, n: nat) returns (c: nat)
    requires n <= |events|
    ensures BehindIt(timers, start, Run(start, timers, events, n).now, c)
  {
    if n == 0 {
      c := start;
    } else {
      c := StopBehind(start, timers, events, n - 1);
      Facts(start, timers, events, n - 1);
      var s := Run(start, timers, events, n - 1);
      c := NextBehind(s.now, timers, start, Turn(s, timers, events[n - 1]).now, c);
    }
  }

  lemma NextBehind(now: nat, timers: seq<nat>, start: nat, next: nat, c: nat) returns (d: nat)
    requires BehindIt(timers, start, now, c) && now <= next
    requires Earliest(timers, now).Some? ==>
               next < Earliest(timers, now).value || next == Earliest(timers, now).value + 1
    ensures BehindIt(timers, start, next, d)
  {
    var at := Earliest(timers, now);
    d := c;
    if at.Some? && next > at.value {
      NextStop(timers, start, c);
      d := next;
    } else {
      assert Earliest(timers, next) == at;
    }
  }

  /** Where the first `k` time skips stop. */
  function Skips(timers: seq<nat>, start: nat, k: nat): nat {
    if k == 0 then start else Skip(Skips(timers, start, k - 1), Earliest(timers, Skips(timers, start, k - 1)))
  }

  lemma {:induction false} SkipsTo(timers: seq<nat>, start: nat, end: nat, k: nat) returns (m: nat)
    ensures Skips(timers, start, m) == LastStop(timers, end, Skips(timers, start, k))
    decreases end - Skips(timers, start, k)
  {
    var now := Skips(timers, start, k);
    var at := Earliest(timers, now);
    m := k;
    if at.Some? && at.value + 1 < end {
      m := SkipsTo(timers, start, end, k + 1);
    }
  }

  /** Yields skip time from the 64th on. */
  lemma {:induction false} YieldsSkip(start: nat, timers: seq<nat>, events: seq<bool>, k: nat)
    requires SPIN_AFTER - 1 + k <= |events| && forall i :: 0 <= i < |events| ==> !events[i]
    ensures Run(start, timers, events, SPIN_AFTER - 1 + k).now == Skips(timers, start, k)
  {
    if k == 0 {
      Facts(start, timers, events, SPIN_AFTER - 1);
    } else {
      YieldsSkip(start, timers, events, k - 1);
      NextSkips(start, timers, events, SPIN_AFTER - 2 + k, k - 1);
    }
  }

  lemma NextSkips(start: nat, timers: seq<nat>, events: seq<bool>, n: nat, k: nat)
    requires SPIN_AFTER - 1 <= n < |events| && !events[n] && (n > 0 ==> !events[n - 1])
    requires Run(start, timers, events, n).now == Skips(timers, start, k)
    ensures Run(start, timers, events, n + 1).now == Skips(timers, start, k + 1)
  {
    Facts(start, timers, events, n);
    YieldSkips(Run(start, timers, events, n), timers, start, n, Reads(events, n), k);
  }

  lemma YieldSkips(s: Spinning, timers: seq<nat>, start: nat, n: nat, r: nat, k: nat)
    requires n + 1 >= SPIN_AFTER && SpinOf(s, start, n, r, false) && s.now == Skips(timers, start, k)
    ensures Turn(s, timers, false).now == Skips(timers, start, k + 1)
  {
  }

  /** The exact condition: the thread can be late only by skipping from the last stop before its deadline to a
      timer far past it. */
  lemma NeverLateUnless(start: nat, timers: seq<nat>, deadline: nat)
    requires deadline > 0
    ensures NeverLate(start, timers, deadline) <==> !LateTimer(start, timers, deadline)
  {
    if LateTimer(start, timers, deadline) {
      var events, n := LateYields(start, timers, deadline);
      assert Crosses(start, timers, events, n, deadline);
    } else {
      forall events, n: nat | Crosses(start, timers, events, n, deadline)
        ensures Spun(start, timers, events, n + 1) < deadline + Slack(deadline)
      {
        OnTime(start, timers, events, n, deadline);
      }
    }
  }

  lemma OnTime(start: nat, timers: seq<nat>, events: seq<bool>, n: nat, deadline: nat)
    requires Crosses(start, timers, events, n, deadline) && !LateTimer(start, timers, deadline)
    ensures Spun(start, timers, events, n + 1) < deadline + Slack(deadline)
  {
    Overshoot(start, timers, events, n, deadline);
    if !events[n] {
      var c := StopBehind(start, timers, events, n);
      StopsAt(timers, start, c, start + deadline);
    }
  }

  lemma LateYields(start: nat, timers: seq<nat>, deadline: nat) returns (events: seq<bool>, n: nat)
    requires deadline > 0 && LateTimer(start, timers, deadline)
    ensures Crosses(start, timers, events, n, deadline)
    ensures Spun(start, timers, events, n + 1) >= deadline + Slack(deadline)
  {
    var k := SkipsTo(timers, start, start + deadline, 0);
    LateSkip(timers, start, deadline, k);
    n := SPIN_AFTER - 1 + k;
    events := seq(n + 1, _ => false);
    SkipsOn(start, timers, events, n, k);
  }

  lemma SkipsOn(start: nat, timers: seq<nat>, events: seq<bool>, n: nat, k: nat)
    requires n == SPIN_AFTER - 1 + k && |events| == n + 1 && forall i :: 0 <= i < |events| ==> !events[i]
    ensures Spun(start, timers, events, n) == Skips(timers, start, k) - start
    ensures Spun(start, timers, events, n + 1) == Skips(timers, start, k + 1) - start
  {
    YieldsSkip(start, timers, events, k);
    YieldsSkip(start, timers, events, k + 1);
  }

  lemma LateSkip(timers: seq<nat>, start: nat, deadline: nat, k: nat)
    requires deadline > 0 && LateTimer(start, timers, deadline)
    requires Skips(timers, start, k) == LastStop(timers, start + deadline, start)
    ensures Skips(timers, start, k) < start + deadline
    ensures Skips(timers, start, k + 1) >= start + deadline + Slack(deadline)
  {
    StopsBefore(timers, start + deadline, start);
  }

  lemma {:induction false} StopsBefore(timers: seq<nat>, end: nat, from: nat)
    requires from < end
    ensures from <= LastStop(timers, end, from) < end
    decreases end - from
  {
    var at := Earliest(timers, from);
    if at.Some? && at.value + 1 < end {
      StopsBefore(timers, end, at.value + 1);
    }
  }

  /** A thread waits until the clock is `deadline` past where it started, reading and yielding as `pattern`
      says: it stops at the first event that gets there, after at most the reads it takes and hardly late. */
  method SpinTo(start: nat, timers: seq<nat>, pattern: seq<bool>, deadline: nat) returns (now: nat, events: nat)
    requires Reads(pattern, |pattern|) >= ReadsTo(start, timers, Even(pattern), deadline)
    ensures events <= |pattern| && now == Run(start, timers, pattern, events).now && now >= start + deadline
    ensures Reads(pattern, events) <= ReadsTo(start, timers, Even(pattern), deadline)
    ensures forall n :: 0 <= n < events ==> Spun(start, timers, pattern, n) < deadline
    ensures deadline > 0 && !LateTimer(start, timers, deadline) ==> now < start + deadline + Slack(deadline)
  {
    var spinner := new Spinner(start, timers);
    events := 0;
    while spinner.now - start < deadline
      invariant 0 <= events <= |pattern| && fresh(spinner) && spinner.timers == timers
      invariant Spinning(spinner.spin, spinner.now) == Run(start, timers, pattern, events)
      invariant forall n :: 0 <= n < events ==> Spun(start, timers, pattern, n) < deadline
      invariant events > 0 && spinner.now - start >= deadline ==> Crosses(start, timers, pattern, events - 1, deadline)
      invariant Reads(pattern, events) <= ReadsTo(start, timers, Even(pattern), deadline)
      decreases |pattern| - events
    {
      if Reads(pattern, events) == ReadsTo(start, timers, Even(pattern), deadline) || events == |pattern| {
        Reaches(start, timers, pattern, events, deadline);
      }
      if pattern[events] {
        spinner.ReadClock();
      } else {
        spinner.YieldPoint();
      }
      events := events + 1;
    }
    now := spinner.now;
    if deadline > 0 && !LateTimer(start, timers, deadline) {
      OnTime(start, timers, pattern, events - 1, deadline);
    }
  }
}
