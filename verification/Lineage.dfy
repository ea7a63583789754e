/**
 Thread lineages: SplitMix64's finaliser over a parent's id and a birth order, on 64-bit words kept as
 numbers below 2^64. Every round can be undone, so nothing is lost.
 */
module Lineage {
  import B = Bipartite

  const WORD := 0x1_0000_0000_0000_0000

  type Word = n: int | 0 <= n < WORD

  const GOLDEN: Word := 0x9e37_79b9_7f4a_7c15
  const MIX1: Word := 0xbf58_476d_1ce4_e5b9
  const MIX2: Word := 0x94d0_49bb_1331_11eb

  // ------------------------------------------------------------------------------------------
  // Exclusive or and shifts
  // ------------------------------------------------------------------------------------------

  function Xor(a: nat, b: nat): nat {
    if a == 0 && b == 0 then 0 else 2 * Xor(a / 2, b / 2) + (a % 2 + b % 2) % 2
  }

  function Shr(a: nat, s: nat): nat
    decreases s
  {
    if s == 0 then a else Shr(a / 2, s - 1)
  }

  function Power(n: nat): nat {
    if n == 0 then 1 else 2 * Power(n - 1)
  }

  lemma {:induction false} XorBelow(a: nat, b: nat, n: nat)
    requires a < Power(n) && b < Power(n)
    ensures Xor(a, b) < Power(n)
    decreases n
  {
    if n > 0 && !(a == 0 && b == 0) {
      XorBelow(a / 2, b / 2, n - 1);
    }
  }

  lemma {:induction false} XorCommutes(a: nat, b: nat)
    ensures Xor(a, b) == Xor(b, a)
  {
    if !(a == 0 && b == 0) {
      XorCommutes(a / 2, b / 2);
    }
  }

  lemma XorBits(a: nat, b: nat)
    ensures Xor(a, b) / 2 == Xor(a / 2, b / 2) && Xor(a, b) % 2 == (a % 2 + b % 2) % 2
  {
  }

  /** Exclusive or with the same word can be undone. */
  lemma {:induction false} XorCancels(a: nat, b: nat, c: nat)
    requires Xor(a, b) == Xor(a, c)
    ensures b == c
    decreases a + b + c
  {
    if a != 0 || b != 0 || c != 0 {
      XorBits(a, b);
      XorBits(a, c);
      XorCancels(a / 2, b / 2, c / 2);
      assert b % 2 == c % 2;
    }
  }

  lemma {:induction false} XorShifts(a: nat, b: nat, s: nat)
    ensures Shr(Xor(a, b), s) == Xor(Shr(a, s), Shr(b, s))
    decreases s
  {
    if s > 0 {
      assert Xor(a, b) / 2 == Xor(a / 2, b / 2);
      XorShifts(a / 2, b / 2, s - 1);
    }
  }

  lemma {:induction false} ShiftsAdd(a: nat, s: nat, t: nat)
    ensures Shr(Shr(a, s), t) == Shr(a, s + t)
    decreases s
  {
    if s > 0 {
      ShiftsAdd(a / 2, s - 1, t);
    }
  }

  lemma {:induction false} ShiftsOut(a: nat, n: nat, s: nat)
    requires a < Power(n)
    ensures Shr(a, s) <= a && (s >= n ==> Shr(a, s) == 0)
    decreases s
  {
    if s > 0 && n > 0 {
      ShiftsOut(a / 2, n - 1, s - 1);
    } else if s > 0 {
      ShiftsOut(a / 2, 0, s - 1);
    }
  }

  lemma WordPower()
    ensures Power(64) == WORD
  {
    PowersAdd(32, 32);
    PowersAdd(16, 16);
    PowersAdd(8, 8);
    assert Power(8) == 256;
  }

  lemma {:induction false} PowersAdd(m: nat, n: nat)
    ensures Power(m + n) == Power(m) * Power(n)
    decreases m
  {
    if m > 0 {
      PowersAdd(m - 1, n);
    }
  }

  /** One mixing round of shift and exclusive or. */
  function Shift(z: Word, s: nat): (r: Word) {
    ShiftBelow(z, s);
    Xor(z, Shr(z, s))
  }

  lemma ShiftBelow(z: Word, s: nat)
    ensures Xor(z, Shr(z, s)) < WORD
  {
    WordPower();
    ShiftsOut(z, 64, s);
    XorBelow(z, Shr(z, s), 64);
  }

  /** The round is undone from the top: each run of `s` bits from the ones above it. */
  lemma {:induction false} Unshift(z: Word, w: Word, s: nat, k: nat)
    requires s > 0 && Shift(z, s) == Shift(w, s)
    ensures Shr(z, k) == Shr(w, k)
    decreases if k < 64 then 64 - k else 0
  {
    if k >= 64 {
      WordPower();
      ShiftsOut(z, 64, k);
      ShiftsOut(w, 64, k);
    } else {
      Unshift(z, w, s, k + s);
      XorShifts(z, Shr(z, s), k);
      XorShifts(w, Shr(w, s), k);
      ShiftsAdd(z, s, k);
      ShiftsAdd(w, s, k);
      XorCommutes(Shr(z, k), Shr(z, k + s));
      XorCommutes(Shr(w, k), Shr(w, k + s));
      XorCancels(Shr(z, k + s), Shr(z, k), Shr(w, k));
    }
  }

  lemma ShiftInjective(z: Word, w: Word, s: nat)
    requires s > 0 && Shift(z, s) == Shift(w, s)
    ensures z == w
  {
    Unshift(z, w, s, 0);
  }

  // ------------------------------------------------------------------------------------------
  // Multiplication by an odd constant
  // ------------------------------------------------------------------------------------------

  function Times(z: Word, c: Word): Word {
    (z * c) % WORD
  }

  /** A constant that has an inverse modulo 2^64 can be divided out. */
  lemma TimesInjective(z: Word, w: Word, c: Word, inverse: int, k: int)
    requires c * inverse == 1 + k * WORD && Times(z, c) == Times(w, c)
    ensures z == w
  {
    Undone(z, c, inverse, k);
    Undone(w, c, inverse, k);
  }

  lemma Undone(z: Word, c: Word, inverse: int, k: int)
    requires c * inverse == 1 + k * WORD
    ensures (Times(z, c) * inverse) % WORD == z
  {
    var q := (z * c) / WORD;
    calc {
      Times(z, c) * inverse;
      (z * c - q * WORD) * inverse;
      z * (c * inverse) - q * inverse * WORD;
      z * (1 + k * WORD) - q * inverse * WORD;
      z + (z * k - q * inverse) * WORD;
    }
    Remainder(z, z * k - q * inverse);
  }

  lemma Remainder(z: Word, m: int)
    ensures (z + m * WORD) % WORD == z
  {
  }

  // ------------------------------------------------------------------------------------------
  // Lineages
  // ------------------------------------------------------------------------------------------

  function Finalise(z: Word): Word {
    Shift(Times(Shift(Times(Shift(z, 30), MIX1), 27), MIX2), 31)
  }

  function Both(a: Word, b: Word): (r: Word) {
    WordPower();
    XorBelow(a, b, 64);
    Xor(a, b)
  }

  function MixLineage(parent: Word, order: Word): Word {
    Finalise(Both(parent, Times(order, GOLDEN)))
  }

  /** The finaliser loses nothing. */
  lemma FinaliseInjective(z: Word, w: Word)
    ensures Finalise(z) == Finalise(w) ==> z == w
  {
    if Finalise(z) == Finalise(w) {
      FinaliseUndone(z, w);
    }
  }

  lemma FinaliseUndone(z: Word, w: Word)
    requires Finalise(z) == Finalise(w)
    ensures z == w
  {
    var a, b := Shift(z, 30), Shift(w, 30);
    var c, d := Shift(Times(a, MIX1), 27), Shift(Times(b, MIX1), 27);
    ShiftInjective(Times(c, MIX2), Times(d, MIX2), 31);
    TimesInjective(c, d, MIX2, 0x3196_42b2_d24d_8ec3, 2077064247507883091);
    ShiftInjective(Times(a, MIX1), Times(b, MIX1), 27);
    TimesInjective(a, b, MIX1, 0x96de_1b17_3f11_9089, 8125545580553827436);
    ShiftInjective(z, w, 30);
  }

  /** Children of one parent differ whenever their birth orders do. */
  lemma OrdersApart(parent: Word, order: Word, order': Word)
    ensures MixLineage(parent, order) == MixLineage(parent, order') ==> order == order'
  {
    if MixLineage(parent, order) == MixLineage(parent, order') {
      FinaliseInjective(Both(parent, Times(order, GOLDEN)), Both(parent, Times(order', GOLDEN)));
      XorCancels(parent, Times(order, GOLDEN), Times(order', GOLDEN));
      TimesInjective(order, order', GOLDEN, 0xf1de_83e1_9937_733d, 10771413168148108919);
    }
  }

  /** Children of one birth order differ whenever their parents do. */
  lemma ParentsApart(parent: Word, parent': Word, order: Word)
    ensures MixLineage(parent, order) == MixLineage(parent', order) ==> parent == parent'
  {
    if MixLineage(parent, order) == MixLineage(parent', order) {
      var mixed := Times(order, GOLDEN);
      FinaliseInjective(Both(parent, mixed), Both(parent', mixed));
      XorCommutes(parent, mixed);
      XorCommutes(parent', mixed);
      XorCancels(mixed, parent, parent');
    }
  }

  /** A thread's place in the spawn tree. */
  class Thread {
    const id: Word
    var children: nat

    constructor (id: Word)
      ensures this.id == id && children == 0
    {
      this.id, children := id, 0;
    }

    /** The lineage of the thread's next child, counting it as born. */
    method ChildLineage() returns (child: Word)
      requires children + 1 < WORD
      modifies this`children
      ensures children == old(children) + 1 && child == MixLineage(id, children)
    {
      children := children + 1;
      child := MixLineage(id, children);
    }
  }

  /** No two children of one thread get the same lineage, however many it has. */
  method Births(id: Word, n: nat) returns (lineages: seq<Word>)
    requires n < WORD
    ensures |lineages| == n && B.NoDup(lineages)
    ensures forall i :: 0 <= i < n ==> lineages[i] == MixLineage(id, i + 1)
  {
    var thread := new Thread(id);
    lineages := [];
    while |lineages| < n
      invariant |lineages| == thread.children <= n && thread.id == id && fresh(thread)
      invariant forall i :: 0 <= i < |lineages| ==> lineages[i] == MixLineage(id, i + 1)
    {
      var child := thread.ChildLineage();
      lineages := lineages + [child];
    }
    AllApart(id, lineages);
  }

  lemma AllApart(id: Word, lineages: seq<Word>)
    requires |lineages| < WORD && forall i :: 0 <= i < |lineages| ==> lineages[i] == MixLineage(id, i + 1)
    ensures B.NoDup(lineages)
  {
    forall i, j | 0 <= i < j < |lineages|
      ensures lineages[i] != lineages[j]
    {
      Apart(id, i + 1, j + 1);
    }
  }

  lemma Apart(id: Word, i: Word, j: Word)
    requires i != j
    ensures MixLineage(id, i) != MixLineage(id, j)
  {
    OrdersApart(id, i, j);
  }
}
