/**
 A Windows environment block: one flat buffer of NUL-terminated `name=value` entries, edited by splicing.
 It behaves as a map whose keys are names without regard to case, kept in order.
 */
module EnvBlock {
  import opened Options

  const NUL := 0
  const EQUALS := 61
  const ERROR_INVALID_PARAMETER := 87

  type Units = seq<int>

  datatype Entry = Entry(name: Units, value: Units)

  datatype Result = Done | Failed(error: int)

  // ------------------------------------------------------------------------------------------
  // Names in order
  // ------------------------------------------------------------------------------------------

  /** A name with every unit upcased, as names are compared. */
  function Fold(up: int -> int, name: Units): Units {
    seq(|name|, i requires 0 <= i < |name| => up(name[i]))
  }

  /** Lexicographic order: negative, zero or positive. */
  function Compare(a: Units, b: Units): int {
    if a == [] && b == [] then 0
    else if a == [] then -1
    else if b == [] then 1
    else if a[0] < b[0] then -1
    else if a[0] > b[0] then 1
    else Compare(a[1..], b[1..])
  }

  lemma {:induction false} CompareEqual(a: Units, b: Units)
    ensures Compare(a, b) == 0 <==> a == b
    decreases |a|
  {
    if a != [] && b != [] {
      CompareEqual(a[1..], b[1..]);
      assert a == [a[0]] + a[1..] && b == [b[0]] + b[1..];
    }
  }

  lemma {:induction false} CompareOpposite(a: Units, b: Units)
    ensures Compare(a, b) < 0 <==> Compare(b, a) > 0
    decreases |a|
  {
    if a != [] && b != [] {
      CompareOpposite(a[1..], b[1..]);
    }
  }

  lemma {:induction false} CompareChains(a: Units, b: Units, c: Units)
    requires Compare(a, b) < 0 && Compare(b, c) < 0
    ensures Compare(a, c) < 0
    decreases |a|
  {
    if a != [] && b != [] && c != [] && a[0] == b[0] == c[0] {
      CompareChains(a[1..], b[1..], c[1..]);
    }
  }

  /** At `k`, the first place where they differ, `a` has ended or has the lesser unit. */
  predicate LessAt(a: Units, b: Units, k: int) {
    0 <= k <= |a| && k < |b| && a[..k] == b[..k] && (k == |a| || a[k] < b[k])
  }

  /** In the order of a dictionary. */
  ghost predicate Precedes(a: Units, b: Units) {
    exists k :: LessAt(a, b, k)
  }

  /** That is what the comparison tells. */
  lemma {:induction false} CompareMeans(a: Units, b: Units)
    ensures Compare(a, b) < 0 <==> Precedes(a, b)
    decreases |a|
  {
    if a == [] || b == [] || a[0] != b[0] {
      assert b != [] && (a == [] || a[0] < b[0]) ==> LessAt(a, b, 0);
    } else {
      CompareMeans(a[1..], b[1..]);
      forall k | 0 <= k < |b| && k <= |a|
        ensures k > 0 ==> (LessAt(a, b, k) <==> LessAt(a[1..], b[1..], k - 1))
      {
        if k > 0 {
          assert a[..k] == [a[0]] + a[1..][..k - 1] && b[..k] == [b[0]] + b[1..][..k - 1];
        }
      }
      LessShifts(a, b);
    }
  }

  lemma LessShifts(a: Units, b: Units)
    requires a != [] && b != [] && a[0] == b[0]
    requires forall k :: 0 < k < |b| && k <= |a| ==> (LessAt(a, b, k) <==> LessAt(a[1..], b[1..], k - 1))
    ensures Precedes(a, b) <==> Precedes(a[1..], b[1..])
  {
    if Precedes(a, b) {
      var k :| LessAt(a, b, k);
      assert LessAt(a[1..], b[1..], k - 1);
    }
    if Precedes(a[1..], b[1..]) {
      var k :| LessAt(a[1..], b[1..], k);
      assert LessAt(a, b, k + 1);
    }
  }

  /** Strictly in order of their folded names, so no two alike. */
  predicate Sorted(up: int -> int, es: seq<Entry>) {
    forall i, j {:trigger es[i], es[j]} :: 0 <= i < j < |es| ==> Compare(Fold(up, es[i].name), Fold(up, es[j].name)) < 0
  }

  lemma SortedMeans(up: int -> int, es: seq<Entry>)
    ensures Sorted(up, es) <==>
              forall i, j {:trigger es[i], es[j]} :: 0 <= i < j < |es| ==>
                Precedes(Fold(up, es[i].name), Fold(up, es[j].name))
  {
    forall i, j {:trigger es[i], es[j]} | 0 <= i < j < |es|
      ensures Compare(Fold(up, es[i].name), Fold(up, es[j].name)) < 0 <==>
                Precedes(Fold(up, es[i].name), Fold(up, es[j].name))
    {
      CompareMeans(Fold(up, es[i].name), Fold(up, es[j].name));
    }
  }

  // ------------------------------------------------------------------------------------------
  // The flat form
  // ------------------------------------------------------------------------------------------

  predicate ValidName(name: Units) {
    name != [] && EQUALS !in name[1..]
  }

  predicate ValidEntry(e: Entry) {
    ValidName(e.name) && NUL !in e.name && NUL !in e.value
  }

  function Text(e: Entry): Units {
    e.name + [EQUALS] + e.value
  }

  /** The entries, each ended by its NUL. */
  function Flat(es: seq<Entry>): Units {
    if es == [] then [] else Flat(es[..|es| - 1]) + Text(es[|es| - 1]) + [NUL]
  }

  lemma {:induction false} FlatOver(xs: seq<Entry>, ys: seq<Entry>)
    ensures Flat(xs + ys) == Flat(xs) + Flat(ys)
    decreases |ys|
  {
    if ys == [] {
      assert xs + ys == xs;
    } else {
      var n := |ys| - 1;
      assert (xs + ys)[..|xs + ys| - 1] == xs + ys[..n];
      FlatOver(xs, ys[..n]);
    }
  }

  lemma FlatOne(e: Entry)
    ensures Flat([e]) == Text(e) + [NUL]
  {
  }

  lemma FlatAt(es: seq<Entry>, i: int)
    requires 0 <= i < |es|
    ensures Flat(es) == Flat(es[..i]) + (Text(es[i]) + [NUL]) + Flat(es[i + 1..])
  {
    Parts(es, i);
    FlatThree(es[..i], es[i], es[i + 1..]);
  }

  lemma Parts<T>(s: seq<T>, i: int)
    requires 0 <= i < |s|
    ensures s == s[..i] + ([s[i]] + s[i + 1..])
  {
  }

  lemma Regroup<T>(a: seq<T>, b: seq<T>, c: seq<T>)
    ensures a + (b + c) == a + b + c
  {
  }

  lemma FlatThree(xs: seq<Entry>, e: Entry, ys: seq<Entry>)
    ensures Flat(xs + ([e] + ys)) == Flat(xs) + (Text(e) + [NUL]) + Flat(ys)
  {
    FlatOver(xs, [e] + ys);
    FlatOver([e], ys);
    FlatOne(e);
    Regroup(Flat(xs), Text(e) + [NUL], Flat(ys));
  }

  /** Where a unit first stands. */
  function Position(s: Units, c: int): (at: Option<nat>)
    ensures at.Some? ==> at.value < |s| && s[at.value] == c && c !in s[..at.value]
    ensures at.None? ==> c !in s
  {
    if s == [] then None
    else if s[0] == c then Some(0)
    else
      var at := Position(s[1..], c);
      assert at.Some? ==> s[..at.value + 1] == [s[0]] + s[1..][..at.value];
      if at.Some? then Some(at.value + 1) else None
  }

  lemma {:induction false} PositionOf(a: Units, c: int, b: Units)
    requires c !in a
    ensures Position(a + [c] + b, c) == Some(|a|)
    decreases |a|
  {
    if a == [] {
      assert a + [c] + b == [c] + b;
    } else {
      assert (a + [c] + b)[1..] == a[1..] + [c] + b;
      PositionOf(a[1..], c, b);
    }
  }

  /** The length of an entry's name: up to the first `=` past its first unit. */
  function NameLength(entry: Units): Option<nat> {
    if entry == [] then None
    else
      var at := Position(entry[1..], EQUALS);
      if at.Some? then Some(at.value + 1) else None
  }

  /** It recovers every name a block takes, those that begin with `=` too, and no other. */
  lemma NameRecovered(e: Entry)
    ensures NameLength(Text(e)) == Some(|e.name|) <==> ValidName(e.name)
    ensures Text(e)[..|e.name|] == e.name
  {
    if e.name != [] {
      assert Text(e)[1..] == e.name[1..] + [EQUALS] + e.value;
      if EQUALS !in e.name[1..] {
        PositionOf(e.name[1..], EQUALS, e.value);
      } else {
        var at := Position(Text(e)[1..], EQUALS);
        var i :| 0 <= i < |e.name[1..]| && e.name[1..][i] == EQUALS;
        assert Text(e)[1..][i] == EQUALS;
      }
    }
  }

  /** The units from `start` up to the next NUL. */
  function EntryFrom(block: Units, start: nat): Units
    requires start <= |block|
  {
    var at := Position(block[start..], NUL);
    if at.Some? then block[start..start + at.value] else block[start..]
  }

  /** Each entry is found at the end of the ones before it. */
  lemma EntryAt(es: seq<Entry>, i: int)
    requires 0 <= i < |es| && ValidEntry(es[i])
    ensures |Flat(es[..i])| < |Flat(es)| && EntryFrom(Flat(es), |Flat(es[..i])|) == Text(es[i])
    ensures |Flat(es[..i + 1])| == |Flat(es[..i])| + |Text(es[i])| + 1 <= |Flat(es)|
  {
    FlatAt(es, i);
    EntryFound(Flat(es[..i]), Text(es[i]), Flat(es[i + 1..]));
    assert es[..i + 1][..i] == es[..i];
  }

  lemma EntryFound(before: Units, text: Units, after: Units)
    requires NUL !in text
    ensures EntryFrom(before + (text + [NUL]) + after, |before|) == text
  {
    var block := before + (text + [NUL]) + after;
    assert block[|before|..] == text + [NUL] + after;
    PositionOf(text, NUL, after);
  }

  // ------------------------------------------------------------------------------------------
  // The map it stands for
  // ------------------------------------------------------------------------------------------

  /** The entry of a folded name. */
  function Lookup(up: int -> int, es: seq<Entry>, key: Units): Option<Entry> {
    if es == [] then None
    else if Fold(up, es[0].name) == key then Some(es[0])
    else Lookup(up, es[1..], key)
  }

  lemma {:induction false} LookupOver(up: int -> int, xs: seq<Entry>, ys: seq<Entry>, key: Units)
    ensures Lookup(up, xs + ys, key) == if Lookup(up, xs, key).Some? then Lookup(up, xs, key) else Lookup(up, ys, key)
    decreases |xs|
  {
    if xs == [] {
      assert xs + ys == ys;
    } else {
      assert (xs + ys)[1..] == xs[1..] + ys;
      LookupOver(up, xs[1..], ys, key);
    }
  }

  lemma LookupThree(up: int -> int, a: seq<Entry>, m: seq<Entry>, b: seq<Entry>, key: Units)
    ensures Lookup(up, a + m + b, key)
            == if Lookup(up, a, key).Some? then Lookup(up, a, key)
               else if Lookup(up, m, key).Some? then Lookup(up, m, key)
               else Lookup(up, b, key)
  {
    LookupOver(up, a + m, b, key);
    LookupOver(up, a, m, key);
  }

  lemma {:induction false} LookupNone(up: int -> int, es: seq<Entry>, key: Units)
    requires forall i :: 0 <= i < |es| ==> Fold(up, es[i].name) != key
    ensures Lookup(up, es, key) == None
    decreases |es|
  {
    if es != [] {
      LookupNone(up, es[1..], key);
    }
  }

  predicate Proper(up: int -> int, es: seq<Entry>) {
    Sorted(up, es) && forall i :: 0 <= i < |es| ==> ValidEntry(es[i])
  }

  /** `name`'s place: every entry before it is less, every entry from it on is not. */
  predicate PlaceOf(up: int -> int, es: seq<Entry>, name: Units, k: int) {
    && 0 <= k <= |es|
    && (forall i :: 0 <= i < k ==> Compare(Fold(up, es[i].name), Fold(up, name)) < 0)
    && (k < |es| ==> Compare(Fold(up, es[k].name), Fold(up, name)) >= 0)
  }

  function Place(up: int -> int, es: seq<Entry>, name: Units): (k: int)
    ensures PlaceOf(up, es, name, k)
    decreases |es|
  {
    if es == [] || Compare(Fold(up, es[0].name), Fold(up, name)) >= 0 then 0
    else
      var k := Place(up, es[1..], name);
      assert forall i :: 0 < i <= k ==> i == k || es[i] == es[1..][i - 1];
      k + 1
  }

  lemma OnePlace(up: int -> int, es: seq<Entry>, name: Units, k: int)
    requires PlaceOf(up, es, name, k)
    ensures k == Place(up, es, name)
  {
  }

  predicate EqualAt(up: int -> int, es: seq<Entry>, name: Units, k: int) {
    0 <= k < |es| && Fold(up, es[k].name) == Fold(up, name)
  }

  /** The entries with `name` set there, or removed; one already there keeps its spelling. */
  function SetAt(up: int -> int, es: seq<Entry>, name: Units, value: Option<Units>, k: int): seq<Entry>
    requires 0 <= k <= |es|
  {
    var equal := EqualAt(up, es, name, k);
    var middle := if value.None? then [] else [Entry(if equal then es[k].name else name, value.value)];
    es[..k] + middle + es[if equal then k + 1 else k..]
  }

  /** The entries with `name` set, or removed. */
  function SetEntry(up: int -> int, es: seq<Entry>, name: Units, value: Option<Units>): seq<Entry> {
    SetAt(up, es, name, value, Place(up, es, name))
  }

  /** Nothing past its place is `name`. */
  lemma PastPlace(up: int -> int, es: seq<Entry>, name: Units, k: int, i: int)
    requires Sorted(up, es) && PlaceOf(up, es, name, k) && k <= i < |es| && (i == k ==> !EqualAt(up, es, name, k))
    ensures Compare(Fold(up, name), Fold(up, es[i].name)) < 0
  {
    var key, at := Fold(up, name), Fold(up, es[k].name);
    CompareEqual(at, key);
    CompareOpposite(key, at);
    if i > k {
      if Compare(at, key) > 0 {
        CompareChains(key, at, Fold(up, es[i].name));
      }
    }
  }

  /** Setting keeps the entries in order ... */
  lemma SetSorted(up: int -> int, es: seq<Entry>, name: Units, value: Option<Units>)
    requires Proper(up, es) && ValidName(name) && NUL !in name
    requires value.Some? ==> NUL !in value.value
    ensures Proper(up, SetEntry(up, es, name, value))
  {
    SortedAt(up, es, name, value, Place(up, es, name));
  }

  lemma SortedAt(up: int -> int, es: seq<Entry>, name: Units, value: Option<Units>, k: int)
    requires Proper(up, es) && PlaceOf(up, es, name, k) && ValidName(name) && NUL !in name
    requires value.Some? ==> NUL !in value.value
    ensures Proper(up, SetAt(up, es, name, value, k))
  {
    var after := SetAt(up, es, name, value, k);
    forall i, j {:trigger after[i], after[j]} | 0 <= i < j < |after|
      ensures Compare(Fold(up, after[i].name), Fold(up, after[j].name)) < 0
    {
      EntryOf(up, es, name, value, k, i);
      EntryOf(up, es, name, value, k, j);
      var rest, shift := RestFrom(up, es, name, k), if value.None? then k else k + 1;
      if i == k < shift {
        PastPlace(up, es, name, k, j - shift + rest);
      }
    }
    forall i | 0 <= i < |after|
      ensures ValidEntry(after[i])
    {
      EntryOf(up, es, name, value, k, i);
    }
  }

  /** Where each entry comes from. */
  lemma EntryOf(up: int -> int, es: seq<Entry>, name: Units, value: Option<Units>, k: int, j: int)
    requires 0 <= k <= |es| && 0 <= j < |SetAt(up, es, name, value, k)|
    ensures var after, rest := SetAt(up, es, name, value, k), RestFrom(up, es, name, k);
            var shift := if value.None? then k else k + 1;
            if j < k then after[j] == es[j]
            else if j < shift then
              Fold(up, after[j].name) == Fold(up, name) && after[j].value == value.value
              && (after[j].name == name || (k < |es| && after[j].name == es[k].name))
            else j - shift + rest < |es| && after[j] == es[j - shift + rest]
  {
  }

  /** ... and changes the one name, and nothing else. */
  lemma SetLookup(up: int -> int, es: seq<Entry>, name: Units, value: Option<Units>, key: Units)
    requires Proper(up, es)
    ensures var was := Lookup(up, es, key);
            Lookup(up, SetEntry(up, es, name, value), key)
            == if key != Fold(up, name) then was
               else if value.None? then None
               else Some(Entry(if was.Some? then was.value.name else name, value.value))
  {
    LookupAt(up, es, name, value, Place(up, es, name), key);
  }

  lemma LookupAt(up: int -> int, es: seq<Entry>, name: Units, value: Option<Units>, k: int, key: Units)
    requires Proper(up, es) && PlaceOf(up, es, name, k)
    ensures var was := Lookup(up, es, key);
            Lookup(up, SetAt(up, es, name, value, k), key)
            == if key != Fold(up, name) then was
               else if value.None? then None
               else Some(Entry(if was.Some? then was.value.name else name, value.value))
  {
    var equal := EqualAt(up, es, name, k);
    var rest := if equal then k + 1 else k;
    var a, b := es[..k], es[rest..];
    var own := if equal then [es[k]] else [];
    var middle := if value.None? then [] else [Entry(if equal then es[k].name else name, value.value)];
    assert es == a + own + b;
    LookupThree(up, a, own, b, key);
    LookupThree(up, a, middle, b, key);
    if key == Fold(up, name) {
      NoneBefore(up, es, name, k);
      NonePast(up, es, name, k, rest);
    }
  }

  lemma SetAssigned(up: int -> int, es: seq<Entry>, name: Units, value: Option<Units>)
    requires Proper(up, es)
    ensures Assigned(up, es, name, value, SetEntry(up, es, name, value))
  {
    forall key
      ensures Lookup(up, SetEntry(up, es, name, value), key)
              == if key != Fold(up, name) then Lookup(up, es, key)
                 else if value.None? then None
                 else Some(Entry(Spelling(up, es, name), value.value))
    {
      SetLookup(up, es, name, value, key);
    }
  }

  lemma NoneBefore(up: int -> int, es: seq<Entry>, name: Units, k: int)
    requires PlaceOf(up, es, name, k)
    ensures Lookup(up, es[..k], Fold(up, name)) == None
  {
    forall i | 0 <= i < k
      ensures Fold(up, es[..k][i].name) != Fold(up, name)
    {
      CompareEqual(Fold(up, es[i].name), Fold(up, name));
    }
    LookupNone(up, es[..k], Fold(up, name));
  }

  lemma NonePast(up: int -> int, es: seq<Entry>, name: Units, k: int, rest: int)
    requires Sorted(up, es) && PlaceOf(up, es, name, k) && rest == if EqualAt(up, es, name, k) then k + 1 else k
    ensures Lookup(up, es[rest..], Fold(up, name)) == None
  {
    forall i | 0 <= i < |es[rest..]|
      ensures Fold(up, es[rest..][i].name) != Fold(up, name)
    {
      PastPlace(up, es, name, k, rest + i);
      CompareEqual(Fold(up, name), Fold(up, es[rest + i].name));
    }
    LookupNone(up, es[rest..], Fold(up, name));
  }

  // ------------------------------------------------------------------------------------------
  // Editing the buffer
  // ------------------------------------------------------------------------------------------

  /** What takes the place of `name`'s entry, or goes in before the one at `k`. */
  function Replacement(up: int -> int, es: seq<Entry>, name: Units, value: Option<Units>, k: int): Units {
    if value.None? then []
    else Text(Entry(if EqualAt(up, es, name, k) then es[k].name else name, value.value)) + [NUL]
  }

  function RestFrom(up: int -> int, es: seq<Entry>, name: Units, k: int): int {
    if EqualAt(up, es, name, k) then k + 1 else k
  }

  /** Splicing it in gives the flat form of the entries so set. */
  lemma Spliced(up: int -> int, es: seq<Entry>, name: Units, value: Option<Units>, k: int)
    requires 0 <= k <= |es|
    ensures Flat(SetAt(up, es, name, value, k))
            == Flat(es[..k]) + Replacement(up, es, name, value, k) + Flat(es[RestFrom(up, es, name, k)..])
  {
    var rest := es[RestFrom(up, es, name, k)..];
    if value.None? {
      assert SetAt(up, es, name, value, k) == es[..k] + rest;
      FlatOver(es[..k], rest);
      assert Flat(es[..k]) + [] == Flat(es[..k]);
    } else {
      var e := Entry(if EqualAt(up, es, name, k) then es[k].name else name, value.value);
      Regroup(es[..k], [e], rest);
      FlatThree(es[..k], e, rest);
    }
  }

  lemma FlatSplit(es: seq<Entry>, k: int)
    requires 0 <= k <= |es|
    ensures |Flat(es[..k])| <= |Flat(es)|
    ensures Flat(es)[..|Flat(es[..k])|] == Flat(es[..k]) && Flat(es)[|Flat(es[..k])|..] == Flat(es[k..])
  {
    assert es == es[..k] + es[k..];
    FlatOver(es[..k], es[k..]);
  }

  /** How an entry of the buffer compares with `name`. */
  function Order(up: int -> int, entry: Units, name: Units): int {
    var length := NameLength(entry);
    Compare(Fold(up, if length.Some? && length.value <= |entry| then entry[..length.value] else entry), Fold(up, name))
  }

  /** Scans for the first entry at or past `name`: where it starts, and whether it is `name`'s. */
  method Scan(up: int -> int, block: Units, name: Units, ghost es: seq<Entry>) returns (position: nat, equal: bool)
    requires block == Flat(es) && Proper(up, es)
    ensures position == |Flat(es[..Place(up, es, name)])| <= |block|
    ensures equal <==> EqualAt(up, es, name, Place(up, es, name))
  {
    var start := 0;
    ghost var k := 0;
    assert es[..0] == [];
    while start < |block|
      invariant 0 <= k <= |es| && start == |Flat(es[..k])| <= |block|
      invariant forall i :: 0 <= i < k ==> Compare(Fold(up, es[i].name), Fold(up, name)) < 0
      decreases |block| - start
    {
      NotPast(es, k);
      EntryAt(es, k);
      var entry := EntryFrom(block, start);
      var order := Order(up, entry, name);
      OrderOfName(up, es[k], name);
      if order >= 0 {
        OnePlace(up, es, name, k);
        return start, order == 0;
      }
      start := start + |entry| + 1;
      k := k + 1;
    }
    Exhausted(es, k);
    OnePlace(up, es, name, k);
    return |block|, false;
  }

  lemma NotPast(es: seq<Entry>, k: int)
    requires 0 <= k <= |es| && |Flat(es[..k])| < |Flat(es)|
    ensures k < |es|
  {
    assert es[..|es|] == es;
  }

  lemma Exhausted(es: seq<Entry>, k: int)
    requires 0 <= k <= |es| && |Flat(es[..k])| == |Flat(es)|
    ensures k == |es| && es[..k] == es
  {
    FlatSplit(es, k);
    NotEmpty(es[k..]);
  }

  lemma NotEmpty(es: seq<Entry>)
    ensures |Flat(es)| == 0 <==> es == []
  {
  }

  lemma OrderOfName(up: int -> int, e: Entry, name: Units)
    requires ValidName(e.name)
    ensures Order(up, Text(e), name) == Compare(Fold(up, e.name), Fold(up, name))
    ensures Order(up, Text(e), name) == 0 <==> Fold(up, e.name) == Fold(up, name)
  {
    NameRecovered(e);
    CompareEqual(Fold(up, e.name), Fold(up, name));
  }

  /** The buffer with `name` set in its place. */
  method Edit(up: int -> int, block: Units, name: Units, value: Option<Units>, ghost es: seq<Entry>)
    returns (edited: Units)
    requires block == Flat(es) && Proper(up, es)
    ensures edited == Flat(SetEntry(up, es, name, value))
  {
    var position, equal := Scan(up, block, name, es);
    ghost var k := Place(up, es, name);
    var kept, end := name, position;
    if equal {
      KeptName(es, k);
      var entry := EntryFrom(block, position);
      kept, end := entry[..NameLength(entry).value], position + |entry| + 1;
    }
    var replacement := if value.Some? then kept + [EQUALS] + value.value + [NUL] else [];
    assert replacement == Replacement(up, es, name, value, k) && end == |Flat(es[..RestFrom(up, es, name, k)])|;
    FlatSplit(es, k);
    FlatSplit(es, RestFrom(up, es, name, k));
    Spliced(up, es, name, value, k);
    edited := block[..position] + replacement + block[end..];
  }

  lemma KeptName(es: seq<Entry>, k: int)
    requires 0 <= k < |es| && ValidEntry(es[k])
    ensures |Flat(es[..k])| < |Flat(es)| && |Flat(es[..k + 1])| <= |Flat(es)|
    ensures var entry := EntryFrom(Flat(es), |Flat(es[..k])|);
            && NameLength(entry).Some? && NameLength(entry).value <= |entry|
            && entry[..NameLength(entry).value] == es[k].name
            && |Flat(es[..k])| + |entry| + 1 == |Flat(es[..k + 1])|
  {
    EntryAt(es, k);
    NameRecovered(es[k]);
  }

  class State {
    const up: int -> int
    var block: Units
    ghost var entries: seq<Entry>

    ghost predicate Valid()
      reads this
    {
      block == Flat(entries) && Proper(up, entries)
    }

    constructor (up: int -> int)
      ensures Valid() && entries == [] && this.up == up
    {
      this.up, block, entries := up, [], [];
    }

    /** `SetEnvironmentVariableW`, `None` removing the variable. */
    method Set(name: Units, value: Option<Units>) returns (result: Result)
      requires Valid() && NUL !in name && (value.Some? ==> NUL !in value.value)
      modifies this
      ensures Valid()
      ensures !ValidName(name) ==> result == Failed(ERROR_INVALID_PARAMETER) && entries == old(entries)
      ensures ValidName(name) ==> result == Done && entries == SetEntry(up, old(entries), name, value)
      ensures ValidName(name) ==> Assigned(up, old(entries), name, value, entries)
    {
      if name == [] || EQUALS in name[1..] {
        return Failed(ERROR_INVALID_PARAMETER);
      }
      ghost var es := entries;
      block := Edit(up, block, name, value, es);
      entries := SetEntry(up, es, name, value);
      SetSorted(up, es, name, value);
      SetAssigned(up, es, name, value);
      result := Done;
    }
  }

  /** After a set, `name` alone has changed. */
  ghost predicate Assigned(up: int -> int, es: seq<Entry>, name: Units, value: Option<Units>, after: seq<Entry>) {
    forall key ::
      Lookup(up, after, key)
      == if key != Fold(up, name) then Lookup(up, es, key)
         else if value.None? then None
         else Some(Entry(Spelling(up, es, name), value.value))
  }

  /** The first spelling a name was set under. */
  function Spelling(up: int -> int, es: seq<Entry>, name: Units): Units {
    var was := Lookup(up, es, Fold(up, name));
    if was.Some? then was.value.name else name
  }

  // ------------------------------------------------------------------------------------------
  // Whole runs
  // ------------------------------------------------------------------------------------------

  datatype Update = Update(name: Units, value: Option<Units>)

  /** The map after some updates, refused ones left out; a name keeps the spelling it was first set under. */
  function Meant(up: int -> int, updates: seq<Update>): map<Units, Entry> {
    if updates == [] then map[]
    else
      var before, u := Meant(up, updates[..|updates| - 1]), updates[|updates| - 1];
      var key := Fold(up, u.name);
      if !ValidName(u.name) then before
      else if u.value.None? then before - {key}
      else before[key := Entry(if key in before then before[key].name else u.name, u.value.value)]
  }

  /** The entries are just those of the map. */
  ghost predicate Denotes(up: int -> int, es: seq<Entry>, m: map<Units, Entry>) {
    forall key :: Lookup(up, es, key) == if key in m then Some(m[key]) else None
  }

  predicate NulFree(updates: seq<Update>) {
    forall i :: 0 <= i < |updates| ==>
      NUL !in updates[i].name && (updates[i].value.Some? ==> NUL !in updates[i].value.value)
  }

  /** The entries after some updates. */
  function After(up: int -> int, updates: seq<Update>): seq<Entry> {
    if updates == [] then []
    else
      var before, u := After(up, updates[..|updates| - 1]), updates[|updates| - 1];
      if ValidName(u.name) then SetEntry(up, before, u.name, u.value) else before
  }

  lemma AfterNext(up: int -> int, updates: seq<Update>, n: int)
    requires 0 <= n < |updates|
    ensures After(up, updates[..n + 1])
            == if ValidName(updates[n].name)
               then SetEntry(up, After(up, updates[..n]), updates[n].name, updates[n].value)
               else After(up, updates[..n])
  {
    assert updates[..n + 1][..n] == updates[..n];
  }

  /** They are in strict order, and stand for the map of those updates. */
  lemma {:induction false} AfterMeans(up: int -> int, updates: seq<Update>)
    requires NulFree(updates)
    ensures Proper(up, After(up, updates)) && Denotes(up, After(up, updates), Meant(up, updates))
    decreases |updates|
  {
    if updates != [] {
      var n := |updates| - 1;
      var before, u := After(up, updates[..n]), updates[n];
      AfterMeans(up, updates[..n]);
      if ValidName(u.name) {
        SetSorted(up, before, u.name, u.value);
        SetAssigned(up, before, u.name, u.value);
      }
      MeantNext(up, updates, before, After(up, updates));
    }
  }

  /** Whatever is set from an empty block on, the buffer is the flat form of the entries so set. */
  method Run(up: int -> int, updates: seq<Update>) returns (block: Units)
    requires NulFree(updates)
    ensures block == Flat(After(up, updates))
  {
    var state := new State(up);
    var n := 0;
    while n < |updates|
      invariant 0 <= n <= |updates| && fresh(state) && state.Valid() && state.up == up
      invariant state.entries == After(up, updates[..n])
    {
      var u := updates[n];
      var _ := state.Set(u.name, u.value);
      AfterNext(up, updates, n);
      n := n + 1;
    }
    assert updates[..n] == updates;
    return state.block;
  }

  lemma MeantNext(up: int -> int, updates: seq<Update>, before: seq<Entry>, after: seq<Entry>)
    requires updates != [] && Denotes(up, before, Meant(up, updates[..|updates| - 1]))
    requires var u := updates[|updates| - 1];
             if ValidName(u.name) then Assigned(up, before, u.name, u.value, after) else after == before
    ensures Denotes(up, after, Meant(up, updates))
  {
  }

  lemma {:induction false} Found(up: int -> int, es: seq<Entry>, key: Units) returns (i: int)
    requires Lookup(up, es, key).Some?
    ensures 0 <= i < |es| && es[i] == Lookup(up, es, key).value && Fold(up, es[i].name) == key
    decreases |es|
  {
    if Fold(up, es[0].name) == key {
      i := 0;
    } else {
      i := Found(up, es[1..], key);
      i := i + 1;
    }
  }

  /** The first entry of one is the first of any that stands for the same map. */
  lemma FirstNotLess(up: int -> int, es: seq<Entry>, es': seq<Entry>)
    requires Sorted(up, es') && es != [] && es' != [] && Lookup(up, es', Fold(up, es[0].name)).Some?
    ensures Compare(Fold(up, es'[0].name), Fold(up, es[0].name)) <= 0
  {
    var i := Found(up, es', Fold(up, es[0].name));
    CompareEqual(Fold(up, es'[0].name), Fold(up, es[0].name));
    assert i > 0 ==> Compare(Fold(up, es'[0].name), Fold(up, es'[i].name)) < 0;
  }

  lemma TailLookup(up: int -> int, es: seq<Entry>, key: Units)
    requires Sorted(up, es) && es != []
    ensures Lookup(up, es[1..], key) == if key == Fold(up, es[0].name) then None else Lookup(up, es, key)
  {
    if key == Fold(up, es[0].name) {
      forall i | 0 <= i < |es[1..]|
        ensures Fold(up, es[1..][i].name) != key
      {
        assert es[1..][i] == es[i + 1];
        CompareEqual(key, Fold(up, es[i + 1].name));
      }
      LookupNone(up, es[1..], key);
    }
  }

  /** The order the updates came in leaves no trace: blocks that stand for one map are the same buffer. */
  lemma {:induction false} Canonical(up: int -> int, es: seq<Entry>, es': seq<Entry>, m: map<Units, Entry>)
    requires Sorted(up, es) && Sorted(up, es') && Denotes(up, es, m) && Denotes(up, es', m)
    ensures es == es'
    decreases |es|
  {
    if es == [] || es' == [] {
      SomeFirst(up, es, m);
      SomeFirst(up, es', m);
    } else {
      var a, b := Fold(up, es[0].name), Fold(up, es'[0].name);
      assert Lookup(up, es, a) == Some(es[0]) && Lookup(up, es', b) == Some(es'[0]);
      FirstNotLess(up, es, es');
      FirstNotLess(up, es', es);
      CompareOpposite(a, b);
      CompareEqual(a, b);
      assert es[0] == es'[0];
      forall key
        ensures Lookup(up, es[1..], key) == if key in m - {a} then Some((m - {a})[key]) else None
        ensures Lookup(up, es'[1..], key) == if key in m - {a} then Some((m - {a})[key]) else None
      {
        TailLookup(up, es, key);
        TailLookup(up, es', key);
      }
      Canonical(up, es[1..], es'[1..], m - {a});
      assert es == [es[0]] + es[1..] && es' == [es'[0]] + es'[1..];
    }
  }

  lemma SomeFirst(up: int -> int, es: seq<Entry>, m: map<Units, Entry>)
    requires Denotes(up, es, m)
    ensures es == [] <==> m == map[]
  {
    if es != [] {
      assert Lookup(up, es, Fold(up, es[0].name)) == Some(es[0]);
    }
  }
}
