/**
 The C runtime's tables of a Windows environment, one of narrow strings and one of wide, beside the block:
 `_putenv` changes all that exist, and for ASCII strings they go on standing for one map.
 */
module EnvTables {
  import opened Options
  import opened EnvBlock

  const EINVAL := 22

  /** A table: `name=value` entries, each with its NUL. */
  type Table = seq<Units>

  // ------------------------------------------------------------------------------------------
  // Case
  // ------------------------------------------------------------------------------------------

  function Lower(c: int): int {
    if 0x41 <= c <= 0x5a then c + 0x20 else c
  }

  function Lowered(s: Units): Units {
    seq(|s|, i requires 0 <= i < |s| => Lower(s[i]))
  }

  /** Just the two cases of a letter are alike. */
  lemma LowerMeans(c: int, d: int)
    ensures Lower(c) == Lower(d) <==>
              || c == d
              || ('A' as int <= c <= 'Z' as int && d == c + ('a' as int - 'A' as int))
              || ('A' as int <= d <= 'Z' as int && c == d + ('a' as int - 'A' as int))
  {
  }

  predicate EqIgnoreCase(a: Units, b: Units) {
    |a| == |b| && forall i :: 0 <= i < |a| ==> Lower(a[i]) == Lower(b[i])
  }

  predicate Ascii(s: Units) {
    forall i :: 0 <= i < |s| ==> 0 < s[i] < 128
  }

  /** On ASCII, the block's upcasing tells the same units apart as the tables' lowercasing. */
  ghost predicate FoldsAscii(up: int -> int) {
    forall c, d :: 0 < c < 128 && 0 < d < 128 ==> (up(c) == up(d) <==> Lower(c) == Lower(d))
  }

  lemma LoweredEq(a: Units, b: Units)
    ensures EqIgnoreCase(a, b) <==> Lowered(a) == Lowered(b)
  {
    if EqIgnoreCase(a, b) {
      assert forall i :: 0 <= i < |a| ==> Lowered(a)[i] == Lowered(b)[i];
    }
    if Lowered(a) == Lowered(b) {
      forall i | 0 <= i < |a|
        ensures Lower(a[i]) == Lower(b[i])
      {
        assert Lowered(a)[i] == Lowered(b)[i];
      }
    }
  }

  lemma FoldedEq(up: int -> int, a: Units, b: Units)
    requires FoldsAscii(up) && Ascii(a) && Ascii(b)
    ensures Fold(up, a) == Fold(up, b) <==> Lowered(a) == Lowered(b)
  {
    if Lowered(a) == Lowered(b) {
      forall i | 0 <= i < |a|
        ensures Fold(up, a)[i] == Fold(up, b)[i]
      {
        assert Lowered(a)[i] == Lowered(b)[i];
      }
    }
    if Fold(up, a) == Fold(up, b) {
      forall i | 0 <= i < |a|
        ensures Lowered(a)[i] == Lowered(b)[i]
      {
        assert Fold(up, a)[i] == Fold(up, b)[i];
      }
    }
  }

  // ------------------------------------------------------------------------------------------
  // One table
  // ------------------------------------------------------------------------------------------

  predicate PlainName(name: Units) {
    name != [] && EQUALS !in name && Ascii(name)
  }

  predicate Plain(e: Entry) {
    PlainName(e.name) && Ascii(e.value)
  }

  function Rendered(es: seq<Entry>): Table {
    seq(|es|, i requires 0 <= i < |es| => Text(es[i]) + [NUL])
  }

  predicate Distinct(es: seq<Entry>) {
    forall i, j {:trigger es[i], es[j]} :: 0 <= i < j < |es| ==> Lowered(es[i].name) != Lowered(es[j].name)
  }

  /** The value of a lowercased name. */
  function ValueOf(es: seq<Entry>, key: Units): Option<Units> {
    if es == [] then None
    else if Lowered(es[0].name) == key then Some(es[0].value)
    else ValueOf(es[1..], key)
  }

  function Get(values: map<Units, Units>, key: Units): Option<Units> {
    if key in values then Some(values[key]) else None
  }

  /** The entries stand for the map. */
  ghost predicate Means(es: seq<Entry>, values: map<Units, Units>) {
    forall key :: ValueOf(es, key) == Get(values, key)
  }

  ghost predicate Stands(table: Table, es: seq<Entry>, values: map<Units, Units>) {
    && table == Rendered(es) && Distinct(es) && (forall i :: 0 <= i < |es| ==> Plain(es[i]))
    && Means(es, values)
  }

  /** The map after a put; an empty value removes the variable. */
  function Updated(values: map<Units, Units>, name: Units, value: Units): map<Units, Units> {
    if value == [] then values - {Lowered(name)} else values[Lowered(name) := value]
  }

  /** `_putenv`'s test for the entry of a name. */
  predicate Matches(entry: Units, name: Units) {
    && |entry| > |name| && EqIgnoreCase(entry[..|name|], name)
    && (entry[|name|] == EQUALS || entry[|name|] == NUL)
  }

  /** `getenv`'s test. */
  predicate Reads(entry: Units, name: Units) {
    && |entry| - 1 > |name| && entry[|name|] == EQUALS && EqIgnoreCase(entry[..|name|], name)
  }

  lemma NameEnds(e: Entry, name: Units)
    requires Plain(e) && PlainName(name)
    ensures Matches(Text(e) + [NUL], name) ==> |name| == |e.name|
  {
    var entry := Text(e) + [NUL];
    assert |name| < |e.name| ==> entry[|name|] == e.name[|name|];
    assert |e.name| < |name| < |entry| ==> entry[..|name|][|e.name|] == EQUALS && Lower(name[|e.name|]) != EQUALS;
  }

  /** Both find just the entry whose name is the same without regard to case. */
  lemma MatchesName(e: Entry, name: Units)
    requires Plain(e) && PlainName(name)
    ensures Matches(Text(e) + [NUL], name) <==> Lowered(e.name) == Lowered(name)
    ensures Reads(Text(e) + [NUL], name) <==> Lowered(e.name) == Lowered(name)
    ensures Lowered(e.name) == Lowered(name) ==> (Text(e) + [NUL])[|name| + 1..|Text(e)|] == e.value
  {
    ReadsPart(e, name);
    var entry := Text(e) + [NUL];
    LoweredEq(e.name, name);
    NameEnds(e, name);
    if |e.name| == |name| {
      assert entry[..|name|] == e.name && entry[|name|] == EQUALS;
    }
  }

  /** A name up to its first `=`. */
  function Stem(name: Units): Units {
    var equals := Position(name, EQUALS);
    if equals.None? then name else name[..equals.value]
  }

  /** What a name reads of the value its stem names: all of it, or, with `=` in the name, what follows the rest
      of the name and another `=`. */
  function PartRead(value: Units, name: Units): Option<Units> {
    var equals := Position(name, EQUALS);
    if equals.None? then Some(value)
    else
      var rest := name[equals.value + 1..];
      if |value| > |rest| && value[|rest|] == EQUALS && EqIgnoreCase(value[..|rest|], rest)
      then Some(value[|rest| + 1..])
      else None
  }

  /** What `getenv` finds under any name, empty or with `=` in it too. */
  function Getenv(values: map<Units, Units>, name: Units): Option<Units> {
    var value := Get(values, Lowered(Stem(name)));
    if value.None? then None else PartRead(value.value, name)
  }

  /** `getenv` takes an entry just when the stem is its name and the rest of the name begins its value. */
  lemma ReadsPart(e: Entry, name: Units)
    requires Plain(e)
    ensures Reads(Text(e) + [NUL], name) <==> Lowered(e.name) == Lowered(Stem(name)) && PartRead(e.value, name).Some?
    ensures Reads(Text(e) + [NUL], name) ==> (Text(e) + [NUL])[|name| + 1..|Text(e)|] == PartRead(e.value, name).value
  {
    var entry, k := Text(e) + [NUL], |e.name|;
    LoweredEq(e.name, Stem(name));
    if Reads(entry, name) {
      StemRead(e, name);
      assert entry[..|name|][..k] == e.name;
    }
    if EqIgnoreCase(e.name, Stem(name)) && PartRead(e.value, name).Some? {
      PartReads(e, name);
    }
  }

  lemma PartReads(e: Entry, name: Units)
    requires Plain(e) && EqIgnoreCase(e.name, Stem(name)) && PartRead(e.value, name).Some?
    ensures Reads(Text(e) + [NUL], name)
  {
    var entry, k := Text(e) + [NUL], |e.name|;
    forall i | 0 <= i < |name|
      ensures Lower(entry[i]) == Lower(name[i])
    {
      if i < k {
        assert Stem(name)[i] == name[i];
      } else if i > k {
        assert name[k + 1..][i - k - 1] == name[i] && e.value[..|name| - k - 1][i - k - 1] == entry[i];
      }
    }
  }

  lemma StemRead(e: Entry, name: Units)
    requires Plain(e) && Reads(Text(e) + [NUL], name)
    ensures |Stem(name)| == |e.name| <= |name|
  {
    var entry, k := Text(e) + [NUL], |e.name|;
    assert forall i :: 0 <= i < k ==> entry[..|name|][i] == e.name[i] != EQUALS;
    assert |name| > k ==> entry[..|name|][k] == EQUALS && Lower(name[k]) == EQUALS;
  }

  lemma {:induction false} ValueOver(xs: seq<Entry>, ys: seq<Entry>, key: Units)
    ensures ValueOf(xs + ys, key) == if ValueOf(xs, key).Some? then ValueOf(xs, key) else ValueOf(ys, key)
    decreases |xs|
  {
    if xs == [] {
      assert xs + ys == ys;
    } else {
      assert (xs + ys)[1..] == xs[1..] + ys;
      ValueOver(xs[1..], ys, key);
    }
  }

  lemma {:induction false} ValueNone(es: seq<Entry>, key: Units)
    requires forall i :: 0 <= i < |es| ==> Lowered(es[i].name) != key
    ensures ValueOf(es, key) == None
    decreases |es|
  {
    if es != [] {
      ValueNone(es[1..], key);
    }
  }

  /** With the names distinct, an entry's place does not matter to its value. */
  lemma ValueParts(es: seq<Entry>, at: int, key: Units)
    requires Distinct(es) && 0 <= at < |es|
    ensures var name := Lowered(es[at].name);
            var others := if ValueOf(es[..at], key).Some? then ValueOf(es[..at], key) else ValueOf(es[at + 1..], key);
            && (key == name ==> ValueOf(es, key) == Some(es[at].value) && others == None)
            && (key != name ==> ValueOf(es, key) == others)
  {
    Parts(es, at);
    ValueOver(es[..at], [es[at]] + es[at + 1..], key);
    ValueOver([es[at]], es[at + 1..], key);
    if key == Lowered(es[at].name) {
      ValueNone(es[..at], key);
      ValueNone(es[at + 1..], key);
    }
  }

  /** The first entry of a name in a table. */
  method Find(table: Table, name: Units, ghost es: seq<Entry>, ghost values: map<Units, Units>)
    returns (at: Option<nat>)
    requires Stands(table, es, values) && PlainName(name)
    ensures at.Some? ==> at.value < |es| && Lowered(es[at.value].name) == Lowered(name)
    ensures at.Some? <==> Lowered(name) in values
  {
    var i := 0;
    while i < |table|
      invariant 0 <= i <= |table|
      invariant forall j :: 0 <= j < i ==> Lowered(es[j].name) != Lowered(name)
    {
      MatchesName(es[i], name);
      if Matches(table[i], name) {
        ValueParts(es, i, Lowered(name));
        return Some(i);
      }
      i := i + 1;
    }
    ValueNone(es, Lowered(name));
    at := None;
  }

  /** The value `getenv_s` copies out. */
  method ReadValue(table: Table, name: Units, ghost es: seq<Entry>, ghost values: map<Units, Units>)
    returns (value: Option<Units>)
    requires Stands(table, es, values)
    ensures value == Getenv(values, name)
  {
    ghost var key := Lowered(Stem(name));
    var i := 0;
    while i < |table|
      invariant 0 <= i <= |table|
      invariant forall j :: 0 <= j < i && Lowered(es[j].name) == key ==> PartRead(es[j].value, name).None?
    {
      ReadsPart(es[i], name);
      if Reads(table[i], name) {
        ValueParts(es, i, key);
        return Some(table[i][|name| + 1..|table[i]| - 1]);
      }
      i := i + 1;
    }
    ValueUnread(es, name);
    value := None;
  }

  lemma {:induction false} ValueUnread(es: seq<Entry>, name: Units)
    requires forall j :: 0 <= j < |es| && Lowered(es[j].name) == Lowered(Stem(name)) ==>
               PartRead(es[j].value, name).None?
    ensures var value := ValueOf(es, Lowered(Stem(name))); value.Some? ==> PartRead(value.value, name).None?
    decreases |es|
  {
    if es != [] {
      ValueUnread(es[1..], name);
    }
  }

  lemma Removed(es: seq<Entry>, at: int, values: map<Units, Units>)
    requires 0 <= at < |es| && Stands(Rendered(es), es, values)
    ensures Stands(Rendered(es)[..at] + Rendered(es)[at + 1..], es[..at] + es[at + 1..],
                   values - {Lowered(es[at].name)})
  {
    var after, values' := es[..at] + es[at + 1..], values - {Lowered(es[at].name)};
    assert Rendered(es)[..at] + Rendered(es)[at + 1..] == Rendered(after);
    forall key
      ensures ValueOf(after, key) == Get(values', key)
    {
      ValueParts(es, at, key);
      ValueOver(es[..at], es[at + 1..], key);
    }
  }

  lemma Replaced(es: seq<Entry>, at: int, e: Entry, values: map<Units, Units>)
    requires 0 <= at < |es| && Stands(Rendered(es), es, values) && Plain(e) && Lowered(e.name) == Lowered(es[at].name)
    ensures Stands(Rendered(es)[at := Text(e) + [NUL]], es[at := e], values[Lowered(e.name) := e.value])
  {
    var after, values' := es[at := e], values[Lowered(e.name) := e.value];
    assert Rendered(es)[at := Text(e) + [NUL]] == Rendered(after);
    assert after[..at] == es[..at] && after[at + 1..] == es[at + 1..];
    forall key
      ensures ValueOf(after, key) == Get(values', key)
    {
      ValueParts(es, at, key);
      ValueParts(after, at, key);
    }
  }

  lemma Pushed(es: seq<Entry>, e: Entry, values: map<Units, Units>)
    requires Stands(Rendered(es), es, values) && Plain(e) && Lowered(e.name) !in values
    ensures Stands(Rendered(es) + [Text(e) + [NUL]], es + [e], values[Lowered(e.name) := e.value])
  {
    var after, values' := es + [e], values[Lowered(e.name) := e.value];
    assert Rendered(es) + [Text(e) + [NUL]] == Rendered(after);
    forall i | 0 <= i < |es|
      ensures Lowered(es[i].name) != Lowered(e.name)
    {
      ValueParts(es, i, Lowered(es[i].name));
    }
    forall key
      ensures ValueOf(after, key) == Get(values', key)
    {
      ValueOver(es, [e], key);
    }
  }

  /** Changes one table as `_putenv` does: whether it changed. */
  method PutTable(table: Table, name: Units, value: Units, ghost es: seq<Entry>, ghost values: map<Units, Units>)
    returns (table': Table, changed: bool, ghost es': seq<Entry>)
    requires Stands(table, es, values) && PlainName(name) && Ascii(value)
    ensures changed <==> !(value == [] && Lowered(name) !in values)
    ensures Stands(table', es', Updated(values, name, value))
  {
    var option := name + [EQUALS] + value + [NUL];
    var found := Find(table, name, es, values);
    match (found, value == [])
    case (Some(at), true) =>
      Removed(es, at, values);
      return table[..at] + table[at + 1..], true, es[..at] + es[at + 1..];
    case (Some(at), false) =>
      Replaced(es, at, Entry(name, value), values);
      return table[at := option], true, es[at := Entry(name, value)];
    case (None, true) =>
      assert values - {Lowered(name)} == values;
      return table, false, es;
    case (None, false) =>
      Pushed(es, Entry(name, value), values);
      return table + [option], true, es + [Entry(name, value)];
  }

  // ------------------------------------------------------------------------------------------
  // The block beside the tables
  // ------------------------------------------------------------------------------------------

  /** The entries the tables copy: names that begin with `=` are left out. */
  function PlainOnes(es: seq<Entry>): seq<Entry> {
    if es == [] then []
    else (if Text(es[0])[0] != EQUALS then [es[0]] else []) + PlainOnes(es[1..])
  }

  predicate AllAscii(es: seq<Entry>) {
    forall i :: 0 <= i < |es| ==> ValidName(es[i].name) && Ascii(es[i].name) && Ascii(es[i].value)
  }

  ghost predicate BlockMeans(es: seq<Entry>, values: map<Units, Units>) {
    AllAscii(es) && Means(PlainOnes(es), values)
  }

  lemma PlainFirst(e: Entry)
    requires ValidName(e.name) && Ascii(e.name)
    ensures Text(e)[0] != EQUALS <==> PlainName(e.name)
  {
  }

  lemma LowerEquals(a: Units, b: Units)
    requires Lowered(a) == Lowered(b) && ValidName(a) && Ascii(a) && PlainName(b)
    ensures PlainName(a)
  {
    LoweredEq(a, b);
    assert Lower(a[0]) == Lower(b[0]) && b[0] != EQUALS;
    assert a == [a[0]] + a[1..];
  }

  /** The block and the tables look a name up alike. */
  lemma {:induction false} SameLookup(up: int -> int, es: seq<Entry>, name: Units)
    requires FoldsAscii(up) && AllAscii(es) && PlainName(name)
    ensures var found := Lookup(up, es, Fold(up, name));
            ValueOf(PlainOnes(es), Lowered(name)) == if found.Some? then Some(found.value.value) else None
    decreases |es|
  {
    if es != [] {
      FoldedEq(up, es[0].name, name);
      PlainFirst(es[0]);
      if Lowered(es[0].name) == Lowered(name) {
        LowerEquals(es[0].name, name);
      }
      SameLookup(up, es[1..], name);
      if PlainName(es[0].name) {
        ValueOver([es[0]], PlainOnes(es[1..]), Lowered(name));
      } else {
        assert [] + PlainOnes(es[1..]) == PlainOnes(es[1..]);
      }
    }
  }

  lemma {:induction false} PlainMember(es: seq<Entry>, i: int) returns (j: int)
    requires AllAscii(es) && 0 <= i < |PlainOnes(es)|
    ensures 0 <= j < |es| && PlainOnes(es)[i] == es[j] && Plain(es[j])
    decreases |es|
  {
    PlainFirst(es[0]);
    if PlainName(es[0].name) && i == 0 {
      j := 0;
    } else {
      j := PlainMember(es[1..], if PlainName(es[0].name) then i - 1 else i);
      j := j + 1;
    }
  }

  lemma {:induction false} PlainDistinct(up: int -> int, es: seq<Entry>)
    requires FoldsAscii(up) && AllAscii(es) && Sorted(up, es)
    ensures Distinct(PlainOnes(es)) && forall i :: 0 <= i < |PlainOnes(es)| ==> Plain(PlainOnes(es)[i])
    decreases |es|
  {
    if es != [] {
      PlainDistinct(up, es[1..]);
      PlainFirst(es[0]);
      forall i | 0 <= i < |PlainOnes(es[1..])|
        ensures Lowered(PlainOnes(es[1..])[i].name) != Lowered(es[0].name)
      {
        var j := PlainMember(es[1..], i);
        FoldedEq(up, es[0].name, es[j + 1].name);
        CompareEqual(Fold(up, es[0].name), Fold(up, es[j + 1].name));
      }
    }
  }

  /** A key no plain name lowers to is in nothing. */
  lemma {:induction false} OnlyLowered(es: seq<Entry>, key: Units)
    requires (forall i :: 0 <= i < |es| ==> Plain(es[i])) && ValueOf(es, key).Some?
    ensures PlainName(key) && Lowered(key) == key
    decreases |es|
  {
    if Lowered(es[0].name) == key {
      assert forall i :: 0 <= i < |key| ==> key[i] == Lower(es[0].name[i]);
    } else {
      OnlyLowered(es[1..], key);
    }
  }

  /** Setting a plain name in the block changes the map as a put does. */
  lemma SetMeans(up: int -> int, es: seq<Entry>, name: Units, value: Units, values: map<Units, Units>)
    requires FoldsAscii(up) && Proper(up, es) && BlockMeans(es, values)
    requires PlainName(name) && Ascii(value)
    ensures BlockMeans(SetEntry(up, es, name, if value == [] then None else Some(value)), Updated(values, name, value))
  {
    var put := if value == [] then None else Some(value);
    var after, values' := SetEntry(up, es, name, put), Updated(values, name, value);
    SetAscii(up, es, name, put);
    SetSorted(up, es, name, put);
    PlainDistinct(up, after);
    PlainDistinct(up, es);
    forall key
      ensures ValueOf(PlainOnes(after), key) == Get(values', key)
    {
      if PlainName(key) && Lowered(key) == key {
        SameLookup(up, after, key);
        SameLookup(up, es, key);
        FoldedEq(up, key, name);
        SetLookup(up, es, name, put, Fold(up, key));
      } else {
        NotLowered(es, after, key);
        LoweredPlain(name);
      }
    }
  }

  lemma NotLowered(es: seq<Entry>, after: seq<Entry>, key: Units)
    requires !(PlainName(key) && Lowered(key) == key)
    requires forall i :: 0 <= i < |PlainOnes(es)| ==> Plain(PlainOnes(es)[i])
    requires forall i :: 0 <= i < |PlainOnes(after)| ==> Plain(PlainOnes(after)[i])
    ensures ValueOf(PlainOnes(es), key) == None && ValueOf(PlainOnes(after), key) == None
  {
    if ValueOf(PlainOnes(es), key).Some? {
      OnlyLowered(PlainOnes(es), key);
    }
    if ValueOf(PlainOnes(after), key).Some? {
      OnlyLowered(PlainOnes(after), key);
    }
  }

  lemma LoweredPlain(name: Units)
    requires PlainName(name)
    ensures PlainName(Lowered(name)) && Lowered(Lowered(name)) == Lowered(name)
  {
  }

  lemma SetAscii(up: int -> int, es: seq<Entry>, name: Units, value: Option<Units>)
    requires AllAscii(es) && ValidName(name) && Ascii(name) && (value.Some? ==> Ascii(value.value))
    ensures AllAscii(SetEntry(up, es, name, value))
  {
  }

  /** The entries of the block, as a table starts out. */
  method CopyTable(up: int -> int, block: Units, ghost es: seq<Entry>) returns (table: Table)
    requires block == Flat(es) && Proper(up, es)
    ensures table == Rendered(PlainOnes(es))
  {
    table := [];
    var start := 0;
    ghost var k := 0;
    assert es[..0] == [] && es[0..] == es;
    while start < |block|
      invariant 0 <= k <= |es| && start == |Flat(es[..k])| <= |block|
      invariant Copied(table, es, k)
      decreases |block| - start
    {
      NotPast(es, k);
      EntryAt(es, k);
      var entry := EntryFrom(block, start);
      CopyNext(table, es, k);
      if entry[0] != EQUALS {
        table := table + [entry + [NUL]];
      }
      start := start + |entry| + 1;
      k := k + 1;
    }
    Exhausted(es, k);
    assert es[k..] == [];
  }

  /** The table holds the entries up to `k`, and lacks those from there. */
  predicate Copied(table: Table, es: seq<Entry>, k: int)
    requires 0 <= k <= |es|
  {
    table + Rendered(PlainOnes(es[k..])) == Rendered(PlainOnes(es))
  }

  lemma CopyNext(table: Table, es: seq<Entry>, k: int)
    requires 0 <= k < |es| && Copied(table, es, k)
    ensures Copied(if Text(es[k])[0] != EQUALS then table + [Text(es[k]) + [NUL]] else table, es, k + 1)
  {
  }

  /** A fresh copy stands for what the block does. */
  lemma CopyStands(up: int -> int, es: seq<Entry>, values: map<Units, Units>)
    requires FoldsAscii(up) && Sorted(up, es) && BlockMeans(es, values)
    ensures Stands(Rendered(PlainOnes(es)), PlainOnes(es), values)
  {
    PlainDistinct(up, es);
  }

  function ValuesOf(es: seq<Entry>): map<Units, Units> {
    if es == [] then map[] else ValuesOf(es[1..])[Lowered(es[0].name) := es[0].value]
  }

  lemma {:induction false} ValuesMeant(es: seq<Entry>, key: Units)
    ensures ValueOf(es, key) == Get(ValuesOf(es), key)
    decreases |es|
  {
    if es != [] {
      ValuesMeant(es[1..], key);
    }
  }

  lemma CopyMeant(es: seq<Entry>)
    requires AllAscii(es)
    ensures BlockMeans(es, ValuesOf(PlainOnes(es)))
  {
    forall key
      ensures ValueOf(PlainOnes(es), key) == Get(ValuesOf(PlainOnes(es)), key)
    {
      ValuesMeant(PlainOnes(es), key);
    }
  }

  /** The map `vars` leave, as the tables see it. */
  function Initial(up: int -> int, vars: seq<Entry>): map<Units, Units> {
    ValuesOf(PlainOnes(After(up, Updates(vars))))
  }

  /** It has the value last set for every name, whatever the case. */
  lemma InitialMeans(up: int -> int, vars: seq<Entry>, name: Units)
    requires FoldsAscii(up) && AllAscii(vars) && PlainName(name)
    ensures var m, key := Meant(up, Updates(vars)), Fold(up, name);
            Get(Initial(up, vars), Lowered(name)) == if key in m then Some(m[key].value) else None
  {
    var es := After(up, Updates(vars));
    UpdatesValid(vars);
    AfterMeans(up, Updates(vars));
    AfterAscii(up, vars, |vars|);
    assert Updates(vars)[..|vars|] == Updates(vars);
    SameLookup(up, es, name);
    ValuesMeant(PlainOnes(es), Lowered(name));
    assert Lookup(up, es, Fold(up, name)).Some? <==> Fold(up, name) in Meant(up, Updates(vars));
  }

  lemma {:induction false} AfterAscii(up: int -> int, vars: seq<Entry>, n: int)
    requires AllAscii(vars) && 0 <= n <= |vars|
    ensures AllAscii(After(up, Updates(vars)[..n]))
    decreases n
  {
    if n > 0 {
      AfterAscii(up, vars, n - 1);
      AfterNext(up, Updates(vars), n - 1);
      SetAscii(up, After(up, Updates(vars)[..n - 1]), vars[n - 1].name, Some(vars[n - 1].value));
    }
  }

  function Updates(vars: seq<Entry>): seq<Update> {
    seq(|vars|, i requires 0 <= i < |vars| => Update(vars[i].name, Some(vars[i].value)))
  }

  lemma UpdatesValid(vars: seq<Entry>)
    requires AllAscii(vars)
    ensures NulFree(Updates(vars))
  {
  }

  /** A block holding `vars`, set in order. */
  method Fill(up: int -> int, vars: seq<Entry>) returns (state: State)
    requires AllAscii(vars)
    ensures fresh(state) && state.Valid() && state.up == up && AllAscii(state.entries)
    ensures state.entries == After(up, Updates(vars))
  {
    state := new State(up);
    var i := 0;
    while i < |vars|
      invariant 0 <= i <= |vars| && fresh(state) && state.Valid() && state.up == up
      invariant state.entries == After(up, Updates(vars)[..i])
    {
      var _ := state.Set(vars[i].name, Some(vars[i].value));
      AfterNext(up, Updates(vars), i);
      i := i + 1;
    }
    assert Updates(vars)[..i] == Updates(vars);
    AfterAscii(up, vars, i);
  }

  // ------------------------------------------------------------------------------------------
  // The environment
  // ------------------------------------------------------------------------------------------

  class WinEnv {
    const state: State
    var narrow: Table
    var wide: Option<Table>
    ghost var values: map<Units, Units>
    ghost var narrowEntries: seq<Entry>
    ghost var wideEntries: seq<Entry>

    /** The block and the tables that exist all stand for one map. */
    ghost predicate Valid()
      reads this, state
    {
      && state.Valid() && FoldsAscii(state.up) && BlockMeans(state.entries, values)
      && Stands(narrow, narrowEntries, values)
      && (wide.Some? ==> Stands(wide.value, wideEntries, values))
    }

    /** An environment holding `vars`, set in order. */
    constructor (up: int -> int, vars: seq<Entry>)
      requires FoldsAscii(up) && AllAscii(vars)
      ensures Valid() && fresh(state) && values == Initial(up, vars)
    {
      var filled := Fill(up, vars);
      state := filled;
      narrow, wide, values, narrowEntries, wideEntries := [], None, map[], [], [];
      new;
      narrow := CopyTable(up, state.block, state.entries);
      narrowEntries := PlainOnes(state.entries);
      values := ValuesOf(narrowEntries);
      CopyMeant(state.entries);
      CopyStands(up, state.entries, values);
    }

    /** The wide table, copied from the block the first time it is used. */
    method UseWide()
      requires Valid()
      modifies this`wide, this`wideEntries
      ensures Valid() && wide.Some? && (old(wide).Some? ==> wide == old(wide))
    {
      if wide.None? {
        CopyStands(state.up, state.entries, values);
        var table := CopyTable(state.up, state.block, state.entries);
        wide, wideEntries := Some(table), PlainOnes(state.entries);
      }
    }

    /** `getenv_s` or `_wgetenv_s`: the last value put under the name, whichever way, or, for a name with `=`
        in it, part of the value of its stem. */
    method CrtValue(useWide: bool, name: Units) returns (value: Option<Units>)
      requires Valid()
      modifies this`wide, this`wideEntries
      ensures Valid() && value == Getenv(values, name)
      ensures EQUALS !in name ==> value == Get(values, Lowered(name))
      ensures if useWide then wide.Some? else wide == old(wide)
    {
      if useWide {
        UseWide();
        value := ReadValue(wide.value, name, wideEntries, values);
      } else {
        value := ReadValue(narrow, name, narrowEntries, values);
      }
    }

    /** The block change of a put. */
    method SetBlock(name: Units, value: Units)
      requires state.Valid() && FoldsAscii(state.up) && BlockMeans(state.entries, values) && PlainName(name)
               && Ascii(value)
      modifies state
      ensures state.Valid() && BlockMeans(state.entries, Updated(values, name, value))
    {
      ghost var before := state.entries;
      var put := if value == [] then None else Some(value);
      assert name == [name[0]] + name[1..];
      var _ := state.Set(name, put);
      SetMeans(state.up, before, name, value, values);
    }

    /** `_putenv` or `_wputenv`: the table of the option's width changes, then the block, then the other
        table if there is one. Removing a name that is not there changes none of them, though a first wide
        put makes the wide table. */
    method CrtPut(useWide: bool, option: Units) returns (result: Result)
      requires Valid() && Ascii(option)
      modifies this, state
      ensures Valid()
      ensures var equals := Position(option, EQUALS);
              if equals.None? || equals.value == 0 then
                && result == Failed(EINVAL) && values == old(values)
                && state.block == old(state.block) && narrow == old(narrow) && wide == old(wide)
              else
                var name, value := option[..equals.value], option[equals.value + 1..];
                && result == Done && values == Updated(old(values), name, value)
                && (wide.Some? <==> useWide || old(wide).Some?)
                && (value == [] && Lowered(name) !in old(values) ==>
                      && state.block == old(state.block) && narrow == old(narrow)
                      && (!useWide || old(wide).Some? ==> wide == old(wide)))
    {
      var equals := Position(option, EQUALS);
      if equals.None? || equals.value == 0 {
        return Failed(EINVAL);
      }
      var name, value := option[..equals.value], option[equals.value + 1..];
      var changed;
      ghost var values' := Updated(values, name, value);
      result := Done;
      if useWide {
        UseWide();
        var table;
        ghost var es;
        table, changed, es := PutTable(wide.value, name, value, wideEntries, values);
        if changed {
          FinishWide(name, value, table, es);
        } else {
          assert values' == values;
        }
      } else {
        var table;
        ghost var es;
        table, changed, es := PutTable(narrow, name, value, narrowEntries, values);
        if changed {
          FinishNarrow(name, value, table, es);
        } else {
          assert values' == values;
        }
      }
    }

    /** The rest of a put that changed the wide table. */
    method FinishWide(name: Units, value: Units, table: Table, ghost es: seq<Entry>)
      requires Valid() && PlainName(name) && Ascii(value) && Stands(table, es, Updated(values, name, value))
      modifies this, state
      ensures Valid() && values == Updated(old(values), name, value) && wide.Some?
    {
      SetBlock(name, value);
      var changed;
      narrow, changed, narrowEntries := PutTable(narrow, name, value, narrowEntries, values);
      values, wide, wideEntries := Updated(values, name, value), Some(table), es;
    }

    /** The rest of a put that changed the narrow table. */
    method FinishNarrow(name: Units, value: Units, table: Table, ghost es: seq<Entry>)
      requires Valid() && PlainName(name) && Ascii(value) && Stands(table, es, Updated(values, name, value))
      modifies this, state
      ensures Valid() && values == Updated(old(values), name, value) && (wide.Some? <==> old(wide).Some?)
    {
      SetBlock(name, value);
      if wide.Some? {
        var other, changed;
        other, changed, wideEntries := PutTable(wide.value, name, value, wideEntries, values);
        wide := Some(other);
      }
      values, narrow, narrowEntries := Updated(values, name, value), table, es;
    }
  }

  // ------------------------------------------------------------------------------------------
  // Whole runs
  // ------------------------------------------------------------------------------------------

  datatype Call = Put(useWide: bool, option: Units) | Value(useWide: bool, name: Units)

  predicate AsciiCall(c: Call) {
    c.Put? ==> Ascii(c.option)
  }

  /** The map after a call. */
  function AfterCall(values: map<Units, Units>, c: Call): map<Units, Units> {
    if c.Value? then values
    else
      var equals := Position(c.option, EQUALS);
      if equals.None? || equals.value == 0 then values
      else Updated(values, c.option[..equals.value], c.option[equals.value + 1..])
  }

  function Answer(values: map<Units, Units>, c: Call): seq<Option<Units>> {
    if c.Value? then [Getenv(values, c.name)] else []
  }

  /** What the reads among the calls find. */
  function Answers(values: map<Units, Units>, calls: seq<Call>): seq<Option<Units>>
    decreases |calls|
  {
    if calls == [] then [] else Answer(values, calls[0]) + Answers(AfterCall(values, calls[0]), calls[1..])
  }

  method Apply(env: WinEnv, c: Call) returns (answer: seq<Option<Units>>)
    requires env.Valid() && AsciiCall(c)
    modifies env, env.state
    ensures env.Valid() && env.values == AfterCall(old(env.values), c) && answer == Answer(old(env.values), c)
  {
    answer := [];
    if c.Put? {
      var _ := env.CrtPut(c.useWide, c.option);
    } else {
      var value := env.CrtValue(c.useWide, c.name);
      answer := [value];
    }
  }

  /** Narrow and wide puts and reads, in any order, read and write one case-insensitive map, which starts as
      the environment does. */
  method Run(up: int -> int, vars: seq<Entry>, calls: seq<Call>) returns (answers: seq<Option<Units>>)
    requires FoldsAscii(up) && AllAscii(vars) && forall i :: 0 <= i < |calls| ==> AsciiCall(calls[i])
    ensures answers == Answers(Initial(up, vars), calls)
  {
    var env := new WinEnv(up, vars);
    answers := RunCalls(env, calls);
  }

  method RunCalls(env: WinEnv, calls: seq<Call>) returns (answers: seq<Option<Units>>)
    requires env.Valid() && forall i :: 0 <= i < |calls| ==> AsciiCall(calls[i])
    modifies env, env.state
    ensures env.Valid() && answers == Answers(old(env.values), calls)
  {
    answers := [];
    var i := 0;
    while i < |calls|
      invariant 0 <= i <= |calls| && env.Valid()
      invariant answers + Answers(env.values, calls[i..]) == Answers(old(env.values), calls)
    {
      assert calls[i..][1..] == calls[i + 1..];
      var answer := Apply(env, calls[i]);
      Regroup(answers, answer, Answers(env.values, calls[i + 1..]));
      answers := answers + answer;
      i := i + 1;
    }
  }
}
