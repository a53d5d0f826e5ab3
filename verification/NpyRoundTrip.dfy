/** Parsing a written header gives the header back. */
module NpyRoundTrip {
  import opened MmuTypes
  import opened NpyText
  import opened NpyHeader
  import Globs

  /** A value text: no quotes, no colon, tight. */
  predicate Plain(s: string) {
    Tight(s) && '\'' !in s && ':' !in s
  }

  lemma DescrPlain(d: Dtype)
    requires IsByteorder(d.byteorder) && IsKind(d.kind)
    ensures Plain(DtypeStr(d)) && |DtypeStr(d)| >= 3 && IsByteorder(DtypeStr(d)[0])
  {
    var s := DtypeStr(d);
    assert AllDigits(Decimal(d.itemsize));
    assert forall i :: 2 <= i < |s| ==> IsDigit(s[i]);
  }

  predicate IsTupleChar(c: char) {
    IsDigit(c) || c == ',' || c == ' ' || c == '(' || c == ')'
  }

  lemma {:induction false} ItemsChars(v: seq<nat>)
    requires v != []
    ensures forall i :: 0 <= i < |WriteItems(v)| ==> IsTupleChar(WriteItems(v)[i])
    ensures WriteItems(v) != []
  {
    assert AllDigits(Decimal(v[0]));
    if |v| > 1 {
      ItemsChars(v[1..]);
    }
  }

  lemma TuplePlain(v: seq<nat>)
    ensures Plain(WriteTuple(v)) && Wrapped(WriteTuple(v), '(', ')')
  {
    if v != [] {
      ItemsChars(v);
      assert AllDigits(Decimal(v[0]));
    }
    var s := WriteTuple(v);
    assert forall i :: 0 <= i < |s| ==> IsTupleChar(s[i]);
  }

  /** The items of a written tuple as separated by commas alone. */
  function Items(v: seq<nat>): seq<string>
    requires v != []
  {
    if |v| == 1 then [Decimal(v[0])] else [Decimal(v[0])] + Spaced(v[1..])
  }

  function Spaced(v: seq<nat>): seq<string> {
    if v == [] then [] else [" " + Decimal(v[0])] + Spaced(v[1..])
  }

  lemma {:induction false} SpacedLaws(v: seq<nat>)
    ensures |Spaced(v)| == |v|
    ensures forall i :: 0 <= i < |v| ==> Spaced(v)[i] == " " + Decimal(v[i])
  {
    if v != [] {
      SpacedLaws(v[1..]);
    }
  }

  lemma ItemsLaws(v: seq<nat>)
    requires v != []
    ensures |Items(v)| == |v|
    ensures forall i :: 0 <= i < |v| ==> Items(v)[i] == Decimal(v[i]) || Items(v)[i] == " " + Decimal(v[i])
    ensures forall i :: 0 <= i < |v| ==> Items(v)[i] != [] && ',' !in Items(v)[i]
  {
    SpacedLaws(v[1..]);
    forall i | 0 <= i < |v|
      ensures Items(v)[i] == Decimal(v[i]) || Items(v)[i] == " " + Decimal(v[i])
      ensures Items(v)[i] != [] && ',' !in Items(v)[i]
    {
      assert AllDigits(Decimal(v[i]));
      NoComma(Decimal(v[i]));
      assert i > 0 ==> Items(v)[i] == Spaced(v[1..])[i - 1] == " " + Decimal(v[i]);
    }
  }

  lemma NoComma(s: string)
    requires AllDigits(s)
    ensures ',' !in s && ',' !in " " + s
  {
  }

  /** `", "` as separator is `","` as separator before items with a leading space. */
  lemma {:induction false} ItemsJoined(v: seq<nat>)
    requires v != []
    ensures WriteItems(v) == Globs.Join(Items(v), ',')
    ensures " " + WriteItems(v) == Globs.Join(Spaced(v), ',')
  {
    hide Decimal, Globs.Join;
    var first := Decimal(v[0]);
    if |v| == 1 {
      assert Spaced(v[1..]) == [];
      assert Spaced(v) == [" " + first];
      Globs.JoinOne(first, ',');
      Globs.JoinOne(" " + first, ',');
    } else {
      ItemsJoined(v[1..]);
      SpacedLaws(v[1..]);
      Globs.JoinCons(first, Spaced(v[1..]), ',');
      Globs.JoinCons(" " + first, Spaced(v[1..]), ',');
      CommaSpace(first, WriteItems(v[1..]));
    }
  }

  lemma CommaSpace(first: string, rest: string)
    ensures first + ", " + rest == first + [','] + (" " + rest)
    ensures " " + (first + ", " + rest) == " " + first + [','] + (" " + rest)
  {
  }

  lemma TupleTokens(v: seq<nat>)
    ensures TupleOf(WriteTuple(v)) == Success(if v == [] then [] else Items(v))
  {
    var s := WriteTuple(v);
    TuplePlain(v);
    assert s == "" + s + "";
    TrimKeeps("", s, "");
    if v == [] {
      assert Unwrap("()") == "";
    } else {
      ItemsLaws(v);
      if |v| == 1 {
        assert s == "(" + (Decimal(v[0]) + ",") + ")";
        assert Unwrap(s) == Decimal(v[0]) + ",";
        OneToken(Decimal(v[0]));
      } else {
        assert Unwrap(s) == WriteItems(v);
        ItemsJoined(v);
        Globs.SplitJoin(Items(v), ',');
        assert Globs.Split(Unwrap(s), ',') == Items(v);
      }
    }
  }

  lemma OneToken(item: string)
    requires ',' !in item && item != []
    ensures Tokens(item + ",", ',') == [item]
  {
    var s := item + ",";
    assert s[..|item|] == item;
    Globs.SplitAt(s, ',', |item|);
    assert s[|item| + 1..] == [];
    assert Globs.Split(s, ',') == [item] + [[]];
  }

  lemma {:induction false} DimsRead(v: seq<nat>, items: seq<string>)
    requires |items| == |v|
    requires forall i :: 0 <= i < |v| ==> v[i] < UINT64_RANGE && (items[i] == Decimal(v[i]) || items[i] == " " + Decimal(v[i]))
    ensures DimsOf(items) == Success(v)
  {
    hide Stoul, Decimal;
    if v != [] {
      var last := |v| - 1;
      DimsRead(v[..last], items[..last]);
      StoulReadsDecimal(v[last], items[last]);
      assert v == v[..last] + [v[last]];
    }
  }

  lemma ShapeRoundTrip(v: seq<nat>)
    requires forall i :: 0 <= i < |v| ==> v[i] < UINT64_RANGE
    ensures TupleOf(WriteTuple(v)).Success? && DimsOf(TupleOf(WriteTuple(v)).value) == Success(v)
  {
    TupleTokens(v);
    if v == [] {
      assert DimsOf([]) == Success([]);
    } else {
      ItemsLaws(v);
      DimsRead(v, Items(v));
    }
  }

  /** An entry `'key': value` yields its value, whatever quotes surround it. */
  lemma EntryValue(key: string, value: string)
    requires ':' !in key && Tight(value)
    ensures ValueOf(Quoted(key) + ": " + value) == value
  {
    var entry := Quoted(key) + ": " + value;
    var rest := ": " + value;
    assert entry == Quoted(key) + rest;
    FindCharAfter(Quoted(key), rest, ':');
    assert entry[|Quoted(key)| + 1..] == " " + value + "";
    TrimKeeps(" ", value, "");
  }

  /** Trimming an entry and dropping its comma. */
  lemma EntryTrimmed(entry: string)
    requires Tight(entry)
    ensures var raw := Trim(entry + ", ");
      raw == entry + "," && raw[..|raw| - 1] == entry
  {
    var s := entry + ",";
    assert entry + ", " == "" + s + " ";
    TrimKeeps("", s, " ");
  }

  /** An entry of a written dictionary. */
  function EntryOf(key: string, value: string): string {
    Quoted(key) + ": " + value
  }

  lemma EntryTight(key: string, value: string)
    requires Tight(value)
    ensures Tight(EntryOf(key, value))
  {
  }

  /** Entry `i` of a text made of entries. */
  lemma EntryRead(text: string, ps: seq<(nat, string)>, i: nat, entry: string)
    requires i < |ps| && Tight(entry) && ps[i].0 + |entry + ", "| <= |text|
    requires text[ps[i].0..ps[i].0 + |entry + ", "|] == entry + ", "
    requires if i + 1 < |ps| then ps[i + 1].0 == ps[i].0 + |entry + ", "| else |text| == ps[i].0 + |entry + ", "|
    ensures EntryText(text, ps, i) == entry
  {
    hide Trim, Tight;
    EntryTrimmed(entry);
    assert (entry + ",")[|entry|] == ',';
  }

  /** A key and the text of its value. */
  type Pair = (string, string)

  /** The text of a dictionary between its braces: every entry is followed by a comma and a space. */
  function Text(es: seq<Pair>): string {
    if es == [] then ""
    else Text(es[..|es| - 1]) + (EntryOf(es[|es| - 1].0, es[|es| - 1].1) + ", ")
  }

  /** Where entry `i` starts. */
  function Offset(es: seq<Pair>, i: nat): nat
    requires i <= |es|
  {
    |Text(es[..i])|
  }

  lemma TextLast(es: seq<Pair>, e: Pair)
    ensures Text(es + [e]) == Text(es) + (EntryOf(e.0, e.1) + ", ")
  {
    assert (es + [e])[..|es|] == es;
  }

  lemma {:induction false} TextSplit(es: seq<Pair>, i: nat) returns (rest: string)
    requires i < |es|
    ensures Text(es) == Text(es[..i]) + ((EntryOf(es[i].0, es[i].1) + ", ") + rest)
    ensures i == |es| - 1 ==> rest == ""
    ensures Offset(es, i + 1) == Offset(es, i) + |EntryOf(es[i].0, es[i].1) + ", "|
  {
    hide EntryOf;
    assert es[..i + 1] == es[..i] + [es[i]];
    TextLast(es[..i], es[i]);
    if i == |es| - 1 {
      rest := "";
      assert es == es[..i + 1];
      assert (EntryOf(es[i].0, es[i].1) + ", ") + "" == EntryOf(es[i].0, es[i].1) + ", ";
    } else {
      var last := |es| - 1;
      var before := TextSplit(es[..last], i);
      assert es[..last][..i] == es[..i];
      rest := before + (EntryOf(es[last].0, es[last].1) + ", ");
      Regroup(Text(es[..i]), EntryOf(es[i].0, es[i].1) + ", ", before, EntryOf(es[last].0, es[last].1) + ", ");
    }
  }

  lemma Regroup(a: string, b: string, c: string, d: string)
    ensures a + (b + c) + d == a + (b + (c + d))
  {
  }

  lemma QuoteFree(s: string, b: char)
    requires '\'' !in s
    ensures NoPair(s, '\'', b)
  {
  }

  /** In the value and the comma after it no quote is followed by `b`. */
  predicate Quiet(value: string, b: char) {
    NoPair(value + ",", '\'', b)
  }

  /** A key that starts with another character and a quiet value. */
  predicate Harmless(e: Pair, b: char) {
    e.0 != [] && '\'' !in e.0 && e.0[0] != b && Tight(e.1) && Quiet(e.1, b)
  }

  lemma EntryQuotes(e: Pair, b: char)
    requires Harmless(e, b) && b != ':'
    ensures NoPair(EntryOf(e.0, e.1) + ", '", '\'', b)
  {
    var key, value := e.0, e.1;
    QuoteFree(key, b);
    assert NoPair("'", '\'', b);
    NoPairConcat("'", key, '\'', b);
    assert NoPair("': ", '\'', b);
    NoPairConcat("'" + key, "': ", '\'', b);
    assert NoPair(" '", '\'', b);
    NoPairConcat(value + ",", " '", '\'', b);
    NoPairConcat("'" + key + "': ", value + "," + " '", '\'', b);
    assert "'" + key + "': " + (value + "," + " '") == EntryOf(key, value) + ", '" by {
      assert "': " == "'" + ": ";
      assert "," + " '" == ", '";
    }
  }

  lemma TextEnds(es: seq<Pair>)
    ensures es != [] ==> Text(es) != [] && Text(es)[|Text(es)| - 1] == ' '
  {
  }

  /** No opening quote of the text is followed by `b`. */
  lemma {:induction false} TextQuotes(es: seq<Pair>, b: char)
    requires b != ':' && forall i :: 0 <= i < |es| ==> Harmless(es[i], b)
    ensures NoPair(Text(es) + ['\''], '\'', b)
  {
    hide EntryOf, Harmless;
    if es == [] {
      assert Text(es) + ['\''] == ['\''];
    } else {
      var rest, e := es[..|es| - 1], es[|es| - 1];
      TextQuotes(rest, b);
      EntryQuotes(e, b);
      TextEnds(rest);
      PairPrefix(Text(rest), "'", '\'', b);
      NoPairConcat(Text(rest), EntryOf(e.0, e.1) + ", '", '\'', b);
      assert Text(rest) + (EntryOf(e.0, e.1) + ", '") == Text(es) + ['\''];
    }
  }

  lemma PairPrefix(s: string, t: string, a: char, b: char)
    requires NoPair(s + t, a, b)
    ensures NoPair(s, a, b)
  {
    forall i | 0 <= i < |s| - 1 && s[i] == a
      ensures s[i + 1] != b
    {
      assert (s + t)[i] == s[i] && (s + t)[i + 1] == s[i + 1];
    }
  }

  lemma PrefixOf(a: string, b: string, c: string)
    ensures a <= (a + b) + c
  {
    assert (a + b + c)[..|a|] == a;
  }

  lemma KeyAfter(before: string, key: string, tail: string)
    requires key != [] && NoPair(before + ['\''], '\'', key[0])
    ensures Find(before + (Quoted(key) + tail), Quoted(key)) == Some(|before|)
  {
    hide Find;
    assert (Quoted(key) + tail)[..|Quoted(key)|] == Quoted(key);
    FindAfter(before, Quoted(key) + tail, Quoted(key));
  }

  lemma KeyFirst(key: string, value: string, rest: string)
    ensures (EntryOf(key, value) + ", ") + rest == Quoted(key) + (": " + value + ", " + rest)
  {
    hide Quoted;
  }

  /** A key is found at its own entry, first, if the entries before it are harmless. */
  lemma KeyPosition(es: seq<Pair>, i: nat)
    requires i < |es| && es[i].0 != [] && es[i].0[0] != ':'
    requires forall j :: 0 <= j < i ==> Harmless(es[j], es[i].0[0])
    ensures Find(Text(es), Quoted(es[i].0)) == Some(Offset(es, i))
  {
    hide Find, Harmless, Text, EntryOf, Quoted;
    var key := es[i].0;
    var rest := TextSplit(es, i);
    TextQuotes(es[..i], key[0]);
    KeyFirst(key, es[i].1, rest);
    KeyAfter(Text(es[..i]), key, ": " + es[i].1 + ", " + rest);
  }

  /** Sorting puts positions in ascending order. */
  lemma {:induction false} InsertedSorted(ps: seq<(nat, string)>, p: (nat, string))
    requires Ascending(ps)
    ensures Ascending(Inserted(ps, p))
  {
    if ps != [] && ps[|ps| - 1].0 > p.0 {
      var rest, last := ps[..|ps| - 1], ps[|ps| - 1];
      InsertedSorted(rest, p);
      var r := Inserted(rest, p);
      forall i | 0 <= i < |r|
        ensures r[i].0 <= last.0
      {
        assert r[i] in multiset(r);
        assert r[i] == p || r[i] in rest;
      }
    }
  }

  predicate Ascending(ps: seq<(nat, string)>) {
    forall i, j :: 0 <= i < j < |ps| ==> ps[i].0 <= ps[j].0
  }

  lemma {:induction false} SortedAscends(ps: seq<(nat, string)>)
    ensures Ascending(SortedByPosition(ps))
  {
    if ps != [] {
      SortedAscends(ps[..|ps| - 1]);
      InsertedSorted(SortedByPosition(ps[..|ps| - 1]), ps[|ps| - 1]);
    }
  }

  lemma LastSame(a: seq<(nat, string)>, b: seq<(nat, string)>)
    requires a != [] && b != [] && Ascending(a) && forall e :: e in a <==> e in b
    requires forall i, j :: 0 <= i < j < |b| ==> b[i].0 < b[j].0
    ensures a[|a| - 1] == b[|b| - 1]
  {
    var x, y := a[|a| - 1], b[|b| - 1];
    assert x in b && y in a;
    var i :| 0 <= i < |a| && a[i] == y;
    var j :| 0 <= j < |b| && b[j] == x;
    assert y.0 <= x.0;
    assert j < |b| - 1 ==> x.0 < y.0;
  }

  /** With distinct positions there is only one ascending order. */
  lemma {:induction false} AscendingUnique(a: seq<(nat, string)>, b: seq<(nat, string)>)
    requires Ascending(a) && multiset(a) == multiset(b)
    requires forall i, j :: 0 <= i < j < |b| ==> b[i].0 < b[j].0
    ensures a == b
  {
    hide Ascending;
    assert |a| == |multiset(a)| == |b|;
    if b != [] {
      SameMembers(a, b);
      LastSame(a, b);
      LastDropped(a);
      LastDropped(b);
      AscendingUnique(a[..|a| - 1], b[..|b| - 1]);
    }
  }

  lemma LastDropped(a: seq<(nat, string)>)
    requires a != []
    ensures multiset(a[..|a| - 1]) == multiset(a) - multiset{a[|a| - 1]}
    ensures a == a[..|a| - 1] + [a[|a| - 1]]
    ensures Ascending(a) ==> Ascending(a[..|a| - 1])
  {
    assert a == a[..|a| - 1] + [a[|a| - 1]];
    assert multiset(a) == multiset(a[..|a| - 1]) + multiset{a[|a| - 1]};
  }

  lemma SameMembers(a: seq<(nat, string)>, b: seq<(nat, string)>)
    requires multiset(a) == multiset(b)
    ensures forall e :: e in a <==> e in b
  {
    forall e
      ensures e in a <==> e in b
    {
      assert e in a <==> e in multiset(a);
      assert e in b <==> e in multiset(b);
    }
  }

  lemma PositionsStep(text: string, keys: seq<string>, before: seq<(nat, string)>, key: string, i: nat)
    requires Positions(text, keys) == Success(before) && Find(text, Quoted(key)) == Some(i)
    ensures Positions(text, keys + [key]) == Success(before + [(i, key)])
  {
    hide Find, Quoted;
    assert (keys + [key])[..|keys|] == keys;
  }

  /** The positions and keys of the entries. */
  function Places(es: seq<Pair>): seq<(nat, string)> {
    seq(|es|, i requires 0 <= i < |es| => (Offset(es, i), es[i].0))
  }

  lemma {:induction false} OffsetsAscend(es: seq<Pair>, i: nat, j: nat)
    requires i < j <= |es|
    ensures Offset(es, i) < Offset(es, j)
  {
    var _ := TextSplit(es, j - 1);
    if i < j - 1 {
      OffsetsAscend(es, i, j - 1);
    }
  }

  /** Three entries with the three keys, in some order: entry `i` is for descr, `j` for fortran_order and
      `k` for shape. */
  predicate AnyOrder(es: seq<Pair>, i: nat, j: nat, k: nat, descr: string, order: string, shape: string) {
    && |es| == 3 && i < 3 && j < 3 && k < 3 && i != j && j != k && i != k
    && es[i] == ("descr", Quoted(descr)) && es[j] == ("fortran_order", order) && es[k] == ("shape", shape)
  }

  lemma ValuesQuiet(descr: string, order: string, shape: string, b: char)
    requires Plain(descr) && Plain(order) && Plain(shape) && IsByteorder(descr[0]) && (b == 'd' || b == 'f' || b == 's')
    ensures b != 'd' ==> Harmless(("descr", Quoted(descr)), b)
    ensures b != 'f' ==> Harmless(("fortran_order", order), b)
    ensures b != 's' ==> Harmless(("shape", shape), b)
  {
    QuoteFree(order + ",", b);
    QuoteFree(shape + ",", b);
    QuoteFree(descr, b);
    NoPairConcat("'", descr, '\'', b);
    NoPairConcat("'" + descr, "',", '\'', b);
    assert "'" + descr + "'," == Quoted(descr) + ",";
  }

  lemma KeyPositions(es: seq<Pair>, i: nat, j: nat, k: nat, descr: string, order: string, shape: string)
    requires AnyOrder(es, i, j, k, descr, order, shape)
    requires Plain(descr) && Plain(order) && Plain(shape) && IsByteorder(descr[0])
    ensures Positions(Text(es), KEYS)
         == Success([(Offset(es, i), "descr"), (Offset(es, j), "fortran_order"), (Offset(es, k), "shape")])
  {
    hide Find, FindFrom, Harmless, Plain, IsByteorder, Text, Offset;
    ValuesQuiet(descr, order, shape, 'd');
    ValuesQuiet(descr, order, shape, 'f');
    ValuesQuiet(descr, order, shape, 's');
    KeyPosition(es, i);
    KeyPosition(es, j);
    KeyPosition(es, k);
    Positions3(Text(es), Offset(es, i), Offset(es, j), Offset(es, k));
  }

  lemma Positions3(text: string, q0: nat, q1: nat, q2: nat)
    requires Find(text, Quoted("descr")) == Some(q0)
    requires Find(text, Quoted("fortran_order")) == Some(q1)
    requires Find(text, Quoted("shape")) == Some(q2)
    ensures Positions(text, KEYS) == Success([(q0, "descr"), (q1, "fortran_order"), (q2, "shape")])
  {
    hide Find;
    var k1, k2 := ["descr"], ["descr", "fortran_order"];
    var p1, p2 := [(q0, "descr")], [(q0, "descr"), (q1, "fortran_order")];
    assert [] + k1 == k1 && [] + p1 == p1;
    assert k1 + ["fortran_order"] == k2 && p1 + [(q1, "fortran_order")] == p2;
    assert k2 + ["shape"] == KEYS && p2 + [(q2, "shape")] == [(q0, "descr"), (q1, "fortran_order"), (q2, "shape")];
    PositionsStep(text, [], [], "descr", q0);
    PositionsStep(text, k1, p1, "fortran_order", q1);
    PositionsStep(text, k2, p2, "shape", q2);
  }

  lemma Three(x: (nat, string), y: (nat, string), z: (nat, string))
    ensures multiset([x, y, z]) == multiset{x} + multiset{y} + multiset{z}
  {
    assert [x, y, z] == [x] + [y] + [z];
  }

  lemma SumSwapped(x: multiset<(nat, string)>, y: multiset<(nat, string)>, z: multiset<(nat, string)>)
    ensures x + y + z == y + x + z == x + z + y
  {
  }

  lemma Swapped(x: (nat, string), y: (nat, string), z: (nat, string))
    ensures multiset([x, y, z]) == multiset([y, x, z]) == multiset([x, z, y])
  {
    Three(x, y, z);
    Three(y, x, z);
    Three(x, z, y);
    SumSwapped(multiset{x}, multiset{y}, multiset{z});
  }

  lemma AllOrders(x: (nat, string), y: (nat, string), z: (nat, string))
    ensures multiset([x, y, z]) == multiset([y, x, z]) == multiset([x, z, y])
    ensures multiset([x, y, z]) == multiset([y, z, x]) == multiset([z, x, y]) == multiset([z, y, x])
  {
    Swapped(x, y, z);
    Swapped(y, x, z);
    Swapped(x, z, y);
    Swapped(z, x, y);
  }

  lemma Permuted(t: seq<(nat, string)>, i: nat, j: nat, k: nat)
    requires |t| == 3 && i < 3 && j < 3 && k < 3 && i != j && j != k && i != k
    ensures multiset([t[i], t[j], t[k]]) == multiset(t)
  {
    assert t == [t[0], t[1], t[2]];
    AllOrders(t[0], t[1], t[2]);
    match (i, j)
    case (0, 1) => assert k == 2;
    case (0, 2) => assert k == 1;
    case (1, 0) => assert k == 2;
    case (1, 2) => assert k == 0;
    case (2, 0) => assert k == 1;
    case (2, 1) => assert k == 0;
    case (_, _) => assert false;
  }

  /** Whatever the order of the keys, sorting finds the entries as they stand in the text. */
  lemma PlacesFound(es: seq<Pair>, i: nat, j: nat, k: nat, descr: string, order: string, shape: string)
    requires AnyOrder(es, i, j, k, descr, order, shape)
    requires Plain(descr) && Plain(order) && Plain(shape) && IsByteorder(descr[0])
    ensures Positions(Text(es), KEYS).Success? && SortedByPosition(Positions(Text(es), KEYS).value) == Places(es)
  {
    hide Plain, Text, Offset, SortedByPosition, Positions;
    KeyPositions(es, i, j, k, descr, order, shape);
    KeysPlaced(es, i, j, k, descr, order, shape);
    hide Places, AnyOrder;
    var ps := Positions(Text(es), KEYS).value;
    SortedAscends(ps);
    PlacesAscend(es);
    AscendingUnique(SortedByPosition(ps), Places(es));
  }

  lemma KeysPlaced(es: seq<Pair>, i: nat, j: nat, k: nat, descr: string, order: string, shape: string)
    requires AnyOrder(es, i, j, k, descr, order, shape)
    ensures multiset([(Offset(es, i), "descr"), (Offset(es, j), "fortran_order"), (Offset(es, k), "shape")])
         == multiset(Places(es))
  {
    hide Text, Offset;
    Permuted(Places(es), i, j, k);
  }

  lemma PlacesAscend(es: seq<Pair>)
    ensures forall i, j :: 0 <= i < j < |Places(es)| ==> Places(es)[i].0 < Places(es)[j].0
  {
    hide Text, Offset;
    forall i, j | 0 <= i < j < |Places(es)|
      ensures Places(es)[i].0 < Places(es)[j].0
    {
      OffsetsAscend(es, i, j);
    }
  }

  /** The value of each entry is read back. */
  lemma ValueRead(es: seq<Pair>, i: nat)
    requires i < |es| && Tight(es[i].1) && ':' !in es[i].0
    ensures ValueOf(EntryText(Text(es), Places(es), i)) == es[i].1
  {
    hide ValueOf, Text, EntryText, Tight;
    var e := es[i];
    var rest := TextSplit(es, i);
    EntryTight(e.0, e.1);
    EntryValue(e.0, e.1);
    SliceInside(Text(es[..i]), EntryOf(e.0, e.1) + ", ", rest);
    assert i == |es| - 1 ==> Text(es[..i]) + ((EntryOf(e.0, e.1) + ", ") + "") == Text(es[..i]) + (EntryOf(e.0, e.1) + ", ");
    EntryRead(Text(es), Places(es), i, EntryOf(e.0, e.1));
  }

  lemma SliceInside(a: string, b: string, c: string)
    ensures (a + (b + c))[|a|..|a| + |b|] == b
  {
  }

  /** The parser finds the three values in a written dictionary, in whatever order its entries are. */
  lemma DictRead(es: seq<Pair>, i: nat, j: nat, k: nat, descr: string, order: string, shape: string, pad: string)
    requires AnyOrder(es, i, j, k, descr, order, shape)
    requires Plain(descr) && Plain(order) && Plain(shape) && IsByteorder(descr[0]) && Blank(pad)
    ensures DictOf("{" + Text(es) + "}" + pad, KEYS)
         == Success(map["descr" := Quoted(descr), "fortran_order" := order, "shape" := shape])
  {
    var braced := "{" + Text(es) + "}";
    assert braced + pad == "" + braced + pad;
    TrimKeeps("", braced, pad);
    assert Unwrap(braced) == Text(es);
    PlacesFound(es, i, j, k, descr, order, shape);
    EntriesRead(es, i, j, k, descr, order, shape);
    hide Trim, Text, Positions, Entries, SortedByPosition, Places;
    assert DictOf(braced + pad, KEYS) == Success(Entries(Text(es), Places(es), |Places(es)|));
  }

  lemma EntriesStep(text: string, ps: seq<(nat, string)>, n: nat)
    requires n < |ps|
    ensures Entries(text, ps, n + 1) == Entries(text, ps, n)[ps[n].1 := ValueOf(EntryText(text, ps, n))]
  {
    hide ValueOf, EntryText;
  }

  lemma EntriesRead(es: seq<Pair>, i: nat, j: nat, k: nat, descr: string, order: string, shape: string)
    requires AnyOrder(es, i, j, k, descr, order, shape) && Plain(descr) && Plain(order) && Plain(shape)
    ensures Entries(Text(es), Places(es), |Places(es)|)
         == map["descr" := Quoted(descr), "fortran_order" := order, "shape" := shape]
  {
    hide ValueOf, Text, EntryText, Offset, Entries, Tight;
    ValueTight(descr, order, shape);
    ValueRead(es, 0);
    ValueRead(es, 1);
    ValueRead(es, 2);
    hide Plain, Quoted;
    EntriesStep(Text(es), Places(es), 0);
    EntriesStep(Text(es), Places(es), 1);
    EntriesStep(Text(es), Places(es), 2);
    NoEntries(Text(es), Places(es));
    MapInAnyOrder(es, i, j, k, descr, order, shape);
  }

  lemma ValueTight(descr: string, order: string, shape: string)
    requires Plain(descr) && Plain(order) && Plain(shape)
    ensures Tight(Quoted(descr)) && Tight(order) && Tight(shape)
    ensures ':' !in "descr" && ':' !in "fortran_order" && ':' !in "shape"
  {
  }

  lemma NoEntries(text: string, ps: seq<(nat, string)>)
    ensures Entries(text, ps, 0) == map[]
  {
  }

  lemma MapInAnyOrder(es: seq<Pair>, i: nat, j: nat, k: nat, descr: string, order: string, shape: string)
    requires AnyOrder(es, i, j, k, descr, order, shape)
    ensures map[][es[0].0 := es[0].1][es[1].0 := es[1].1][es[2].0 := es[2].1]
         == map["descr" := Quoted(descr), "fortran_order" := order, "shape" := shape]
  {
    hide Quoted;
    assert "descr" != "fortran_order" && "descr" != "shape" && "fortran_order" != "shape" by {
      assert |"descr"| == 5 && |"fortran_order"| == 13 && |"shape"| == 5 && "descr"[0] != "shape"[0];
    }
  }

  /** A header is read back from a dictionary with its entries in any order and any padding. */
  lemma HeaderReadInAnyOrder(h: Header, es: seq<Pair>, i: nat, j: nat, k: nat, pad: string)
    requires Legal(h) && Blank(pad)
    requires AnyOrder(es, i, j, k, DtypeStr(h.dtype), WriteBoolean(h.fortranOrder), WriteTuple(h.shape))
    ensures HeaderOf("{" + Text(es) + "}" + pad + "\n") == Success(h)
  {
    hide DictOf, Text, DtypeStr, WriteTuple, WriteBoolean, ParseDescr, ParseBool, TupleOf, DimsOf, Plain, Trim,
         Positions, AnyOrder;
    var descr, order, shape := DtypeStr(h.dtype), WriteBoolean(h.fortranOrder), WriteTuple(h.shape);
    DescrPlain(h.dtype);
    TuplePlain(h.shape);
    OrderPlain(h.fortranOrder);
    DictRead(es, i, j, k, descr, order, shape, pad);
    DescrRoundTrip(h.dtype);
    ShapeRoundTrip(h.shape);
    HeaderAssembled(h, "{" + Text(es) + "}" + pad, descr, order, shape);
  }

  /** The entries as they are written. */
  function Written(h: Header): seq<Pair> {
    [("descr", Quoted(DtypeStr(h.dtype))), ("fortran_order", WriteBoolean(h.fortranOrder)), ("shape", WriteTuple(h.shape))]
  }

  lemma DictPieces(h: Header)
    ensures WriteHeaderDict(DtypeStr(h.dtype), h.fortranOrder, h.shape) == "{" + Text(Written(h)) + "}"
  {
    hide WriteTuple, WriteBoolean, DtypeStr;
    var es := Written(h);
    assert es == [] + [es[0]] + [es[1]] + [es[2]];
    TextLast([], es[0]);
    TextLast([] + [es[0]], es[1]);
    TextLast([] + [es[0]] + [es[1]], es[2]);
    Literals(DtypeStr(h.dtype), WriteBoolean(h.fortranOrder), WriteTuple(h.shape));
  }

  lemma Literals(descr: string, order: string, shape: string)
    ensures "{'descr': '" + descr + "', 'fortran_order': " + order + ", 'shape': " + shape + ", }"
         == "{" + ((EntryOf("descr", Quoted(descr)) + ", ") + (EntryOf("fortran_order", order) + ", ")
                   + (EntryOf("shape", shape) + ", ")) + "}"
  {
    var e0, e1 := EntryOf("descr", Quoted(descr)) + ", ", EntryOf("fortran_order", order) + ", ";
    var e2 := EntryOf("shape", shape) + ", ";
    var k1, k2 := "'fortran_order': ", "'shape': ";
    assert "{'descr': '" + descr + "', " == "{" + e0;
    assert "', 'fortran_order': " == "', " + k1 && ", 'shape': " == ", " + k2 && ", }" == ", " + "}";
    assert e1 == k1 + order + ", " && e2 == k2 + shape + ", ";
    hide *;
    Chain("{'descr': '" + descr, "', ", k1, order, ", ", k2, shape, "}");
    Assemble("{", e0, e1, e2, "}");
  }

  lemma Chain(a: string, b: string, c: string, d: string, e: string, f: string, g: string, h: string)
    ensures a + (b + c) + d + (e + f) + g + (e + h) == (a + b) + (c + d + e) + (f + g + e) + h
  {
    assert a + (b + c) == a + b + c;
    var x := a + b;
    assert x + c + d + (e + f) == x + (c + d + e) + f;
    var y := x + (c + d + e);
    assert y + f + g + (e + h) == y + (f + g + e) + h;
  }

  lemma Assemble(a: string, b: string, c: string, d: string, e: string)
    ensures (a + b) + c + d + e == a + (b + c + d) + e
  {
  }

  /** Dictionary round trip: every header, of any rank, is read back from what was written, with any
      amount of padding. */
  lemma HeaderRoundTrip(h: Header, pad: string)
    requires Legal(h) && Blank(pad)
    ensures HeaderOf(WriteHeaderDict(DtypeStr(h.dtype), h.fortranOrder, h.shape) + pad + "\n") == Success(h)
  {
    hide HeaderOf, Text, WriteHeaderDict, DtypeStr, WriteTuple, WriteBoolean;
    DictPieces(h);
    HeaderReadInAnyOrder(h, Written(h), 0, 1, 2, pad);
  }

  lemma HeaderAssembled(h: Header, line: string, descr: string, order: string, shape: string)
    requires DictOf(line, KEYS) == Success(map["descr" := Quoted(descr), "fortran_order" := order, "shape" := shape])
    requires ParseDescr(descr) == Success(h.dtype) && ParseBool(order) == Success(h.fortranOrder)
    requires TupleOf(shape).Success? && DimsOf(TupleOf(shape).value) == Success(h.shape)
    ensures HeaderOf(line + "\n") == Success(h)
  {
    hide DictOf, ParseDescr, ParseBool, TupleOf, DimsOf;
    assert (line + "\n")[..|line|] == line;
    assert Unwrap(Quoted(descr)) == descr;
    var dict := map["descr" := Quoted(descr), "fortran_order" := order, "shape" := shape];
    assert "descr" in dict;
  }

  lemma OrderPlain(b: bool)
    ensures Plain(WriteBoolean(b)) && ParseBool(WriteBoolean(b)) == Success(b)
  {
  }
}
