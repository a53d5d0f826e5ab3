/** The .npy header dictionary: its printer, its parser, and the proof that they undo each other
    (NEP 1, section "Format Specification: Version 1.0"). */
module NpyHeader {
  import opened MmuTypes
  import opened NpyText
  import Globs

  datatype Dtype = Dtype(byteorder: char, kind: char, itemsize: nat)

  datatype Header = Header(dtype: Dtype, fortranOrder: bool, shape: seq<nat>)

  predicate IsByteorder(c: char) {
    c == '<' || c == '>' || c == '|'
  }

  predicate IsKind(c: char) {
    c == 'f' || c == 'i' || c == 'u' || c == 'c'
  }

  /** Every header a C++ caller can express. */
  predicate Legal(h: Header) {
    && IsByteorder(h.dtype.byteorder) && IsKind(h.dtype.kind) && h.dtype.itemsize < UINT32_RANGE
    && forall i :: 0 <= i < |h.shape| ==> h.shape[i] < UINT64_RANGE
  }

  function DtypeStr(d: Dtype): string {
    [d.byteorder, d.kind] + Decimal(d.itemsize)
  }

  function ParseDescr(typestring: string): Result<Dtype> {
    if |typestring| < 3 then Failure("invalid typestring (length)")
    else if !IsByteorder(typestring[0]) then Failure("invalid typestring (byteorder)")
    else if !IsKind(typestring[1]) then Failure("invalid typestring (kind)")
    else if !AllDigits(typestring[2..]) then Failure("invalid typestring (itemsize)")
    else
      var itemsize :- Stoul(typestring[2..]);
      Success(Dtype(typestring[0], typestring[1], itemsize % UINT32_RANGE))
  }

  lemma DescrRoundTrip(d: Dtype)
    requires IsByteorder(d.byteorder) && IsKind(d.kind) && d.itemsize < UINT32_RANGE
    ensures ParseDescr(DtypeStr(d)) == Success(d)
  {
    assert DtypeStr(d)[2..] == Decimal(d.itemsize);
    StoulReadsDecimal(d.itemsize, Decimal(d.itemsize));
  }

  /** substr(1, length - 2). */
  function Unwrap(s: string): string
    requires s != []
  {
    if |s| == 1 then [] else s[1..|s| - 1]
  }

  predicate Wrapped(s: string, open: char, close: char) {
    s != [] && s[0] == open && s[|s| - 1] == close
  }

  function WriteBoolean(b: bool): string {
    if b then "True" else "False"
  }

  function ParseBool(s: string): Result<bool> {
    if s == "True" then Success(true)
    else if s == "False" then Success(false)
    else Failure("Invalid python boolan.")
  }

  function ParseStr(s: string): Result<string> {
    if Wrapped(s, '\'', '\'') then Success(Unwrap(s)) else Failure("Invalid python string.")
  }

  /** The items of a tuple of two or more, separated by a comma and a space. */
  function WriteItems(v: seq<nat>): string
    requires v != []
  {
    if |v| == 1 then Decimal(v[0]) else Decimal(v[0]) + ", " + WriteItems(v[1..])
  }

  function WriteTuple(v: seq<nat>): string {
    if |v| == 0 then "()"
    else if |v| == 1 then "(" + Decimal(v[0]) + ",)"
    else "(" + WriteItems(v) + ")"
  }

  function TupleOf(s: string): Result<seq<string>> {
    var t := Trim(s);
    if Wrapped(t, '(', ')') then Success(Tokens(Unwrap(t), ',')) else Failure("Invalid Python tuple.")
  }

  function DimsOf(items: seq<string>): Result<seq<nat>> {
    if items == [] then Success([])
    else
      var before :- DimsOf(items[..|items| - 1]);
      var last :- Stoul(items[|items| - 1]);
      Success(before + [last])
  }

  function ValueOf(entry: string): string {
    match Find(entry, ":")
    case None => ""
    case Some(i) => Trim(entry[i + 1..])
  }

  function Quoted(key: string): string {
    "'" + key + "'"
  }

  /** Where each key occurs. */
  function Positions(text: string, keys: seq<string>): Result<seq<(nat, string)>> {
    if keys == [] then Success([])
    else
      var before :- Positions(text, keys[..|keys| - 1]);
      var key := keys[|keys| - 1];
      match Find(text, Quoted(key))
      case None => Failure("Missing " + Quoted(key) + " key.")
      case Some(i) => Success(before + [(i, key)])
  }

  /** std::sort by position. */
  function Inserted(ps: seq<(nat, string)>, p: (nat, string)): (r: seq<(nat, string)>)
    ensures multiset(r) == multiset(ps) + multiset{p}
  {
    if ps == [] || ps[|ps| - 1].0 <= p.0 then ps + [p]
    else
      var r := Inserted(ps[..|ps| - 1], p) + [ps[|ps| - 1]];
      assert ps == ps[..|ps| - 1] + [ps[|ps| - 1]];
      r
  }

  function SortedByPosition(ps: seq<(nat, string)>): (r: seq<(nat, string)>)
    ensures multiset(r) == multiset(ps)
  {
    if ps == [] then []
    else
      assert ps == ps[..|ps| - 1] + [ps[|ps| - 1]];
      Inserted(SortedByPosition(ps[..|ps| - 1]), ps[|ps| - 1])
  }

  /** The text of entry `i`: up to the next key, trimmed, without a final comma. */
  function EntryText(text: string, ps: seq<(nat, string)>, i: nat): string
    requires i < |ps|
  {
    var end := if i + 1 < |ps| && ps[i + 1].0 <= |text| then ps[i + 1].0 else |text|;
    var raw := Trim(if ps[i].0 <= end then text[ps[i].0..end] else []);
    if raw != [] && raw[|raw| - 1] == ',' then raw[..|raw| - 1] else raw
  }

  function Entries(text: string, ps: seq<(nat, string)>, k: nat): map<string, string>
    requires k <= |ps|
  {
    if k == 0 then map[]
    else Entries(text, ps, k - 1)[ps[k - 1].1 := ValueOf(EntryText(text, ps, k - 1))]
  }

  function DictOf(s: string, keys: seq<string>): Result<map<string, string>> {
    if keys == [] then Success(map[])
    else
      var t := Trim(s);
      if !Wrapped(t, '{', '}') then Failure("Not a Python dictionary.")
      else
        var text := Unwrap(t);
        var ps :- Positions(text, keys);
        Success(Entries(text, SortedByPosition(ps), |SortedByPosition(ps)|))
  }

  const KEYS := ["descr", "fortran_order", "shape"]

  /** A key that is missing reads as the empty string. */
  function Lookup(dict: map<string, string>, key: string): string {
    if key in dict then dict[key] else ""
  }

  function HeaderOf(text: string): Result<Header> {
    if text == [] || text[|text| - 1] != '\n' then Failure("invalid header")
    else
      var dict :- DictOf(text[..|text| - 1], KEYS);
      if dict == map[] then Failure("invalid dictionary in header")
      else
        var descr :- ParseStr(Lookup(dict, "descr"));
        var dtype :- ParseDescr(descr);
        var fortranOrder :- ParseBool(Lookup(dict, "fortran_order"));
        var items :- TupleOf(Lookup(dict, "shape"));
        var shape :- DimsOf(items);
        Success(Header(dtype, fortranOrder, shape))
  }

  function WriteHeaderDict(descr: string, fortranOrder: bool, shape: seq<nat>): string {
    "{'descr': '" + descr + "', 'fortran_order': " + WriteBoolean(fortranOrder) + ", 'shape': " + WriteTuple(shape) + ", }"
  }

  method ParseDict(s: string, keys: seq<string>) returns (r: Result<map<string, string>>)
    ensures r == DictOf(s, keys)
  {
    if |keys| == 0 {
      return Success(map[]);
    }
    var t := Trim(s);
    if !Wrapped(t, '{', '}') {
      return Failure("Not a Python dictionary.");
    }
    var text := Unwrap(t);
    var ps: seq<(nat, string)> := [];
    for i := 0 to |keys|
      invariant Positions(text, keys[..i]) == Success(ps)
    {
      assert keys[..i + 1][..i] == keys[..i];
      var pos := Find(text, Quoted(keys[i]));
      if pos.None? {
        MissingKey(text, keys, i + 1);
        return Failure("Missing " + Quoted(keys[i]) + " key.");
      }
      ps := ps + [(pos.value, keys[i])];
    }
    assert keys[..|keys|] == keys;
    ps := SortedByPosition(ps);
    var dict: map<string, string> := map[];
    for i := 0 to |ps|
      invariant dict == Entries(text, ps, i)
    {
      dict := dict[ps[i].1 := ValueOf(EntryText(text, ps, i))];
    }
    return Success(dict);
  }

  lemma {:induction false} MissingKey(text: string, keys: seq<string>, k: nat)
    requires k <= |keys| && Positions(text, keys[..k]).Failure?
    ensures Positions(text, keys) == Positions(text, keys[..k])
  {
    if k == |keys| {
      assert keys[..k] == keys;
    } else {
      assert keys[..|keys| - 1][..k] == keys[..k];
      MissingKey(text, keys[..|keys| - 1], k);
    }
  }

  method ParseTuple(s: string) returns (r: Result<seq<string>>)
    ensures r == TupleOf(s)
  {
    var t := Trim(s);
    if !Wrapped(t, '(', ')') {
      return Failure("Invalid Python tuple.");
    }
    var v := GetLines(Unwrap(t), ',');
    return Success(v);
  }

  /** std::getline with a separator until the stream is used up. */
  method GetLines(text: string, separator: char) returns (v: seq<string>)
    ensures v == Tokens(text, separator)
  {
    hide Globs.Split;
    v := [];
    var pos := 0;
    assert text[0..] == text;
    while pos < |text|
      invariant pos <= |text|
      invariant Globs.Split(text, separator) == v + Globs.Split(text[pos..], separator)
    {
      var end := Globs.Find(text, separator, pos);
      assert text[pos..][..end - pos] == text[pos..end];
      Globs.SplitAt(text[pos..], separator, end - pos);
      v := v + [text[pos..end]];
      if end == |text| {
        assert text[pos..end] == text[pos..];
        return v;
      }
      assert text[pos..][end - pos + 1..] == text[end + 1..];
      pos := end + 1;
    }
    assert text[pos..] == [];
    Globs.SplitAt([], separator, 0);
    assert Globs.Split(text, separator) == v + [[]];
  }

  method ParseHeader(text: string) returns (r: Result<Header>)
    ensures r == HeaderOf(text)
  {
    hide DictOf, ParseDescr, ParseBool, ParseStr, TupleOf, DimsOf, Lookup;
    if text == [] || text[|text| - 1] != '\n' {
      return Failure("invalid header");
    }
    var dictResult := ParseDict(text[..|text| - 1], KEYS);
    if dictResult.Failure? {
      return Failure(dictResult.error);
    }
    var dict := dictResult.value;
    if |dict| == 0 {
      return Failure("invalid dictionary in header");
    }
    var descr := ParseStr(Lookup(dict, "descr"));
    if descr.Failure? {
      return Failure(descr.error);
    }
    var dtype := ParseDescr(descr.value);
    if dtype.Failure? {
      return Failure(dtype.error);
    }
    var fortranOrder := ParseBool(Lookup(dict, "fortran_order"));
    if fortranOrder.Failure? {
      return Failure(fortranOrder.error);
    }
    var items := ParseTuple(Lookup(dict, "shape"));
    if items.Failure? {
      return Failure(items.error);
    }
    var shape := ParseDims(items.value);
    if shape.Failure? {
      return Failure(shape.error);
    }
    return Success(Header(dtype.value, fortranOrder.value, shape.value));
  }

  method ParseDims(items: seq<string>) returns (r: Result<seq<nat>>)
    ensures r == DimsOf(items)
  {
    hide Stoul;
    var shape: seq<nat> := [];
    for i := 0 to |items|
      invariant DimsOf(items[..i]) == Success(shape)
    {
      assert items[..i + 1][..i] == items[..i];
      var dim := Stoul(items[i]);
      if dim.Failure? {
        BadDim(items, i + 1);
        return Failure(dim.error);
      }
      shape := shape + [dim.value];
    }
    assert items[..|items|] == items;
    return Success(shape);
  }

  lemma {:induction false} BadDim(items: seq<string>, k: nat)
    requires k <= |items| && DimsOf(items[..k]).Failure?
    ensures DimsOf(items) == DimsOf(items[..k])
  {
    if k == |items| {
      assert items[..k] == items;
    } else {
      assert items[..|items| - 1][..k] == items[..k];
      BadDim(items[..|items| - 1], k);
    }
  }
}
