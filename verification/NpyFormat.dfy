/** What the .npy printers put in the file, in terms of bytes and characters rather than of the parser
    (NEP 1, section "Format Specification: Version 1.0", and version 2.0). */
module NpyFormat {
  import opened MmuTypes
  import opened NpyText
  import opened NpyHeader
  import opened NpyStream
  import Globs
  import NpyRoundTrip

  predicate LeadingZero(s: string) {
    |s| > 1 && s[0] == '0'
  }

  /** Decimal notation is the only string of digits with that value and without a leading zero. */
  lemma {:induction false} DecimalUnique(s: string)
    requires s != [] && AllDigits(s) && !LeadingZero(s)
    ensures s == Decimal(DecimalValue(s))
  {
    var init, last := s[..|s| - 1], s[|s| - 1];
    if init == [] {
      assert DecimalValue(init) == 0;
      assert s == [last];
    } else {
      assert init[0] == s[0];
      DecimalUnique(init);
      assert Decimal(0) == ['0'];
      assert s == init + [last];
    }
  }

  lemma {:induction false} DecimalShape(n: nat)
    ensures !LeadingZero(Decimal(n))
  {
    if n >= 10 {
      DecimalShape(n / 10);
      DecimalRoundTrip(n / 10);
      assert Decimal(n)[0] == Decimal(n / 10)[0];
      if |Decimal(n / 10)| == 1 && Decimal(n / 10)[0] == '0' {
        ZeroDigit(n / 10);
      }
    }
  }

  lemma ZeroDigit(n: nat)
    requires Decimal(n) == ['0']
    ensures n == 0
  {
    DecimalRoundTrip(n);
    assert ['0'][..0] == [];
    assert DecimalValue(['0']) == DecimalValue([]) * 10 + 0;
  }

  /** The text between the commas of a tuple of `v`. */
  function Piece(v: seq<nat>, i: nat): string
    requires i < |v|
  {
    if i == 0 then Decimal(v[i]) else " " + Decimal(v[i])
  }

  lemma PiecesAre(v: seq<nat>)
    requires v != []
    ensures NpyRoundTrip.Items(v) == seq(|v|, i requires 0 <= i < |v| => Piece(v, i))
  {
    NpyRoundTrip.SpacedLaws(v[1..]);
    NpyRoundTrip.ItemsLaws(v);
    forall i | 0 < i < |v|
      ensures NpyRoundTrip.Items(v)[i] == Piece(v, i)
    {
      assert NpyRoundTrip.Items(v)[i] == NpyRoundTrip.Spaced(v[1..])[i - 1];
    }
  }

  /** A tuple is its numbers in parentheses, separated by a comma and a space; a single number keeps its
      comma, as Python demands. */
  lemma TupleText(v: seq<nat>)
    ensures Wrapped(WriteTuple(v), '(', ')')
    ensures Unwrap(WriteTuple(v)) == if v == [] then "" else
      Globs.Join(seq(|v|, i requires 0 <= i < |v| => Piece(v, i)), ',') + if |v| == 1 then "," else ""
  {
    var s := WriteTuple(v);
    if v == [] {
      assert Unwrap("()") == "";
    } else {
      PiecesAre(v);
      NpyRoundTrip.ItemsJoined(v);
      if |v| == 1 {
        assert s == "(" + (Decimal(v[0]) + ",") + ")";
        assert Unwrap(s) == Decimal(v[0]) + ",";
      } else {
        assert Unwrap(s) == WriteItems(v) + "";
      }
    }
  }

  lemma TupleExamples()
    ensures WriteTuple([]) == "()" && WriteTuple([5]) == "(5,)" && WriteTuple([3, 4]) == "(3, 4)"
    ensures WriteTuple([20, 3, 4]) == "(20, 3, 4)"
  {
    assert Decimal(20) == Decimal(2) + ['0'] == "20";
    assert WriteItems([4]) == "4";
    assert WriteItems([3, 4]) == "3, 4" by {
      assert [3, 4][1..] == [4];
    }
    assert WriteItems([20, 3, 4]) == "20, 3, 4" by {
      assert [20, 3, 4][1..] == [3, 4];
    }
  }

  /** The dictionary NumPy itself prints for a 3 by 4 array of doubles. */
  lemma DictExample()
    ensures DictText(Header(Dtype('<', 'f', 8), false, [3, 4]))
         == "{'descr': '<f8', 'fortran_order': False, 'shape': (3, 4), }"
  {
    TupleExamples();
    assert DtypeStr(Dtype('<', 'f', 8)) == "<f8";
    hide WriteTuple;
    assert "{'descr': '" + "<f8" + "', 'fortran_order': " == "{'descr': '<f8', 'fortran_order': ";
    assert "{'descr': '<f8', 'fortran_order': " + "False" + ", 'shape': "
        == "{'descr': '<f8', 'fortran_order': False, 'shape': ";
  }

  /** Little-endian value of some bytes. */
  function LittleEndian(s: string): nat {
    if s == [] then 0 else s[0] as int + 256 * LittleEndian(s[1..])
  }

  lemma Le16Bytes(n: nat)
    requires n < 65536
    ensures LittleEndian(Le16(n)) == n && forall i :: 0 <= i < 2 ==> Le16(n)[i] as int < 256
  {
    var s := Le16(n);
    assert LittleEndian(s[1..]) == s[1] as int + 256 * LittleEndian(s[2..]);
    ByteValue(n);
    ByteValue(n / 256);
  }

  lemma Le32Bytes(n: nat)
    requires n < UINT32_RANGE
    ensures LittleEndian(Le32(n)) == n && forall i :: 0 <= i < 4 ==> Le32(n)[i] as int < 256
  {
    var s := Le32(n);
    FourBytes(s);
    hide Byte256;
    ByteValue(n);
    ByteValue(n / 256);
    ByteValue(n / 65536);
    ByteValue(n / 16777216);
    Quotients(n);
  }

  lemma TwoBytes(s: string)
    requires |s| == 2
    ensures LittleEndian(s) == s[0] as int + 256 * s[1] as int
  {
    assert s[1..] == [s[1]];
    assert LittleEndian([s[1]]) == s[1] as int + 256 * LittleEndian([]);
  }

  lemma FourBytes(s: string)
    requires |s| == 4
    ensures LittleEndian(s) == s[0] as int + 256 * (s[1] as int + 256 * (s[2] as int + 256 * s[3] as int))
  {
    TwoBytes(s[2..]);
    assert s[1..][1..] == s[2..];
  }

  lemma Quotients(n: nat)
    ensures n / 65536 == n / 256 / 256 && n / 16777216 == n / 256 / 256 / 256
  {
  }

  /** The signature of a file: the byte 0x93, NUMPY in ASCII and the version. */
  predicate Signature(data: string, major: nat) {
    && |data| >= 8 && data[0] as int == 0x93 && data[1..6] == "NUMPY"
    && data[6] as int == major && data[7] as int == 0
  }

  lemma SignatureIs(data: string, major: nat)
    requires major < 256
    ensures Signature(data, major) <==> |data| >= 8 && data[..6] == MAGIC && data[6..8] == [major as char, 0 as char]
  {
    assert MAGIC == [0x93 as char] + "NUMPY";
    if |data| >= 8 {
      assert data[..6] == [data[0]] + data[1..6];
      assert data[6..8] == [data[6], data[7]];
      assert data[..6] == MAGIC ==> data[..6][0] == MAGIC[0] && data[..6][1..] == MAGIC[1..];
      assert MAGIC[1..] == "NUMPY" && data[..6][1..] == data[1..6];
    }
  }

  /** The bytes of a header: signature, little-endian length, dictionary, 1 to 16 spaces and a newline. */
  lemma HeaderFormat(h: Header)
    requires |HeaderText(h)| < UINT32_RANGE
    ensures var (data, dict) := (HeaderBytes(h), DictText(h));
      var version, start := if 11 + |dict| >= 65025 then 2 else 1, if 11 + |dict| >= 65025 then 12 else 10;
      && Signature(data, version) && start + |dict| + 1 < |data| <= start + |dict| + 17
      && LittleEndian(data[8..start]) == |data| - start
      && data[start..start + |dict|] == dict
      && (forall i :: start + |dict| <= i < |data| - 1 ==> data[i] == ' ')
      && data[|data| - 1] == '\n'
  {
    hide DictText, HeaderBytes, HeaderText, Le16, Le32, LittleEndian, Signature, PaddingLength;
    var (dict, n) := (DictText(h), |HeaderText(h)|);
    var pad := Spaces(PaddingLength(|dict|));
    HeaderPieces(h);
    HeaderTextLength(h);
    if IsLong(|dict|) {
      Le32Bytes(n);
      FormatOf(2, Le32(n), dict, pad);
    } else {
      Le16Bytes(n);
      FormatOf(1, Le16(n), dict, pad);
    }
  }

  lemma HeaderPieces(h: Header)
    ensures var (dict, n) := (DictText(h), |HeaderText(h)|);
      var (version, field) := if IsLong(|dict|) then (2, Le32(n)) else (1, Le16(n));
      var rest := dict + Spaces(PaddingLength(|dict|)) + "\n";
      HeaderBytes(h) == MAGIC + [version as char, 0 as char] + field + rest
  {
    hide DictText, Le16, Le32, IsLong, PaddingLength, HeaderBytes;
    BytesInPieces(h);
  }

  lemma FormatOf(version: nat, field: string, dict: string, pad: string)
    requires version < 256 && Blank(pad) && forall i :: 0 <= i < |pad| ==> pad[i] == ' '
    ensures var data, start := MAGIC + [version as char, 0 as char] + field + (dict + pad + "\n"), 8 + |field|;
      && Signature(data, version) && |data| == start + |dict| + |pad| + 1
      && LittleEndian(data[8..start]) == LittleEndian(field)
      && data[start..start + |dict|] == dict
      && (forall i :: start + |dict| <= i < |data| - 1 ==> data[i] == ' ')
      && data[|data| - 1] == '\n'
  {
    hide LittleEndian, Signature;
    var pre := MAGIC + [version as char, 0 as char];
    var data := pre + field + (dict + pad + "\n");
    assert data[..6] == MAGIC && data[6..8] == [version as char, 0 as char];
    SignatureIs(data, version);
    assert data[8..8 + |field|] == field;
    assert data[8 + |field|..8 + |field| + |dict|] == dict;
    forall i | 8 + |field| + |dict| <= i < |data| - 1
      ensures data[i] == ' '
    {
      assert data[i] == pad[i - 8 - |field| - |dict|];
    }
  }

  /** When a stream has a readable header: it has a signature of version 1.0 or 2.0. */
  lemma ReadsExactly(data: string)
    ensures ReadOf(data).Success? <==> Signature(data, 1) || Signature(data, 2)
    ensures !(Signature(data, 1) || Signature(data, 2)) ==> ReadOf(data) == Failure(
      if |data| < 8 then "io error: failed reading file"
      else if data[0] as int != 0x93 || data[1..6] != "NUMPY" then "this file does not have a valid npy format."
      else "unsupported file format version")
  {
    hide Signature, Fill, OfLe16, OfLe32;
    SignatureIs(data, 1);
    SignatureIs(data, 2);
    if |data| >= 8 {
      assert MAGIC == [0x93 as char] + "NUMPY";
      assert data[..6] == [data[0]] + data[1..6];
      assert MAGIC[1..] == "NUMPY" && data[..6][1..] == data[1..6];
    }
  }

  /** What is read from a complete stream: the number of bytes its length field says, after that field. */
  lemma ReadsWhatIsThere(data: string, version: nat)
    requires 1 <= version <= 2 && Signature(data, version) && forall i :: 0 <= i < |data| ==> data[i] as int < 256
    ensures var start := if version == 1 then 10 else 12;
      start <= |data| ==>
      var end := start + LittleEndian(data[8..start]);
      end <= |data| ==> ReadOf(data) == Success((data[start..end], end))
  {
    hide LittleEndian, Signature;
    SignatureIs(data, 1);
    SignatureIs(data, 2);
    var start := if version == 1 then 10 else 12;
    if start <= |data| {
      FieldRead(data, start);
      var end := start + LittleEndian(data[8..start]);
      if end <= |data| {
        FillInside(data, start, data[start..end]);
      }
    }
  }

  lemma FieldRead(data: string, start: nat)
    requires (start == 10 || start == 12) && start <= |data| && forall i :: 0 <= i < |data| ==> data[i] as int < 256
    ensures start == 10 ==> OfLe16(Fill(data, 8, 2)) == LittleEndian(data[8..10])
    ensures start == 12 ==> OfLe32(Fill(data, 8, 4)) == LittleEndian(data[8..12])
  {
    FillInside(data, 8, data[8..start]);
    if start == 10 {
      TwoBytes(data[8..10]);
    } else {
      FourBytes(data[8..12]);
    }
  }

  /** Whatever parses is a legal header, so printing it again and parsing that gives the same header. */
  lemma ParsedIsLegal(text: string, pad: string)
    requires HeaderOf(text).Success? && Blank(pad)
    ensures Legal(HeaderOf(text).value)
    ensures HeaderOf(DictText(HeaderOf(text).value) + pad + "\n") == HeaderOf(text)
  {
    var h := HeaderOf(text).value;
    LegalValue(text);
    NpyRoundTrip.HeaderRoundTrip(h, pad);
  }

  lemma LegalValue(text: string)
    requires HeaderOf(text).Success?
    ensures Legal(HeaderOf(text).value)
  {
    hide DictOf, TupleOf, DimsOf, Lookup, Stoul;
    var dict := DictOf(text[..|text| - 1], KEYS).value;
    DimsSmall(TupleOf(Lookup(dict, "shape")).value);
  }

  lemma {:induction false} DimsSmall(items: seq<string>)
    requires DimsOf(items).Success?
    ensures |DimsOf(items).value| == |items|
    ensures forall i :: 0 <= i < |items| ==> DimsOf(items).value[i] < UINT64_RANGE
  {
    if items != [] {
      DimsSmall(items[..|items| - 1]);
      StoulSmall(items[|items| - 1]);
    }
  }

  lemma StoulSmall(s: string)
    ensures Stoul(s).Success? ==> Stoul(s).value < UINT64_RANGE
  {
  }
}
