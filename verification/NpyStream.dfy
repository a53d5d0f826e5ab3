/** The .npy preamble: magic string, format version, little-endian header length, and the header
    padded for alignment (NEP 1, section "Format Specification: Version 1.0", and version 2.0). */
module NpyStream {
  import opened MmuTypes
  import opened NpyText
  import opened NpyHeader
  import NpyRoundTrip

  const MAGIC := "\U{93}NUMPY"

  function Byte256(n: nat): char {
    (n % 256) as char
  }

  function Le16(n: nat): (s: string)
    ensures |s| == 2
  {
    [Byte256(n), Byte256(n / 256)]
  }

  function Le32(n: nat): (s: string)
    ensures |s| == 4
  {
    [Byte256(n), Byte256(n / 256), Byte256(n / 65536), Byte256(n / 16777216)]
  }

  function OfLe16(s: string): nat
    requires |s| == 2
  {
    s[0] as int + s[1] as int * 256
  }

  function OfLe32(s: string): nat
    requires |s| == 4
  {
    (s[0] as int + s[1] as int * 256 + s[2] as int * 65536 + s[3] as int * 16777216) % UINT32_RANGE
  }

  lemma Le16RoundTrip(n: nat)
    ensures OfLe16(Le16(n)) == n % 65536
  {
    Bytes16(n);
    ByteValue(n);
    ByteValue(n / 256);
    hide Byte256;
  }

  lemma Le32RoundTrip(n: nat)
    ensures OfLe32(Le32(n)) == n % UINT32_RANGE
  {
    var m := n / 65536;
    Halves(n);
    Bytes16(n);
    Bytes16(m);
    assert m / 256 == n / 16777216;
    hide Byte256;
    assert Byte256(n) as int == n % 256 && Byte256(n / 256) as int == n / 256 % 256 by {
      ByteValue(n);
      ByteValue(n / 256);
    }
    assert Byte256(m) as int == m % 256 && Byte256(m / 256) as int == m / 256 % 256 by {
      ByteValue(m);
      ByteValue(m / 256);
    }
  }

  lemma ByteValue(n: nat)
    ensures Byte256(n) as int == n % 256
  {
  }

  lemma Bytes16(n: nat)
    ensures n % 65536 == n % 256 + 256 * (n / 256 % 256)
  {
  }

  lemma Halves(n: nat)
    ensures n % UINT32_RANGE == n % 65536 + 65536 * (n / 65536 % 65536)
    ensures n % 65536 + 65536 * (n / 65536 % 65536) < UINT32_RANGE
  {
  }

  /** Format version 2.0 is chosen for long dictionaries. */
  predicate IsLong(dictLength: nat) {
    6 + 2 + 2 + dictLength + 1 >= 255 * 255
  }

  /** Bytes before the dictionary. */
  function PrefixLength(dictLength: nat): nat {
    if IsLong(dictLength) then 6 + 2 + 4 else 6 + 2 + 2
  }

  function PaddingLength(dictLength: nat): (k: nat)
    ensures 1 <= k <= 16
  {
    16 - (PrefixLength(dictLength) + dictLength + 1) % 16
  }

  function Spaces(k: nat): (s: string)
    ensures |s| == k && Blank(s)
  {
    seq(k, i => ' ')
  }

  function DictText(h: Header): string {
    WriteHeaderDict(DtypeStr(h.dtype), h.fortranOrder, h.shape)
  }

  /** Dictionary, padding and newline: what read_header returns. */
  function HeaderText(h: Header): string {
    DictText(h) + Spaces(PaddingLength(|DictText(h)|)) + "\n"
  }

  /** Magic string, version and length field. The casts to 16 and 32 bits are those of Le16, Le32. */
  function Preamble(h: Header): string {
    MAGIC + if IsLong(|DictText(h)|) then [2 as char, 0 as char] + Le32(|HeaderText(h)|)
            else [1 as char, 0 as char] + Le16(|HeaderText(h)|)
  }

  function HeaderBytes(h: Header): string {
    Preamble(h) + HeaderText(h)
  }

  /** `n` bytes from `pos`; a short read leaves the rest of the zeroed buffer as it is. */
  function Fill(data: string, pos: nat, n: nat): (s: string)
    ensures |s| == n
  {
    seq(n, i requires 0 <= i < n => if pos + i < |data| then data[pos + i] else 0 as char)
  }

  /** read_header on a stream holding `data`, and the position after it. */
  function ReadOf(data: string): Result<(string, nat)> {
    if |data| < 8 then Failure("io error: failed reading file")
    else if data[..6] != MAGIC then Failure("this file does not have a valid npy format.")
    else if data[6..8] == [1 as char, 0 as char] then
      var length: nat, next: nat := OfLe16(Fill(data, 8, 2)), 10 + OfLe16(Fill(data, 8, 2));
      Success((Fill(data, 10, length), next))
    else if data[6..8] == [2 as char, 0 as char] then
      var length: nat, next: nat := OfLe32(Fill(data, 8, 4)), 12 + OfLe32(Fill(data, 8, 4));
      Success((Fill(data, 12, length), next))
    else Failure("unsupported file format version")
  }

  /** The length field as read back. */
  function LengthField(h: Header): nat {
    if IsLong(|DictText(h)|) then OfLe32(Le32(|HeaderText(h)|)) else OfLe16(Le16(|HeaderText(h)|))
  }

  lemma HeaderTextLength(h: Header)
    ensures |HeaderText(h)| == |DictText(h)| + PaddingLength(|DictText(h)|) + 1
    ensures |Preamble(h)| == PrefixLength(|DictText(h)|)
    ensures !IsLong(|DictText(h)|) ==> |HeaderText(h)| < 65536
  {
    hide DictText;
  }

  /** The header ends on a multiple of 16 bytes, and so the array data is aligned. */
  lemma HeaderAligned(h: Header)
    ensures |HeaderBytes(h)| % 16 == 0
  {
    HeaderTextLength(h);
    hide DictText, HeaderText, Preamble;
    var n := PrefixLength(|DictText(h)|) + |DictText(h)| + 1;
    assert |HeaderBytes(h)| == n + (16 - n % 16);
  }

  /** The version is chosen so that the 16-bit length never truncates; the 32-bit one is exact if
      and only if the header is shorter than 4 GiB. */
  lemma LengthFieldExact(h: Header)
    ensures LengthField(h) == |HeaderText(h)| <==> |HeaderText(h)| < UINT32_RANGE
    ensures !IsLong(|DictText(h)|) ==> LengthField(h) == |HeaderText(h)|
  {
    hide LengthField, HeaderText, DictText, Preamble, IsLong;
    HeaderTextLength(h);
    LengthFieldIs(h);
    Remainder(|HeaderText(h)|, 65536);
    Remainder(|HeaderText(h)|, UINT32_RANGE);
  }

  lemma LengthFieldIs(h: Header)
    ensures LengthField(h) == |HeaderText(h)| % if IsLong(|DictText(h)|) then UINT32_RANGE else 65536
  {
    hide Le16, Le32, OfLe16, OfLe32, HeaderText, DictText, IsLong;
    Le16RoundTrip(|HeaderText(h)|);
    Le32RoundTrip(|HeaderText(h)|);
  }

  lemma Remainder(n: nat, m: nat)
    requires m > 0
    ensures n % m == n <==> n < m
  {
  }

  lemma FillInside(data: string, pos: nat, s: string)
    requires pos + |s| <= |data| && data[pos..pos + |s|] == s
    ensures Fill(data, pos, |s|) == s
  {
    forall i | 0 <= i < |s|
      ensures Fill(data, pos, |s|)[i] == s[i]
    {
      assert data[pos + i] == data[pos..pos + |s|][i];
    }
  }

  lemma PreambleRead(pre: string, version: string, field: string, text: string, payload: string)
    requires |pre| == 6 && |version| == 2
    ensures var data := pre + version + field + text + payload;
      && data[..6] == pre && data[6..8] == version
      && Fill(data, 8, |field|) == field
      && Fill(data, 8 + |field|, |text|) == text
  {
    var data := pre + version + field + text + payload;
    assert data[8..8 + |field|] == field;
    assert data[8 + |field|..8 + |field| + |text|] == text;
    FillInside(data, 8, field);
    FillInside(data, 8 + |field|, text);
  }

  /** Reading back what was written returns the header text and stops at the payload. */
  lemma HeaderBytesRead(h: Header, payload: string)
    requires |HeaderText(h)| < UINT32_RANGE
    ensures ReadOf(HeaderBytes(h) + payload) == Success((HeaderText(h), |HeaderBytes(h)|))
  {
    hide Le16, Le32, OfLe16, OfLe32, HeaderText, DictText, Fill, ReadOf, IsLong;
    LengthFieldExact(h);
    HeaderTextLength(h);
    BytesInPieces(h);
    var text := HeaderText(h);
    if IsLong(|DictText(h)|) {
      ReadLong(Le32(|text|), text, payload);
    } else {
      ReadShort(Le16(|text|), text, payload);
    }
  }

  lemma BytesInPieces(h: Header)
    ensures var n := |HeaderText(h)|;
      HeaderBytes(h) == if IsLong(|DictText(h)|) then MAGIC + [2 as char, 0 as char] + Le32(n) + HeaderText(h)
                        else MAGIC + [1 as char, 0 as char] + Le16(n) + HeaderText(h)
  {
    hide Le16, Le32, HeaderText, DictText, IsLong;
    var n := |HeaderText(h)|;
    assert MAGIC + ([2 as char, 0 as char] + Le32(n)) == MAGIC + [2 as char, 0 as char] + Le32(n);
    assert MAGIC + ([1 as char, 0 as char] + Le16(n)) == MAGIC + [1 as char, 0 as char] + Le16(n);
  }

  lemma ReadShort(field: string, text: string, payload: string)
    requires |field| == 2 && OfLe16(field) == |text|
    ensures ReadOf(MAGIC + [1 as char, 0 as char] + field + text + payload) == Success((text, 10 + |text|))
  {
    hide OfLe16, OfLe32, Fill;
    PreambleRead(MAGIC, [1 as char, 0 as char], field, text, payload);
  }

  lemma ReadLong(field: string, text: string, payload: string)
    requires |field| == 4 && OfLe32(field) == |text|
    ensures ReadOf(MAGIC + [2 as char, 0 as char] + field + text + payload) == Success((text, 12 + |text|))
  {
    hide OfLe16, OfLe32, Fill;
    PreambleRead(MAGIC, [2 as char, 0 as char], field, text, payload);
    assert [2 as char, 0 as char][0] != [1 as char, 0 as char][0];
  }

  /** A whole header survives being written to a stream, read back and parsed. */
  lemma StreamRoundTrip(h: Header, payload: string)
    requires Legal(h) && |HeaderText(h)| < UINT32_RANGE
    ensures ReadOf(HeaderBytes(h) + payload).Success?
    ensures HeaderOf(ReadOf(HeaderBytes(h) + payload).value.0) == Success(h)
  {
    HeaderBytesRead(h, payload);
    NpyRoundTrip.HeaderRoundTrip(h, Spaces(PaddingLength(|DictText(h)|)));
  }

  class OutStream {
    var data: string

    constructor ()
      ensures data == ""
    {
      data := "";
    }

    method Put(s: string)
      modifies this
      ensures data == old(data) + s
    {
      data := data + s;
    }
  }

  class InStream {
    const data: string
    var pos: nat

    constructor (data: string)
      ensures this.data == data && pos == 0
    {
      this.data := data;
      pos := 0;
    }

    /** Read `n` bytes into a zeroed buffer; `ok` is false after a short read. */
    method Read(n: nat) returns (buffer: string, ok: bool)
      modifies this
      ensures buffer == Fill(data, old(pos), n) && ok == (old(pos) + n <= |data|)
      ensures pos == if ok then old(pos) + n else |data|
    {
      buffer := Fill(data, pos, n);
      ok := pos + n <= |data|;
      pos := if ok then pos + n else |data|;
    }
  }

  method WriteMagic(out: OutStream, major: nat, minor: nat)
    requires major < 256 && minor < 256
    modifies out
    ensures out.data == old(out.data) + (MAGIC + [major as char, minor as char])
  {
    out.Put(MAGIC);
    out.Put([major as char]);
    out.Put([minor as char]);
    assert out.data == old(out.data) + (MAGIC + [major as char, minor as char]);
  }

  method WriteHeader(out: OutStream, h: Header)
    modifies out
    ensures out.data == old(out.data) + HeaderBytes(h)
  {
    hide WriteHeaderDict, Le16, Le32;
    var dict := WriteHeaderDict(DtypeStr(h.dtype), h.fortranOrder, h.shape);
    var length := 6 + 2 + 2 + |dict| + 1;
    var major := 1;
    if length >= 255 * 255 {
      length := 6 + 2 + 4 + |dict| + 1;
      major := 2;
    }
    var paddingLength := 16 - length % 16;
    var padding := Spaces(paddingLength);
    var headerLength := |dict| + paddingLength + 1;
    WriteMagic(out, major, 0);
    ghost var field := if major == 1 then Le16(headerLength) else Le32(headerLength);
    if major == 1 {
      out.Put(Le16(headerLength));
    } else {
      out.Put(Le32(headerLength));
    }
    out.Put(dict + padding + "\n");
    assert HeaderText(h) == dict + padding + "\n";
    assert MAGIC + ([major as char, 0 as char] + field) == MAGIC + [major as char, 0 as char] + field;
    assert Preamble(h) == MAGIC + [major as char, 0 as char] + field;
    Appended(old(out.data), MAGIC + [major as char, 0 as char], field, dict + padding + "\n");
  }

  lemma Appended(a: string, b: string, c: string, d: string)
    ensures a + b + c + d == a + (b + c + d)
  {
  }

  lemma FillPast(data: string, p: nat, n: nat)
    ensures Fill(data, if p <= |data| then p else |data|, n) == Fill(data, p, n)
  {
  }

  method ReadHeader(input: InStream) returns (r: Result<string>)
    requires input.pos == 0
    modifies input
    ensures match ReadOf(input.data)
      case Success((text, next)) => r == Success(text) && input.pos == (if next <= |input.data| then next else |input.data|)
      case Failure(error) => r == Failure(error)
  {
    hide OfLe16, OfLe32;
    var buffer, ok := input.Read(8);
    if !ok {
      return Failure("io error: failed reading file");
    }
    assert buffer == input.data[..8];
    assert buffer[..6] == input.data[..6] && buffer[6..] == input.data[6..8];
    if buffer[..6] != MAGIC {
      return Failure("this file does not have a valid npy format.");
    }
    var length := 0;
    if buffer[6..] == [1 as char, 0 as char] {
      var field, _ := input.Read(2);
      length := OfLe16(field);
      FillPast(input.data, 10, length);
    } else if buffer[6..] == [2 as char, 0 as char] {
      var field, _ := input.Read(4);
      length := OfLe32(field);
      FillPast(input.data, 12, length);
    } else {
      return Failure("unsupported file format version");
    }
    var text, _ := input.Read(length);
    return Success(text);
  }
}
