/** Text routines under the .npy header parser: trimming, searching, tokens and decimal numbers. */
module NpyText {
  import opened MmuTypes
  import Globs

  datatype Result<+T> = Success(value: T) | Failure(error: string) {
    predicate IsFailure() {
      Failure?
    }

    function PropagateFailure<U>(): Result<U>
      requires Failure?
    {
      Failure(error)
    }

    function Extract(): T
      requires Success?
    {
      value
    }
  }

  predicate IsBlank(c: char) {
    c == ' ' || c == '\t'
  }

  predicate Blank(s: string) {
    forall i :: 0 <= i < |s| ==> IsBlank(s[i])
  }

  function TrimLeft(s: string): string {
    if s != [] && IsBlank(s[0]) then TrimLeft(s[1..]) else s
  }

  function TrimRight(s: string): string {
    if s != [] && IsBlank(s[|s| - 1]) then TrimRight(s[..|s| - 1]) else s
  }

  /** Without leading and trailing spaces and tabs. */
  function Trim(s: string): string {
    TrimRight(TrimLeft(s))
  }

  predicate Tight(s: string) {
    s != [] && !IsBlank(s[0]) && !IsBlank(s[|s| - 1])
  }

  lemma {:induction false} TrimLeftDrops(pad: string, s: string)
    requires Blank(pad) && s != [] && !IsBlank(s[0])
    ensures TrimLeft(pad + s) == s
  {
    if pad == [] {
      assert pad + s == s;
    } else {
      assert (pad + s)[1..] == pad[1..] + s;
      TrimLeftDrops(pad[1..], s);
    }
  }

  lemma {:induction false} TrimRightDrops(s: string, pad: string)
    requires Blank(pad) && s != [] && !IsBlank(s[|s| - 1])
    ensures TrimRight(s + pad) == s
  {
    if pad == [] {
      assert s + pad == s;
    } else {
      assert (s + pad)[..|s + pad| - 1] == s + pad[..|pad| - 1];
      TrimRightDrops(s, pad[..|pad| - 1]);
    }
  }

  /** Padding on either side of a tight text is removed, and nothing else. */
  lemma TrimKeeps(left: string, s: string, right: string)
    requires Blank(left) && Tight(s) && Blank(right)
    ensures Trim(left + s + right) == s
  {
    assert left + s + right == left + (s + right);
    TrimLeftDrops(left, s + right);
    TrimRightDrops(s, right);
  }

  predicate OccursAt(s: string, pat: string, i: nat) {
    i + |pat| <= |s| && s[i..i + |pat|] == pat
  }

  /** First occurrence of `pat` from position `from` on. */
  function FindFrom(s: string, pat: string, from: nat): (r: Option<nat>)
    ensures r.Some? ==> from <= r.value && OccursAt(s, pat, r.value)
    ensures r.Some? ==> forall i :: from <= i < r.value ==> !OccursAt(s, pat, i)
    ensures r.None? ==> forall i :: from <= i ==> !OccursAt(s, pat, i)
    decreases |s| - from
  {
    if from > |s| then None
    else if OccursAt(s, pat, from) then Some(from)
    else FindFrom(s, pat, from + 1)
  }

  function Find(s: string, pat: string): Option<nat> {
    FindFrom(s, pat, 0)
  }

  /** An occurrence with none before it is the one found. */
  lemma FindIs(s: string, pat: string, i: nat)
    requires OccursAt(s, pat, i) && forall j :: 0 <= j < i ==> !OccursAt(s, pat, j)
    ensures Find(s, pat) == Some(i)
  {
  }

  /** No `a` is followed by a `b`. */
  predicate NoPair(s: string, a: char, b: char) {
    forall i :: 0 <= i < |s| - 1 && s[i] == a ==> s[i + 1] != b
  }

  lemma NoPairConcat(s: string, t: string, a: char, b: char)
    requires NoPair(s, a, b) && NoPair(t, a, b)
    requires s != [] && t != [] ==> s[|s| - 1] != a || t[0] != b
    ensures NoPair(s + t, a, b)
  {
  }

  lemma OccursStart(s: string, pat: string, i: nat)
    requires |pat| >= 2 && i + 1 < |s|
    ensures OccursAt(s, pat, i) ==> s[i] == pat[0] && s[i + 1] == pat[1]
  {
    if i + |pat| <= |s| {
      assert s[i..i + |pat|][0] == s[i] && s[i..i + |pat|][1] == s[i + 1];
    }
  }

  /** A pattern is found right after a text in which its first two characters never meet. */
  lemma FindAfter(before: string, rest: string, pat: string)
    requires |pat| >= 2 && pat <= rest && NoPair(before + [pat[0]], pat[0], pat[1])
    ensures Find(before + rest, pat) == Some(|before|)
  {
    var s := before + rest;
    assert s[|before|..|before| + |pat|] == rest[..|pat|];
    forall j | 0 <= j < |before|
      ensures !OccursAt(s, pat, j)
    {
      OccursStart(s, pat, j);
      assert (before + [pat[0]])[j] == s[j] && (before + [pat[0]])[j + 1] == s[j + 1];
    }
    FindIs(s, pat, |before|);
  }

  /** First occurrence of a character. */
  lemma FindCharAfter(before: string, rest: string, c: char)
    requires c !in before && rest != [] && rest[0] == c
    ensures Find(before + rest, [c]) == Some(|before|)
  {
    var s := before + rest;
    forall j | 0 <= j < |before|
      ensures !OccursAt(s, [c], j)
    {
      assert s[j..j + 1] == [before[j]];
    }
    assert s[|before|..|before| + 1] == [c];
    FindIs(s, [c], |before|);
  }

  predicate IsDigit(c: char) {
    '0' <= c <= '9'
  }

  predicate AllDigits(s: string) {
    forall i :: 0 <= i < |s| ==> IsDigit(s[i])
  }

  function DigitChar(d: nat): (c: char)
    requires d < 10
    ensures IsDigit(c)
  {
    '0' + d as char
  }

  /** Decimal notation, without leading zeros. */
  function Decimal(n: nat): (s: string)
    ensures s != [] && AllDigits(s)
  {
    if n < 10 then [DigitChar(n)] else Decimal(n / 10) + [DigitChar(n % 10)]
  }

  function DecimalValue(s: string): nat
    requires AllDigits(s)
  {
    if s == [] then 0 else DecimalValue(s[..|s| - 1]) * 10 + (s[|s| - 1] - '0') as nat
  }

  lemma {:induction false} DecimalRoundTrip(n: nat)
    ensures DecimalValue(Decimal(n)) == n
  {
    if n < 10 {
      assert DecimalValue([]) == 0;
      assert Decimal(n)[..0] == [];
    } else {
      DecimalRoundTrip(n / 10);
      assert Decimal(n)[..|Decimal(n)| - 1] == Decimal(n / 10);
    }
  }

  /** Characters std::stoul skips before the number. */
  predicate IsSpace(c: char) {
    c == ' ' || '\t' <= c <= '\r'
  }

  function SkipSpaces(s: string): string {
    if s != [] && IsSpace(s[0]) then SkipSpaces(s[1..]) else s
  }

  /** Longest prefix of digits. */
  function DigitPrefix(s: string): (r: string)
    ensures r <= s && AllDigits(r)
    ensures |r| < |s| ==> !IsDigit(s[|r|])
  {
    if s != [] && IsDigit(s[0]) then
      var r := DigitPrefix(s[1..]);
      assert [s[0]] + r <= s;
      [s[0]] + r
    else []
  }

  /** std::stoul: blanks, an optional sign, digits; anything after them is ignored. */
  function Stoul(s: string): Result<nat> {
    var t := SkipSpaces(s);
    var negative := t != [] && t[0] == '-';
    var digits := DigitPrefix(if t != [] && (t[0] == '-' || t[0] == '+') then t[1..] else t);
    if digits == [] then Failure("stoul: no conversion")
    else if DecimalValue(digits) >= UINT64_RANGE then Failure("stoul: out of range")
    else if negative then Success((UINT64_RANGE - DecimalValue(digits)) % UINT64_RANGE)
    else Success(DecimalValue(digits))
  }

  lemma {:induction false} DigitPrefixAll(s: string)
    requires AllDigits(s)
    ensures DigitPrefix(s) == s
  {
    if s != [] {
      assert AllDigits(s[1..]);
      DigitPrefixAll(s[1..]);
    }
  }

  /** A number written in decimal, after at most one space, is read back. */
  lemma StoulReadsDecimal(n: nat, s: string)
    requires n < UINT64_RANGE && (s == Decimal(n) || s == [' '] + Decimal(n))
    ensures Stoul(s) == Success(n)
  {
    var d := Decimal(n);
    assert IsDigit(d[0]);
    assert ([' '] + d)[1..] == d;
    assert SkipSpaces(d) == d;
    DigitPrefixAll(d);
    DecimalRoundTrip(n);
  }

  /** Repeated std::getline with a separator: like splitting, but a final empty piece is dropped. */
  function Tokens(s: string, separator: char): seq<string> {
    var parts := Globs.Split(s, separator);
    if parts[|parts| - 1] == [] then parts[..|parts| - 1] else parts
  }
}
