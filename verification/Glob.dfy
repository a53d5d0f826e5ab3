/** Test-name filters: the linear-time glob matcher and the filter built on it. */
module Globs {

  /** What a pattern means: `?` is any one character, `*` any string, anything else itself. */
  ghost predicate Matches(pattern: string, name: string)
    decreases pattern
  {
    if pattern == [] then name == []
    else if pattern[0] == '*' then exists k :: 0 <= k <= |name| && Matches(pattern[1..], name[k..])
    else name != [] && (pattern[0] == '?' || pattern[0] == name[0]) && Matches(pattern[1..], name[1..])
  }

  /** Matches(pattern[p..], name[n..]). */
  ghost predicate From(pattern: string, p: nat, name: string, n: nat) {
    p <= |pattern| && n <= |name| && Matches(pattern[p..], name[n..])
  }

  /** The rest of the pattern after position `p`. */
  ghost predicate After(pattern: string, p: nat, name: string, n: nat) {
    From(pattern, p + 1, name, n)
  }

  lemma FromEnd(pattern: string, name: string, n: nat)
    requires n <= |name|
    ensures From(pattern, |pattern|, name, n) <==> n == |name|
  {
  }

  lemma FromPlain(pattern: string, p: nat, name: string, n: nat)
    requires p < |pattern| && n <= |name| && pattern[p] != '*'
    ensures From(pattern, p, name, n) <==>
            n < |name| && (pattern[p] == '?' || pattern[p] == name[n]) && From(pattern, p + 1, name, n + 1)
  {
    assert pattern[p..][1..] == pattern[p + 1..];
    if n < |name| {
      assert name[n..][1..] == name[n + 1..];
    }
  }

  lemma FromStar(pattern: string, p: nat, name: string, n: nat)
    requires p < |pattern| && n <= |name| && pattern[p] == '*'
    ensures From(pattern, p, name, n) <==> exists x :: n <= x && After(pattern, p, name, x)
  {
    var rest := pattern[p..];
    assert rest[1..] == pattern[p + 1..];
    if From(pattern, p, name, n) {
      var k :| 0 <= k <= |name[n..]| && Matches(rest[1..], name[n..][k..]);
      assert name[n..][k..] == name[n + k..];
      assert After(pattern, p, name, n + k);
    }
    if x :| n <= x && After(pattern, p, name, x) {
      assert name[n..][x - n..] == name[x..];
      assert Matches(rest[1..], name[n..][x - n..]);
    }
  }

  /** A star can swallow more. */
  lemma StarAbsorbs(pattern: string, p: nat, name: string, n: nat, m: nat)
    requires p < |pattern| && pattern[p] == '*' && n <= m && From(pattern, p, name, m)
    ensures From(pattern, p, name, n)
  {
    FromStar(pattern, p, name, m);
    FromStar(pattern, p, name, n);
  }

  /** The state of an attempt: the star at `star` was taken to end before `start`, and the plain
      characters after it, up to `p`, were matched against the name up to `n`. */
  ghost predicate Attempt(pattern: string, star: nat, start: nat, p: nat, name: string, n: nat) {
    && star < p <= |pattern| && pattern[star] == '*' && start <= n <= |name|
    && n - start == p - (star + 1)
    && (Matches(pattern, name) <==> From(pattern, star, name, start))
    && (From(pattern, p, name, n) ==> After(pattern, star, name, start))
    && (forall x :: start <= x && After(pattern, star, name, x) ==> From(pattern, p, name, x + (p - star - 1)))
  }

  lemma AttemptAdvances(pattern: string, star: nat, start: nat, p: nat, name: string, n: nat)
    requires Attempt(pattern, star, start, p, name, n)
    requires p < |pattern| && pattern[p] != '*' && n < |name| && (pattern[p] == '?' || pattern[p] == name[n])
    ensures Attempt(pattern, star, start, p + 1, name, n + 1)
  {
    FromPlain(pattern, p, name, n);
    forall x | start <= x && After(pattern, star, name, x)
      ensures From(pattern, p + 1, name, x + (p + 1 - star - 1))
    {
      var y := x + (p - star - 1);
      assert From(pattern, p, name, y);
      FromPlain(pattern, p, name, y);
    }
  }

  /** Reaching the next star, earlier choices no longer matter. */
  lemma AttemptReachesStar(pattern: string, star: nat, start: nat, p: nat, name: string, n: nat)
    requires Attempt(pattern, star, start, p, name, n) && p < |pattern| && pattern[p] == '*'
    ensures Matches(pattern, name) <==> From(pattern, p, name, n)
  {
    FromStar(pattern, star, name, start);
    if x :| start <= x && After(pattern, star, name, x) {
      StarAbsorbs(pattern, p, name, n, x + (p - star - 1));
    }
  }

  /** A failed attempt leaves the ones that start later. */
  lemma AttemptFails(pattern: string, star: nat, start: nat, p: nat, name: string, n: nat)
    requires Attempt(pattern, star, start, p, name, n) && !From(pattern, p, name, n)
    ensures Matches(pattern, name) <==> From(pattern, star, name, start + 1)
  {
    FromStar(pattern, star, name, start);
    assert !After(pattern, star, name, start);
    if start < |name| {
      FromStar(pattern, star, name, start + 1);
    }
  }

  lemma AttemptSucceeds(pattern: string, star: nat, start: nat, p: nat, name: string, n: nat)
    requires Attempt(pattern, star, start, p, name, n) && From(pattern, p, name, n)
    ensures Matches(pattern, name)
  {
    FromStar(pattern, star, name, start);
  }

  lemma AttemptStarts(pattern: string, p: nat, name: string, n: nat)
    requires p < |pattern| && pattern[p] == '*' && n <= |name|
    requires Matches(pattern, name) <==> From(pattern, p, name, n)
    ensures Attempt(pattern, p, n, p + 1, name, n)
  {
  }

  /** Nothing after a mismatch. */
  lemma Mismatch(pattern: string, p: nat, name: string, n: nat)
    requires p <= |pattern| && n <= |name|
    requires if p < |pattern| then pattern[p] != '*' && (n == |name| || (pattern[p] != '?' && pattern[p] != name[n]))
             else n < |name|
    ensures !From(pattern, p, name, n)
  {
    if p < |pattern| {
      FromPlain(pattern, p, name, n);
    } else {
      FromEnd(pattern, name, n);
    }
  }

  /** PatternMatchesString: greedy matching that goes back only to the last star. */
  method PatternMatchesString(name: string, pattern: string) returns (matches: bool)
    ensures matches <==> Matches(pattern, name)
  {
    hide Matches, From;
    var p, n := 0, 0;
    var patternNext, nameNext := 0, 0;
    assert pattern[0..] == pattern && name[0..] == name;
    FromZero(pattern, name);
    while p < |pattern| || n < |name|
      invariant p <= |pattern| && n <= |name| && nameNext <= |name| + 1
      invariant nameNext > 0 ==> patternNext < |pattern| && pattern[patternNext] == '*'
      invariant nameNext == 0 || (p == patternNext && n == nameNext) ==>
                  (Matches(pattern, name) <==> From(pattern, p, name, n))
      invariant nameNext == 0 || (p == patternNext && n == nameNext)
                || Attempt(pattern, patternNext, nameNext - 1, p, name, n)
      decreases |pattern| - (if nameNext == 0 then -1 else patternNext),
                |name| + 1 - (if nameNext == 0 then 0 else if p == patternNext then n else nameNext - 1),
                |pattern| - p
    {
      if p < |pattern| {
        if pattern[p] == '*' {
          if nameNext > 0 && !(p == patternNext && n == nameNext) {
            AttemptReachesStar(pattern, patternNext, nameNext - 1, p, name, n);
          }
          AttemptStarts(pattern, p, name, n);
          patternNext := p;
          nameNext := n + 1;
          p := p + 1;
          continue;
        }
        if n < |name| && (pattern[p] == '?' || name[n] == pattern[p]) {
          FromPlain(pattern, p, name, n);
          if nameNext > 0 {
            AttemptAdvances(pattern, patternNext, nameNext - 1, p, name, n);
          }
          p := p + 1;
          n := n + 1;
          continue;
        }
      }
      Mismatch(pattern, p, name, n);
      if nameNext > 0 {
        AttemptFails(pattern, patternNext, nameNext - 1, p, name, n);
      }
      if 0 < nameNext <= |name| {
        p := patternNext;
        n := nameNext;
        continue;
      }
      PastTheEnd(pattern, patternNext, name, nameNext);
      return false;
    }
    FromEnd(pattern, name, n);
    if nameNext > 0 && !(p == patternNext && n == nameNext) {
      AttemptSucceeds(pattern, patternNext, nameNext - 1, p, name, n);
    }
    return true;
  }

  lemma FromZero(pattern: string, name: string)
    ensures From(pattern, 0, name, 0) <==> Matches(pattern, name)
  {
    assert pattern[0..] == pattern && name[0..] == name;
  }

  lemma PastTheEnd(pattern: string, p: nat, name: string, n: nat)
    ensures n > |name| ==> !From(pattern, p, name, n)
  {
  }

  predicate IsWildcard(c: char) {
    c == '?' || c == '*'
  }

  predicate IsGlobPattern(pattern: string) {
    exists i :: 0 <= i < |pattern| && IsWildcard(pattern[i])
  }

  /** A pattern without wildcards matches itself only. */
  lemma {:induction false} LiteralMatches(pattern: string, name: string)
    requires !IsGlobPattern(pattern)
    ensures Matches(pattern, name) <==> pattern == name
  {
    if pattern != [] {
      assert !IsWildcard(pattern[0]);
      assert forall i :: 0 <= i < |pattern[1..]| ==> pattern[1..][i] == pattern[i + 1];
      if name != [] {
        LiteralMatches(pattern[1..], name[1..]);
        assert pattern == [pattern[0]] + pattern[1..] && name == [name[0]] + name[1..];
      }
    }
  }

  /** The pieces between delimiters. */
  function Split(s: string, d: char): (r: seq<string>)
    ensures r != []
  {
    if s == [] then [[]]
    else
      var rest := Split(s[1..], d);
      if s[0] == d then [[]] + rest else [[s[0]] + rest[0]] + rest[1..]
  }

  function Join(parts: seq<string>, d: char): string
    requires parts != []
  {
    if |parts| == 1 then parts[0] else parts[0] + [d] + Join(parts[1..], d)
  }

  lemma JoinOne(part: string, d: char)
    ensures Join([part], d) == part
  {
  }

  lemma JoinCons(part: string, rest: seq<string>, d: char)
    requires rest != []
    ensures Join([part] + rest, d) == part + [d] + Join(rest, d)
  {
    assert ([part] + rest)[1..] == rest;
  }

  lemma {:induction false} JoinSplit(s: string, d: char)
    ensures Join(Split(s, d), d) == s
    ensures forall i :: 0 <= i < |Split(s, d)| ==> d !in Split(s, d)[i]
  {
    if s != [] {
      var rest := Split(s[1..], d);
      JoinSplit(s[1..], d);
      assert s == [s[0]] + s[1..];
      if s[0] == d {
        assert Split(s, d)[1..] == rest;
      } else {
        var first := [s[0]] + rest[0];
        assert Split(s, d) == [first] + rest[1..];
        assert Split(s, d)[1..] == rest[1..];
        if |rest| > 1 {
          assert first + [d] + Join(rest[1..], d) == [s[0]] + (rest[0] + [d] + Join(rest[1..], d));
        }
      }
    }
  }

  /** Splitting is the only way to write a string as delimiter-free parts. */
  lemma {:induction false} SplitJoin(parts: seq<string>, d: char)
    requires parts != [] && forall i :: 0 <= i < |parts| ==> d !in parts[i]
    ensures Split(Join(parts, d), d) == parts
    decreases |parts|, |parts[0]|
  {
    var s := Join(parts, d);
    if parts[0] == [] {
      if |parts| > 1 {
        assert s == [d] + Join(parts[1..], d);
        assert s[1..] == Join(parts[1..], d);
        SplitJoin(parts[1..], d);
        assert parts == [[]] + parts[1..];
      } else {
        assert parts == [[]];
      }
    } else {
      var first, rest := parts[0], [parts[0][1..]] + parts[1..];
      assert first == [first[0]] + first[1..];
      assert forall i :: 0 <= i < |rest| ==> d !in rest[i] by {
        assert forall c :: c in first[1..] ==> c in first;
      }
      assert rest[1..] == parts[1..];
      assert s == [first[0]] + Join(rest, d);
      assert s[1..] == Join(rest, d);
      SplitJoin(rest, d);
      assert first[0] in first;
      assert parts == [[first[0]] + rest[0]] + rest[1..];
    }
  }

  /** First occurrence of `d` at or after `pos`; |s| when there is none. */
  method Find(s: string, d: char, pos: nat) returns (i: nat)
    requires pos <= |s|
    ensures pos <= i <= |s| && (i < |s| ==> s[i] == d) && d !in s[pos..i]
  {
    i := pos;
    while i < |s| && s[i] != d
      invariant pos <= i <= |s| && d !in s[pos..i]
    {
      i := i + 1;
    }
  }

  lemma {:induction false} SplitAt(s: string, d: char, i: nat)
    requires i <= |s| && d !in s[..i]
    ensures i == |s| ==> Split(s, d) == [s]
    ensures i < |s| && s[i] == d ==> Split(s, d) == [s[..i]] + Split(s[i + 1..], d)
  {
    if i > 0 {
      assert s[0] in s[..i];
      assert s[1..][..i - 1] == s[1..i];
      assert forall c :: c in s[1..i] ==> c in s[..i];
      SplitAt(s[1..], d, i - 1);
      assert s == [s[0]] + s[1..];
      assert s[1..][i - 1..] == s[i..];
      if i < |s| {
        assert s[1..][i..] == s[i + 1..];
        assert s[..i] == [s[0]] + s[1..][..i - 1];
      }
    } else if s != [] {
      assert s[1..] == s[i + 1..];
      assert s[..0] == [];
    }
  }

  method SplitString(str: string, delimiter: char) returns (parsed: seq<string>)
    ensures parsed == Split(str, delimiter)
  {
    hide Split;
    parsed := [];
    var pos := 0;
    assert str[0..] == str;
    while true
      invariant pos <= |str|
      invariant Split(str, delimiter) == parsed + Split(str[pos..], delimiter)
      decreases |str| - pos
    {
      var colon := Find(str, delimiter, pos);
      assert str[pos..][..colon - pos] == str[pos..colon];
      SplitAt(str[pos..], delimiter, colon - pos);
      if colon == |str| {
        parsed := parsed + [str[pos..]];
        return;
      }
      assert str[pos..][colon - pos + 1..] == str[colon + 1..];
      parsed := parsed + [str[pos..colon]];
      pos := colon + 1;
    }
  }

  /** Some pattern of the filter matches the name. */
  ghost predicate FilterMatches(filter: string, name: string) {
    exists i :: 0 <= i < |Split(filter, ':')| && Matches(Split(filter, ':')[i], name)
  }

  class UnitTestFilter {
    var globPatterns: seq<string>
    var exactMatchPatterns: set<string>

    /** The filter holds the patterns of `filter`, those with wildcards apart from the others. */
    ghost predicate Holds(filter: string)
      reads this
    {
      && (forall p :: p in globPatterns <==> p in Split(filter, ':') && IsGlobPattern(p))
      && (forall p :: p in exactMatchPatterns <==> p in Split(filter, ':') && !IsGlobPattern(p))
    }

    constructor (filter: string)
      ensures Holds(filter)
    {
      var all := SplitString(filter, ':');
      var globs: seq<string>, exact: set<string> := [], {};
      for i := 0 to |all|
        invariant forall p :: p in globs <==> p in all[..i] && IsGlobPattern(p)
        invariant forall p :: p in exact <==> p in all[..i] && !IsGlobPattern(p)
      {
        assert all[..i + 1] == all[..i] + [all[i]];
        if IsGlobPattern(all[i]) {
          globs := globs + [all[i]];
        } else {
          exact := exact + {all[i]};
        }
      }
      assert all[..|all|] == all;
      globPatterns, exactMatchPatterns := globs, exact;
    }

    /** Looking literal patterns up in a set decides what matching every pattern would. */
    method MatchesName(name: string, ghost filter: string) returns (matches: bool)
      requires Holds(filter)
      ensures matches <==> FilterMatches(filter, name)
    {
      if name in exactMatchPatterns {
        ExactHit(filter, name);
        return true;
      }
      matches := false;
      for i := 0 to |globPatterns|
        invariant !matches && forall j :: 0 <= j < i ==> !Matches(globPatterns[j], name)
      {
        var hit := PatternMatchesString(name, globPatterns[i]);
        if hit {
          assert globPatterns[i] in Split(filter, ':');
          return true;
        }
      }
      forall i | 0 <= i < |Split(filter, ':')|
        ensures !Matches(Split(filter, ':')[i], name)
      {
        var p := Split(filter, ':')[i];
        if IsGlobPattern(p) {
          assert p in globPatterns;
        } else {
          LiteralMatches(p, name);
        }
      }
    }
  }

  lemma ExactHit(filter: string, name: string)
    requires name in Split(filter, ':') && !IsGlobPattern(name)
    ensures FilterMatches(filter, name)
  {
    LiteralMatches(name, name);
  }
}
