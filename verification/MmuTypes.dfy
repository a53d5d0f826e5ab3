/** Vocabulary shared by every layer of the memory manager: status codes, tiers,
    configuration, pages of bytes, and counting over sequences. */
module MmuTypes {

  datatype Option<+T> = None | Some(value: T)

  datatype Status =
    | Ok
    | InvalidArgument
    | OutOfMemory
    | Unallocated
    | NotFound
    | Internal
    | VersionMismatch
    | BadHandle

  datatype Tier = L0 | L1 | L2

  type Byte = b: int | 0 <= b < 256
  type Page = seq<Byte>

  /** A context handle. The source uses an address, which may be reused once the context is gone. */
  type Handle = nat

  /** kInvalidBlockId, kInvalidFrameId and kInvalidSlotId share this value. */
  const NONE := -1

  const INT_MAX := 0x7fff_ffff
  const UINT32_RANGE := 0x1_0000_0000
  const UINT64_RANGE := 0x1_0000_0000_0000_0000
  const DEFAULT_CHUNK_BLOCK_COUNT := 4096
  const API_VERSION := 1

  function Zeros(n: nat): Page {
    seq(n, i => 0)
  }

  /** A zero page has the asked length and only zeros. */
  lemma ZerosAre(n: nat)
    ensures |Zeros(n)| == n && forall i :: 0 <= i < n ==> Zeros(n)[i] == 0
  {
  }

  function Min(a: int, b: int): int {
    if a < b then a else b
  }

  lemma Monotone(a: nat, b: nat, c: nat)
    ensures a <= b ==> a * c <= b * c
  {
  }

  /** `q` is the quotient exactly when `n` lies between `q` and `q + 1` times the divisor. */
  lemma Quotient(n: nat, d: nat, q: nat)
    requires d > 0
    ensures n / d == q <==> q * d <= n < (q + 1) * d
  {
    var r := n / d;
    assert n == r * d + n % d;
    assert (r + 1) * d == r * d + d && (q + 1) * d == q * d + d;
    if q < r {
      Monotone(q + 1, r, d);
    } else if r < q {
      Monotone(r + 1, q, d);
    }
  }

  /** Number of elements of `s` that satisfy `f`. */
  function Count<T>(s: seq<T>, f: T -> bool): nat {
    if s == [] then 0
    else Count(s[..|s| - 1], f) + if f(s[|s| - 1]) then 1 else 0
  }

  lemma {:induction false} CountUpdate<T>(s: seq<T>, f: T -> bool, i: nat, x: T)
    requires i < |s|
    ensures Count(s[i := x], f) ==
            Count(s, f) - (if f(s[i]) then 1 else 0) + (if f(x) then 1 else 0)
  {
    var t := s[i := x];
    if i == |s| - 1 {
      assert t[..|t| - 1] == s[..|s| - 1];
    } else {
      assert t[..|t| - 1] == s[..|s| - 1][i := x];
      CountUpdate(s[..|s| - 1], f, i, x);
    }
  }

  /** Pointwise implication bounds the counts, strictly when some position satisfies only `g`. */
  lemma {:induction false} CountImplies<S, T>(s: seq<S>, f: S -> bool, t: seq<T>, g: T -> bool)
    requires |s| == |t|
    requires forall i :: 0 <= i < |s| && f(s[i]) ==> g(t[i])
    ensures Count(s, f) <= Count(t, g)
    ensures (exists i :: 0 <= i < |s| && !f(s[i]) && g(t[i])) ==> Count(s, f) < Count(t, g)
  {
    if s != [] {
      var s0, t0 := s[..|s| - 1], t[..|t| - 1];
      CountImplies(s0, f, t0, g);
      if i :| 0 <= i < |s| && !f(s[i]) && g(t[i]) {
        assert i < |s0| ==> !f(s0[i]) && g(t0[i]);
      }
    }
  }

  /** The count is at most the length, reaches it only when every element satisfies `f`,
      and is zero exactly when none does. */
  lemma {:induction false} CountBounds<T>(s: seq<T>, f: T -> bool)
    ensures Count(s, f) <= |s|
    ensures Count(s, f) == |s| <==> forall i :: 0 <= i < |s| ==> f(s[i])
    ensures Count(s, f) == 0 <==> forall i :: 0 <= i < |s| ==> !f(s[i])
  {
    if s != [] {
      var s0 := s[..|s| - 1];
      CountBounds(s0, f);
      assert forall i :: 0 <= i < |s0| ==> s0[i] == s[i];
      assert (forall i :: 0 <= i < |s| ==> f(s[i])) ==> (forall i :: 0 <= i < |s0| ==> f(s0[i]));
      assert (forall i :: 0 <= i < |s| ==> !f(s[i])) ==> (forall i :: 0 <= i < |s0| ==> !f(s0[i]));
      assert (forall i :: 0 <= i < |s0| ==> f(s0[i])) && f(s[|s| - 1]) ==> forall i :: 0 <= i < |s| ==> f(s[i]);
      assert (forall i :: 0 <= i < |s0| ==> !f(s0[i])) && !f(s[|s| - 1]) ==> forall i :: 0 <= i < |s| ==> !f(s[i]);
    }
  }

  function Sum(s: seq<nat>): nat {
    if s == [] then 0 else Sum(s[..|s| - 1]) + s[|s| - 1]
  }

  lemma SumAppend(s: seq<nat>, x: nat)
    ensures Sum(s + [x]) == Sum(s) + x
  {
    assert (s + [x])[..|s|] == s;
  }
}
