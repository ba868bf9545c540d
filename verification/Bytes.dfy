/** Byte sequences and the fixed-width integers the readers decode from them, by position. */
module Bytes {

  type byte = b: int | 0 <= b < 0x100
  type u16 = n: int | 0 <= n < 0x1_0000
  type u32 = n: int | 0 <= n < 0x1_0000_0000
  type u64 = n: int | 0 <= n < 0x1_0000_0000_0000_0000

  const TWO_32: int := 0x1_0000_0000
  const TWO_64: int := 0x1_0000_0000_0000_0000

  function Min(a: int, b: int): int {
    if a <= b then a else b
  }

  function Weigh(b: byte, weight: int): int { b * weight }

  function LE16(b: seq<byte>, i: nat): u16
    requires i + 2 <= |b|
  {
    Weigh(b[i], 1) + Weigh(b[i + 1], 0x100)
  }

  function LE32(b: seq<byte>, i: nat): u32
    requires i + 4 <= |b|
  {
    Weigh(b[i], 1) + Weigh(b[i + 1], 0x100) + Weigh(b[i + 2], 0x1_0000) + Weigh(b[i + 3], 0x100_0000)
  }

  function LE64(b: seq<byte>, i: nat): u64
    requires i + 8 <= |b|
  {
    LE32(b, i) + LE32(b, i + 4) * TWO_32
  }

  function BE32(b: seq<byte>, i: nat): u32
    requires i + 4 <= |b|
  {
    Weigh(b[i], 0x100_0000) + Weigh(b[i + 1], 0x1_0000) + Weigh(b[i + 2], 0x100) + Weigh(b[i + 3], 1)
  }

  function BE64(b: seq<byte>, i: nat): u64
    requires i + 8 <= |b|
  {
    BE32(b, i) * TWO_32 + BE32(b, i + 4)
  }

  function PutLE16(n: u16): (b: seq<byte>)
    ensures |b| == 2 && LE16(b, 0) == n
  {
    [n % 0x100, n / 0x100]
  }

  function PutLE32(n: u32): (b: seq<byte>)
    ensures |b| == 4 && LE32(b, 0) == n
  {
    var n1 := n / 0x100;
    var n2 := n1 / 0x100;
    [n % 0x100, n1 % 0x100, n2 % 0x100, n2 / 0x100]
  }

  function PutBE32(n: u32): (b: seq<byte>)
    ensures |b| == 4 && BE32(b, 0) == n
  {
    var n1 := n / 0x100;
    var n2 := n1 / 0x100;
    [n2 / 0x100, n2 % 0x100, n1 % 0x100, n % 0x100]
  }

  function Zeros(n: nat): (z: seq<byte>)
    ensures |z| == n && forall i :: 0 <= i < n ==> z[i] == 0
  {
    seq(n, _ => 0)
  }

  lemma Glue(b: seq<byte>, i: nat, j: nat, k: nat)
    requires i <= j <= k <= |b|
    ensures b[i..j] + b[j..k] == b[i..k]
  {
  }

  lemma LE16Same(a: seq<byte>, i: nat, b: seq<byte>, j: nat)
    requires i + 2 <= |a| && j + 2 <= |b|
    requires a[i] == b[j] && a[i + 1] == b[j + 1]
    ensures LE16(a, i) == LE16(b, j)
  {
  }

  /** Reading depends only on the bytes read. */
  lemma LE32Same(a: seq<byte>, i: nat, b: seq<byte>, j: nat)
    requires i + 4 <= |a| && j + 4 <= |b|
    requires a[i] == b[j] && a[i + 1] == b[j + 1] && a[i + 2] == b[j + 2] && a[i + 3] == b[j + 3]
    ensures LE32(a, i) == LE32(b, j)
  {
  }

  lemma BE32Same(a: seq<byte>, i: nat, b: seq<byte>, j: nat)
    requires i + 4 <= |a| && j + 4 <= |b|
    requires a[i] == b[j] && a[i + 1] == b[j + 1] && a[i + 2] == b[j + 2] && a[i + 3] == b[j + 3]
    ensures BE32(a, i) == BE32(b, j)
  {
  }

  lemma BE64Same(a: seq<byte>, i: nat, b: seq<byte>, j: nat)
    requires i + 8 <= |a| && j + 8 <= |b|
    requires a[i..i + 8] == b[j..j + 8]
    ensures BE64(a, i) == BE64(b, j)
  {
    hide BE32;
    var x, y := a[i..i + 8], b[j..j + 8];
    assert x[0] == y[0] && x[1] == y[1] && x[2] == y[2] && x[3] == y[3];
    assert x[4] == y[4] && x[5] == y[5] && x[6] == y[6] && x[7] == y[7];
    BE32Same(a, i, b, j);
    BE32Same(a, i + 4, b, j + 4);
  }

  /** b holds part at position at. */
  ghost predicate Holds(b: seq<byte>, at: nat, part: seq<byte>) {
    at + |part| <= |b| && forall i :: 0 <= i < |part| ==> b[at + i] == part[i]
  }

  lemma HoldsLE16(b: seq<byte>, at: nat, n: u16)
    requires Holds(b, at, PutLE16(n))
    ensures LE16(b, at) == n
  {
    assert b[at + 0] == PutLE16(n)[0] && b[at + 1] == PutLE16(n)[1];
  }

  lemma HoldsLE32(b: seq<byte>, at: nat, n: u32)
    requires Holds(b, at, PutLE32(n))
    ensures LE32(b, at) == n
  {
    var p := PutLE32(n);
    assert b[at + 0] == p[0] && b[at + 1] == p[1] && b[at + 2] == p[2] && b[at + 3] == p[3];
  }

  lemma HoldsPart(b: seq<byte>, at: nat, left: seq<byte>, right: seq<byte>)
    requires Holds(b, at, left + right)
    ensures Holds(b, at, left) && Holds(b, at + |left|, right)
  {
    forall i | 0 <= i < |left| ensures b[at + i] == left[i] { assert (left + right)[i] == left[i]; }
    forall i | 0 <= i < |right| ensures b[at + |left| + i] == right[i] {
      assert (left + right)[|left| + i] == right[i];
      assert b[at + (|left| + i)] == right[i];
    }
  }

  /** The first n of s, or all of s when there are fewer: what a positive limit keeps. */
  function Limited<T>(s: seq<T>, limit: int): seq<T> {
    if 0 < limit < |s| then s[..limit] else s
  }

  lemma LimitReached<T>(found: seq<T>, all: seq<T>, limit: int)
    requires found <= all && 0 < limit == |found|
    ensures Limited(all, limit) == found
  {
  }

  lemma LimitNotReached<T>(found: seq<T>, all: seq<T>, limit: int)
    requires found <= all && |found| == |all| && (limit > 0 ==> |found| < limit)
    ensures Limited(all, limit) == found
  {
  }
}
