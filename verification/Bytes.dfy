/** Bytes, C's 32-bit `int`, its two byte orders in memory, and the XOR swap of src/utils.c. */
module Bytes {
  type byte = x: int | 0 <= x < 256
  type bytes = seq<byte>

  const INT_MAX := 0x7fff_ffff
  const INT_MIN := -0x8000_0000

  type int32 = x: int | INT_MIN <= x <= INT_MAX

  /** Conversion of a wider integer to `int`: the low 32 bits, read as two's complement. */
  function Wrap32(x: int): (v: int32)
    ensures INT_MIN <= x <= INT_MAX ==> v == x
  {
    var u := x % 0x1_0000_0000;
    if u > INT_MAX then u - 0x1_0000_0000 else u
  }

  function Reversed<T>(s: seq<T>): (r: seq<T>)
    ensures |r| == |s|
  {
    seq(|s|, i requires 0 <= i < |s| => s[|s| - 1 - i])
  }

  lemma ReversedTwice<T>(s: seq<T>)
    ensures Reversed(Reversed(s)) == s
  {
    assert forall i :: 0 <= i < |s| ==> Reversed(Reversed(s))[i] == Reversed(s)[|s| - 1 - i] == s[i];
  }

  // ----- integers in memory

  /** The four bytes of an `int` as a little-endian host keeps them. */
  function Le32(v: int32): (s: bytes)
    ensures |s| == 4
  {
    var u := v % 0x1_0000_0000;
    [u % 256, u / 256 % 256, u / 256 / 256 % 256, u / 256 / 256 / 256]
  }

  function FromLe32(s: bytes): int32
    requires |s| == 4
  {
    Wrap32(s[0] as int + 256 * (s[1] as int + 256 * (s[2] as int + 256 * (s[3] as int))))
  }

  /** The order on the wire: the host's bytes after `gc_swap_memory`. */
  function Be32(v: int32): (s: bytes)
    ensures |s| == 4
  {
    Reversed(Le32(v))
  }

  function FromBe32(s: bytes): int32
    requires |s| == 4
  {
    FromLe32(Reversed(s))
  }

  lemma Le32RoundTrip(v: int32)
    ensures FromLe32(Le32(v)) == v
  {
    var u := v % 0x1_0000_0000;
    Base256(u);
    assert Wrap32(u) == v;
  }

  lemma Base256(u: nat)
    ensures u == u % 256 + 256 * (u / 256 % 256 + 256 * (u / 256 / 256 % 256 + 256 * (u / 256 / 256 / 256)))
  {
    var q := u / 256;
    var r := q / 256;
    assert u == u % 256 + 256 * q && q == q % 256 + 256 * r && r == r % 256 + 256 * (r / 256);
  }

  lemma FromLe32RoundTrip(s: bytes)
    requires |s| == 4
    ensures Le32(FromLe32(s)) == s
  {
    var b0: int, b1: int, b2: int, b3: int := s[0], s[1], s[2], s[3];
    var r := b2 + 256 * b3;
    var q := b1 + 256 * r;
    var u := b0 + 256 * q;
    assert 0 <= u < 0x1_0000_0000;
    assert FromLe32(s) % 0x1_0000_0000 == u;
    assert u / 256 == q && q / 256 == r;
  }

  /** Wire integers decode to the integer that was written, and every four bytes are some integer's. */
  lemma Be32RoundTrip(v: int32, s: bytes)
    requires |s| == 4
    ensures FromBe32(Be32(v)) == v
    ensures Be32(FromBe32(s)) == s
  {
    ReversedTwice(Le32(v));
    Le32RoundTrip(v);
    FromLe32RoundTrip(Reversed(s));
    ReversedTwice(s);
  }

  /** The most significant byte comes first, so it is zero exactly for 0 <= v < 2^24. */
  lemma Be32BigEndian(v: int32)
    requires v >= 0
    ensures Be32(v) == [v / 256 / 256 / 256, v / 256 / 256 % 256, v / 256 % 256, v % 256]
    ensures Be32(v)[0] == 0 <==> v < 16777216
  {
    assert v % 0x1_0000_0000 == v;
  }

  // ----- the XOR swap

  /** Bitwise exclusive or. */
  function Xor(a: nat, b: nat): nat
    decreases a + b
  {
    if a == 0 && b == 0 then 0
    else 2 * Xor(a / 2, b / 2) + (if a % 2 == b % 2 then 0 else 1)
  }

  lemma {:induction false} XorCommutes(a: nat, b: nat)
    ensures Xor(a, b) == Xor(b, a)
    decreases a + b
  {
    if a != 0 || b != 0 {
      XorCommutes(a / 2, b / 2);
    }
  }

  lemma {:induction false} XorCancels(a: nat, b: nat)
    ensures Xor(a, Xor(a, b)) == b
    decreases a + b
  {
    if a != 0 || b != 0 {
      XorCancels(a / 2, b / 2);
      assert Xor(a, b) / 2 == Xor(a / 2, b / 2);
    }
  }

  lemma {:induction false} XorFits(a: nat, b: nat, bits: nat, bound: nat)
    requires a < bound && b < bound
    requires bound == Pow2(bits)
    ensures Xor(a, b) < bound
    decreases bits
  {
    if a != 0 || b != 0 {
      XorFits(a / 2, b / 2, bits - 1, bound / 2);
    }
  }

  function Pow2(n: nat): (p: nat)
    ensures p >= 1
  {
    if n == 0 then 1 else 2 * Pow2(n - 1)
  }

  function XorByte(a: byte, b: byte): byte
  {
    assert Pow2(8) == 256;
    XorFits(a, b, 8, 256);
    Xor(a, b)
  }

  /** Three XORs exchange two bytes. */
  lemma XorSwaps(a: byte, b: byte)
    ensures var b1 := XorByte(b, a); var a1 := XorByte(a, b1); a1 == b && XorByte(b1, a1) == a
  {
    XorCommutes(b, a);
    XorCancels(a, b);
    XorCancels(b, a);
    XorCommutes(XorByte(b, a), b);
  }

  /** `s` with its n bytes from `at` on turned around. */
  function Swapped(s: bytes, at: nat, n: int): (r: bytes)
    requires at + n <= |s|
    ensures |r| == |s|
  {
    if n <= 0 then s else s[..at] + Reversed(s[at..at + n]) + s[at + n..]
  }

  lemma SwappedAt(s: bytes, at: nat, n: int, k: nat)
    requires n > 0 && at + n <= |s| && k < |s|
    ensures Swapped(s, at, n)[k] == if at <= k < at + n then s[2 * at + n - 1 - k] else s[k]
  {
    var block := Reversed(s[at..at + n]);
    assert |block| == n;
    if at <= k < at + n {
      assert Swapped(s, at, n)[k] == block[k - at];
      assert block[k - at] == s[at..at + n][n - 1 - (k - at)];
    }
  }

  lemma SwappedMiddle(pre: bytes, mid: bytes, post: bytes)
    ensures Swapped(pre + mid + post, |pre|, |mid|) == pre + Reversed(mid) + post
  {
    Sliced(pre, mid, post);
    if mid == [] {
      assert pre + mid + post == pre + Reversed(mid) + post;
    }
  }

  lemma Sliced<T>(a: seq<T>, b: seq<T>, c: seq<T>)
    ensures (a + b + c)[..|a|] == a && (a + b + c)[|a|..|a| + |b|] == b && (a + b + c)[|a| + |b|..] == c
  {
  }

  lemma SwappedWhole(s: bytes)
    ensures Swapped(s, 0, |s|) == Reversed(s)
  {
    assert s[..0] + Reversed(s[0..|s|]) + s[|s|..] == Reversed(s) by {
      assert s[0..|s|] == s;
    }
  }

  lemma SwappedTwice(s: bytes, at: nat, n: int)
    requires at + n <= |s|
    ensures Swapped(Swapped(s, at, n), at, n) == s
  {
    hide Reversed;
    if n > 0 {
      Whole(s, at, n);
      PartsTwice(s[..at], s[at..at + n], s[at + n..]);
    }
  }

  lemma Whole<T>(s: seq<T>, at: nat, n: nat)
    requires at + n <= |s|
    ensures s == s[..at] + s[at..at + n] + s[at + n..] && |s[..at]| == at && |s[at..at + n]| == n
  {
  }

  lemma PartsTwice(pre: bytes, mid: bytes, post: bytes)
    ensures Swapped(Swapped(pre + mid + post, |pre|, |mid|), |pre|, |mid|) == pre + mid + post
  {
    hide Swapped, Reversed;
    SwappedMiddle(pre, mid, post);
    SwappedMiddle(pre, Reversed(mid), post);
    ReversedTwice(mid);
  }

  /** The block with its outermost i pairs exchanged. */
  ghost function Mirrored(s: bytes, at: nat, n: int, i: nat): (r: bytes)
    requires at + n <= |s|
    requires if n > 0 then i <= n / 2 else i == 0
    ensures |r| == |s|
  {
    seq(|s|, k requires 0 <= k < |s| =>
      if at <= k < at + i || at + n - i <= k < at + n then s[2 * at + n - 1 - k] else s[k])
  }

  lemma MirroredStep(s: bytes, at: nat, n: int, i: nat)
    requires at + n <= |s| && i < n / 2
    ensures var p, q := at + i, at + n - 1 - i;
      var m := Mirrored(s, at, n, i);
      Mirrored(s, at, n, i + 1) == m[p := m[q]][q := m[p]]
  {
  }

  /** Half the block exchanged is the whole block mirrored: an odd block's middle byte is its own image. */
  lemma MirroredAt(s: bytes, at: nat, n: int, k: nat)
    requires at + n <= |s| && n > 0 && k < |s|
    ensures Mirrored(s, at, n, n / 2)[k] == if at <= k < at + n then s[2 * at + n - 1 - k] else s[k]
  {
    if at + n / 2 <= k < at + n - n / 2 {
      assert 2 * at + n - 1 - k == k;
    }
  }

  lemma MirroredAll(s: bytes, at: nat, n: int)
    requires at + n <= |s| && n > 0
    ensures Mirrored(s, at, n, n / 2) == Swapped(s, at, n)
  {
    var m, w := Mirrored(s, at, n, n / 2), Swapped(s, at, n);
    forall k | 0 <= k < |s| ensures m[k] == w[k] {
      SwappedAt(s, at, n, k);
      MirroredAt(s, at, n, k);
    }
  }

  /** The loop body of gc_swap_memory; `q != p` matters, or the first XOR would clear the byte. */
  method XorExchange(dst: array<byte>, p: nat, q: nat)
    requires p < dst.Length && q < dst.Length && p != q
    modifies dst
    ensures dst[..] == old(dst[..])[p := old(dst[q])][q := old(dst[p])]
  {
    XorSwaps(dst[p], dst[q]);
    dst[q] := XorByte(dst[q], dst[p]);
    dst[p] := XorByte(dst[p], dst[q]);
    dst[q] := XorByte(dst[q], dst[p]);
  }

  /** gc_swap_memory on the n bytes at `dst + at`. */
  method SwapMemory(dst: array<byte>, at: nat, n: int)
    requires at + n <= dst.Length
    modifies dst
    ensures dst[..] == Swapped(old(dst[..]), at, n)
  {
    var i, j := 0, n - 1;
    ghost var was := dst[..];
    while i < n / 2 && j > 0
      invariant 0 <= i && j == n - 1 - i
      invariant if n > 0 then i <= n / 2 else i == 0
      invariant dst[..] == Mirrored(was, at, n, i)
    {
      MirroredStep(was, at, n, i);
      XorExchange(dst, at + i, at + j);
      i, j := i + 1, j - 1;
    }
    if n > 0 {
      MirroredAll(was, at, n);
    }
  }

  /** memcpy of `src` to `dst + at`. */
  method Copy(dst: array<byte>, at: nat, src: bytes)
    requires at + |src| <= dst.Length
    modifies dst
    ensures dst[..] == old(dst[..at]) + src + old(dst[at + |src|..])
  {
    forall k | 0 <= k < |src| {
      dst[at + k] := src[k];
    }
  }
}
