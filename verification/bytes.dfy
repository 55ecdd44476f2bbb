/** Bytes, and little-endian integers in a byte stream. */
module Bytes {
  newtype Byte = x: int | 0 <= x < 256

  const W16 := 0x1_0000
  const W32 := 0x1_0000_0000
  const W64 := 0x1_0000_0000_0000_0000

  /** 256 to the power `k`. */
  function Width(k: nat): (w: nat)
    ensures w >= 1
  {
    if k == 0 then 1 else 256 * Width(k - 1)
  }

  /** The `k` bytes of `n`, lowest first. */
  function LittleEndian(n: nat, k: nat): (bs: seq<Byte>)
    ensures |bs| == k
  {
    if k == 0 then [] else [(n % 256) as Byte] + LittleEndian(n / 256, k - 1)
  }

  /** The integer in the `k` bytes at `off`. */
  function UintAt(s: seq<Byte>, off: nat, k: nat): nat
    requires off + k <= |s|
    decreases k
  {
    if k == 0 then 0 else s[off] as int + 256 * UintAt(s, off + 1, k - 1)
  }

  /** The two's complement reading of an unsigned integer of width `w`. */
  function Signed(u: nat, w: nat): int {
    if u < w / 2 then u else u - w
  }

  /** `bs` stands at `off`. */
  predicate Holds(s: seq<Byte>, off: nat, bs: seq<Byte>) {
    off + |bs| <= |s| && forall i {:trigger bs[i]} :: 0 <= i < |bs| ==> s[off + i] == bs[i]
  }

  lemma HoldsConcat(s: seq<Byte>, off: nat, a: seq<Byte>, b: seq<Byte>)
    ensures Holds(s, off, a + b) <==> Holds(s, off, a) && Holds(s, off + |a|, b)
  {
    var ab := a + b;
    assert forall i :: 0 <= i < |a| ==> ab[i] == a[i];
    assert forall i :: 0 <= i < |b| ==> ab[|a| + i] == b[i];
    if Holds(s, off, ab) {
      forall i | 0 <= i < |a| ensures s[off + i] == a[i] { assert s[off + i] == ab[i]; }
      forall i | 0 <= i < |b| ensures s[off + |a| + i] == b[i] { assert s[off + (|a| + i)] == ab[|a| + i]; }
    }
    if Holds(s, off, a) && Holds(s, off + |a|, b) {
      forall i | 0 <= i < |ab| ensures s[off + i] == ab[i] {
        if i >= |a| { assert s[off + |a| + (i - |a|)] == b[i - |a|]; }
      }
    }
  }

  lemma HeldSlice(s: seq<Byte>, off: nat, bs: seq<Byte>)
    requires Holds(s, off, bs)
    ensures s[off..off + |bs|] == bs
  {
  }

  /** What was written is what is read. */
  lemma {:induction false} UintOfLittleEndian(s: seq<Byte>, off: nat, n: nat, k: nat)
    requires n < Width(k) && Holds(s, off, LittleEndian(n, k))
    ensures UintAt(s, off, k) == n
    decreases k
  {
    if k > 0 {
      var bs := LittleEndian(n, k);
      assert s[off + 0] == bs[0];
      assert bs == [(n % 256) as Byte] + LittleEndian(n / 256, k - 1);
      HoldsConcat(s, off, [(n % 256) as Byte], LittleEndian(n / 256, k - 1));
      UintOfLittleEndian(s, off + 1, n / 256, k - 1);
    }
  }

  lemma {:induction false} UintFits(s: seq<Byte>, off: nat, k: nat)
    requires off + k <= |s|
    ensures UintAt(s, off, k) < Width(k)
    decreases k
  {
    if k > 0 { UintFits(s, off + 1, k - 1); }
  }

  lemma Widths()
    ensures Width(1) == 256 && Width(2) == W16 && Width(4) == W32 && Width(8) == W64
  {
    assert Width(3) == 256 * Width(2);
    assert Width(5) == 256 * Width(4);
    assert Width(7) == 256 * Width(6);
  }

  /** Integers read from two streams that agree on their bytes are the same. */
  lemma {:induction false} UintSame(s: seq<Byte>, t: seq<Byte>, off: nat, k: nat)
    requires off + k <= |s| && off + k <= |t|
    requires forall i :: off <= i < off + k ==> s[i] == t[i]
    ensures UintAt(s, off, k) == UintAt(t, off, k)
    decreases k
  {
    if k > 0 { UintSame(s, t, off + 1, k - 1); }
  }

  /** Integers that are equal were read from equal bytes. */
  lemma {:induction false} UintInjective(s: seq<Byte>, t: seq<Byte>, off: nat, k: nat)
    requires off + k <= |s| && off + k <= |t| && UintAt(s, off, k) == UintAt(t, off, k)
    ensures forall i :: off <= i < off + k ==> s[i] == t[i]
    decreases k
  {
    if k > 0 {
      var a, b := UintAt(s, off + 1, k - 1), UintAt(t, off + 1, k - 1);
      assert s[off] as int + 256 * a == t[off] as int + 256 * b;
      UintInjective(s, t, off + 1, k - 1);
    }
  }
}
