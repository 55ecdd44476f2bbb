/** CRC32-C, the checksum of section 12.1 of RFC 3720, as hash/crc32 computes it with the Castagnoli table. */
module Crc32c {
  import opened Bytes

  /** The Castagnoli polynomial, bits reversed. */
  const POLYNOMIAL: bv32 := 0x82F6_3B78

  /** One bit of the shift register. */
  function Shift(c: bv32): bv32 {
    if c & 1 == 1 then (c >> 1) ^ POLYNOMIAL else c >> 1
  }

  function Shift8(c: bv32): bv32 {
    Shift(Shift(Shift(Shift(Shift(Shift(Shift(Shift(c))))))))
  }

  function Bit(on: bool, mask: bv32): bv32 {
    if on then mask else 0
  }

  function Pack(b0: bool, b1: bool, b2: bool, b3: bool, b4: bool, b5: bool, b6: bool, b7: bool): bv32 {
    Bit(b0, 1) | Bit(b1, 2) | Bit(b2, 4) | Bit(b3, 8) | Bit(b4, 16) | Bit(b5, 32) | Bit(b6, 64) | Bit(b7, 128)
  }

  predicate Odd(x: nat) {
    x % 2 == 1
  }

  function Half(x: nat): nat {
    x / 2
  }

  /** The byte as the low bits of a register. */
  function Bits(b: Byte): bv32 {
    BitsOf(b as nat)
  }

  function BitsOf(n: nat): bv32 {
    Pack(Odd(n), Odd(Half(n)), Odd(Half(Half(n))), Odd(Half(Half(Half(n)))), Odd(Half(Half(Half(Half(n))))),
         Odd(Half(Half(Half(Half(Half(n)))))), Odd(Half(Half(Half(Half(Half(Half(n))))))),
         Odd(Half(Half(Half(Half(Half(Half(Half(n)))))))))
  }

  function Xor(c: bv32, d: bv32): bv32 {
    c ^ d
  }

  function Update(c: bv32, b: Byte): bv32 {
    Shift8(Xor(c, Bits(b)))
  }

  function UpdateAll(c: bv32, bs: seq<Byte>): bv32
    decreases |bs|
  {
    if bs == [] then c else UpdateAll(Update(c, bs[0]), bs[1..])
  }

  function Checksum(bs: seq<Byte>): bv32 {
    Xor(UpdateAll(0xFFFF_FFFF, bs), 0xFFFF_FFFF)
  }

  lemma ShiftInjective(c: bv32, d: bv32)
    requires Shift(c) == Shift(d)
    ensures c == d
  {
  }

  lemma Shift8Injective(c: bv32, d: bv32)
    requires Shift8(c) == Shift8(d)
    ensures c == d
  {
    hide Shift;
    var c1, d1 := Shift(c), Shift(d);
    var c2, d2 := Shift(c1), Shift(d1);
    var c3, d3 := Shift(c2), Shift(d2);
    var c4, d4 := Shift(c3), Shift(d3);
    var c5, d5 := Shift(c4), Shift(d4);
    var c6, d6 := Shift(c5), Shift(d5);
    var c7, d7 := Shift(c6), Shift(d6);
    ShiftInjective(c7, d7);
    ShiftInjective(c6, d6);
    ShiftInjective(c5, d5);
    ShiftInjective(c4, d4);
    ShiftInjective(c3, d3);
    ShiftInjective(c2, d2);
    ShiftInjective(c1, d1);
    ShiftInjective(c, d);
  }

  lemma PackInjective(a0: bool, a1: bool, a2: bool, a3: bool, a4: bool, a5: bool, a6: bool, a7: bool,
                      b0: bool, b1: bool, b2: bool, b3: bool, b4: bool, b5: bool, b6: bool, b7: bool)
    requires Pack(a0, a1, a2, a3, a4, a5, a6, a7) == Pack(b0, b1, b2, b3, b4, b5, b6, b7)
    ensures a0 == b0 && a1 == b1 && a2 == b2 && a3 == b3 && a4 == b4 && a5 == b5 && a6 == b6 && a7 == b7
  {
  }

  lemma Halves(a: nat, b: nat)
    requires Half(a) == Half(b) && Odd(a) == Odd(b)
    ensures a == b
  {
  }

  lemma NothingAbove(b: nat)
    requires b < 256
    ensures Half(Half(Half(Half(Half(Half(Half(Half(b)))))))) == 0
  {
  }

  lemma BitsInjective(a: Byte, b: Byte)
    requires Bits(a) == Bits(b)
    ensures a == b
  {
    hide BitsOf;
    BitsOfInjective(a as nat, b as nat);
  }

  lemma BitsOfInjective(a: nat, b: nat)
    requires a < 256 && b < 256 && BitsOf(a) == BitsOf(b)
    ensures a == b
  {
    hide Pack, Odd, Half;
    var a1, b1 := Half(a), Half(b);
    var a2, b2 := Half(a1), Half(b1);
    var a3, b3 := Half(a2), Half(b2);
    var a4, b4 := Half(a3), Half(b3);
    var a5, b5 := Half(a4), Half(b4);
    var a6, b6 := Half(a5), Half(b5);
    var a7, b7 := Half(a6), Half(b6);
    PackInjective(Odd(a), Odd(a1), Odd(a2), Odd(a3), Odd(a4), Odd(a5), Odd(a6), Odd(a7),
                  Odd(b), Odd(b1), Odd(b2), Odd(b3), Odd(b4), Odd(b5), Odd(b6), Odd(b7));
    NothingAbove(a);
    NothingAbove(b);
    Halves(a7, b7);
    Halves(a6, b6);
    Halves(a5, b5);
    Halves(a4, b4);
    Halves(a3, b3);
    Halves(a2, b2);
    Halves(a1, b1);
    Halves(a, b);
  }

  lemma XorInjective(c: bv32, d: bv32, x: bv32)
    ensures Xor(c, x) == Xor(d, x) ==> c == d
    ensures Xor(x, c) == Xor(x, d) ==> c == d
  {
  }

  /** The register after a byte tells the register before it. */
  lemma StateTold(c: bv32, d: bv32, a: Byte)
    requires Update(c, a) == Update(d, a)
    ensures c == d
  {
    hide Shift8, Bits, Xor;
    Shift8Injective(Xor(c, Bits(a)), Xor(d, Bits(a)));
    XorInjective(c, d, Bits(a));
  }

  /** The register after a byte tells the byte. */
  lemma ByteTold(c: bv32, a: Byte, b: Byte)
    requires Update(c, a) == Update(c, b)
    ensures a == b
  {
    hide Shift8, Bits, Xor;
    Shift8Injective(Xor(c, Bits(a)), Xor(c, Bits(b)));
    XorInjective(Bits(a), Bits(b), c);
    BitsInjective(a, b);
  }

  lemma {:induction false} UpdateAllInjective(c: bv32, d: bv32, bs: seq<Byte>)
    requires UpdateAll(c, bs) == UpdateAll(d, bs)
    ensures c == d
    decreases |bs|
  {
    hide Update;
    if bs != [] {
      UpdateAllInjective(Update(c, bs[0]), Update(d, bs[0]), bs[1..]);
      StateTold(c, d, bs[0]);
    }
  }

  lemma {:induction false} OneByteTold(c: bv32, bs: seq<Byte>, i: nat, b: Byte)
    requires i < |bs| && b != bs[i]
    ensures UpdateAll(c, bs[i := b]) != UpdateAll(c, bs)
    decreases |bs|
  {
    hide Update;
    var changed := bs[i := b];
    if i == 0 {
      assert changed[1..] == bs[1..];
      if UpdateAll(c, changed) == UpdateAll(c, bs) {
        UpdateAllInjective(Update(c, b), Update(c, bs[0]), bs[1..]);
        ByteTold(c, b, bs[0]);
      }
    } else {
      assert changed[1..] == bs[1..][i - 1 := b];
      OneByteTold(Update(c, bs[0]), bs[1..], i - 1, b);
    }
  }

  /** No change of one byte keeps the checksum. */
  lemma ChecksumTellsOneByte(bs: seq<Byte>, i: nat, b: Byte)
    requires i < |bs| && b != bs[i]
    ensures Checksum(bs[i := b]) != Checksum(bs)
  {
    hide UpdateAll, Xor;
    OneByteTold(0xFFFF_FFFF, bs, i, b);
    XorInjective(UpdateAll(0xFFFF_FFFF, bs[i := b]), UpdateAll(0xFFFF_FFFF, bs), 0xFFFF_FFFF);
  }

  // ---- the trailer -----------------------------------------------------------------

  predicate On(c: bv32, mask: bv32) {
    c & mask != 0
  }

  function Twice(x: nat, odd: bool): nat {
    2 * x + if odd then 1 else 0
  }

  function LowBits(c: bv32): nat {
    Twice(Twice(Twice(Twice(Twice(Twice(Twice(Twice(0, On(c, 128)), On(c, 64)), On(c, 32)), On(c, 16)), On(c, 8)), On(c, 4)), On(c, 2)), On(c, 1))
  }

  /** The low byte of a register. */
  function LowByte(c: bv32): Byte {
    LowBitsFit(c);
    LowBits(c) as Byte
  }

  lemma LowBitsFit(c: bv32)
    ensures LowBits(c) < 256
  {
    hide On;
  }

  /** A register as four bytes, lowest first. */
  function Trailer(c: bv32): (bs: seq<Byte>)
    ensures |bs| == 4
  {
    [LowByte(c), LowByte(c >> 8), LowByte(c >> 16), LowByte(c >> 24)]
  }

  function Join(a: bv32, b: bv32, c: bv32, d: bv32): bv32 {
    a | (b << 8) | (c << 16) | (d << 24)
  }

  /** The register in the four bytes at `off`. */
  function RegisterAt(s: seq<Byte>, off: nat): bv32
    requires off + 4 <= |s|
  {
    Join(Bits(s[off]), Bits(s[off + 1]), Bits(s[off + 2]), Bits(s[off + 3]))
  }

  lemma TwiceIs(x: nat, odd: bool)
    ensures Half(Twice(x, odd)) == x && Odd(Twice(x, odd)) == odd
  {
  }

  lemma PackOfOn(c: bv32)
    ensures Pack(On(c, 1), On(c, 2), On(c, 4), On(c, 8), On(c, 16), On(c, 32), On(c, 64), On(c, 128)) == c & 0xFF
  {
  }

  lemma BitsOfLowByte(c: bv32)
    ensures Bits(LowByte(c)) == c & 0xFF
  {
    hide Twice, Half, Odd, On, Pack;
    var x7 := Twice(0, On(c, 128));
    var x6 := Twice(x7, On(c, 64));
    var x5 := Twice(x6, On(c, 32));
    var x4 := Twice(x5, On(c, 16));
    var x3 := Twice(x4, On(c, 8));
    var x2 := Twice(x3, On(c, 4));
    var x1 := Twice(x2, On(c, 2));
    TwiceIs(0, On(c, 128));
    TwiceIs(x7, On(c, 64));
    TwiceIs(x6, On(c, 32));
    TwiceIs(x5, On(c, 16));
    TwiceIs(x4, On(c, 8));
    TwiceIs(x3, On(c, 4));
    TwiceIs(x2, On(c, 2));
    TwiceIs(x1, On(c, 1));
    PackOfOn(c);
  }

  lemma FourBytes(c: bv32)
    ensures Join(c & 0xFF, (c >> 8) & 0xFF, (c >> 16) & 0xFF, (c >> 24) & 0xFF) == c
  {
  }

  lemma RegisterOfTrailer(s: seq<Byte>, off: nat, c: bv32)
    requires Holds(s, off, Trailer(c))
    ensures RegisterAt(s, off) == c
  {
    hide Bits, LowByte, Join;
    var t := Trailer(c);
    assert s[off + 0] == t[0] && s[off + 1] == t[1] && s[off + 2] == t[2] && s[off + 3] == t[3];
    BitsOfLowByte(c);
    BitsOfLowByte(c >> 8);
    BitsOfLowByte(c >> 16);
    BitsOfLowByte(c >> 24);
    FourBytes(c);
  }

  predicate IsLow(a: bv32) {
    a & 0xFF == a
  }

  lemma BitsAreLow(b: Byte)
    ensures IsLow(Bits(b))
  {
    hide Odd, Half;
  }

  lemma JoinInjective(a: bv32, b: bv32, c: bv32, d: bv32, w: bv32, x: bv32, y: bv32, z: bv32)
    requires IsLow(a) && IsLow(b) && IsLow(c) && IsLow(d) && IsLow(w) && IsLow(x) && IsLow(y) && IsLow(z)
    requires Join(a, b, c, d) == Join(w, x, y, z)
    ensures a == w && b == x && c == y && d == z
  {
  }

  lemma RegisterInjective(s: seq<Byte>, t: seq<Byte>, off: nat)
    requires off + 4 <= |s| && off + 4 <= |t| && RegisterAt(s, off) == RegisterAt(t, off)
    ensures forall i :: off <= i < off + 4 ==> s[i] == t[i]
  {
    hide Bits, Join, IsLow;
    var a, b, c, d := s[off], s[off + 1], s[off + 2], s[off + 3];
    var w, x, y, z := t[off], t[off + 1], t[off + 2], t[off + 3];
    BitsAreLow(a);
    BitsAreLow(b);
    BitsAreLow(c);
    BitsAreLow(d);
    BitsAreLow(w);
    BitsAreLow(x);
    BitsAreLow(y);
    BitsAreLow(z);
    JoinInjective(Bits(a), Bits(b), Bits(c), Bits(d), Bits(w), Bits(x), Bits(y), Bits(z));
    BitsInjective(a, w);
    BitsInjective(b, x);
    BitsInjective(c, y);
    BitsInjective(d, z);
  }

  // ---- the check value ------------------------------------------------------------------

  lemma HighDigits(b: nat)
    requires 48 <= b < 58
    ensures Half(Half(Half(Half(b)))) == 3 && Half(3) == 1 && Half(1) == 0 && Half(0) == 0 && Odd(3) && Odd(1) && !Odd(0)
  {
  }

  lemma DigitBits(b: nat, b0: bool, b1: bool, b2: bool, b3: bool)
    requires 48 <= b < 58
    requires Odd(b) == b0 && Odd(Half(b)) == b1 && Odd(Half(Half(b))) == b2 && Odd(Half(Half(Half(b)))) == b3
    ensures BitsOf(b) == Bit(b0, 1) | Bit(b1, 2) | Bit(b2, 4) | Bit(b3, 8) | 48
  {
    HighDigits(b);
    hide Half, Odd;
  }

  lemma Step(c: bv32, b: Byte, x: bv32, d: bv32)
    requires BitsOf(b as nat) == x && Shift8(c ^ x) == d
    ensures Update(c, b) == d
  {
  }

  lemma StepAll(c: bv32, bs: seq<Byte>)
    requires bs != []
    ensures UpdateAll(c, bs) == UpdateAll(Update(c, bs[0]), bs[1..])
  {
  }

  lemma FirstDigits()
    ensures UpdateAll(0xFFFF_FFFF, [49, 50, 51, 52, 53, 54, 55, 56, 57]) == UpdateAll(0x09C5_0B11, [53, 54, 55, 56, 57])
  {
    hide BitsOf, Update, UpdateAll;
    DigitBits(49, true, false, false, false);
    DigitBits(50, false, true, false, false);
    DigitBits(51, true, true, false, false);
    DigitBits(52, false, false, true, false);
    Step(0xFFFF_FFFF, 49, 49, 0x6F0A_661C);
    Step(0x6F0A_661C, 50, 50, 0x8CAA_3B9F);
    Step(0x8CAA_3B9F, 51, 51, 0xEF84_D04D);
    Step(0xEF84_D04D, 52, 52, 0x09C5_0B11);
    StepAll(0xFFFF_FFFF, [49, 50, 51, 52, 53, 54, 55, 56, 57]);
    assert [49, 50, 51, 52, 53, 54, 55, 56, 57][1..] == [50, 51, 52, 53, 54, 55, 56, 57];
    StepAll(0x6F0A_661C, [50, 51, 52, 53, 54, 55, 56, 57]);
    assert [50, 51, 52, 53, 54, 55, 56, 57][1..] == [51, 52, 53, 54, 55, 56, 57];
    StepAll(0x8CAA_3B9F, [51, 52, 53, 54, 55, 56, 57]);
    assert [51, 52, 53, 54, 55, 56, 57][1..] == [52, 53, 54, 55, 56, 57];
    StepAll(0xEF84_D04D, [52, 53, 54, 55, 56, 57]);
    assert [52, 53, 54, 55, 56, 57][1..] == [53, 54, 55, 56, 57];
  }

  lemma LastDigits()
    ensures UpdateAll(0x09C5_0B11, [53, 54, 55, 56, 57]) == 0x1CF9_6D7C
  {
    hide BitsOf, Update, UpdateAll;
    DigitBits(53, true, false, true, false);
    DigitBits(54, false, true, true, false);
    DigitBits(55, true, true, true, false);
    DigitBits(56, false, false, false, true);
    DigitBits(57, true, false, false, true);
    Step(0x09C5_0B11, 53, 53, 0xE72E_DCCA);
    Step(0xE72E_DCCA, 54, 54, 0xBECA_8E79);
    Step(0xBECA_8E79, 55, 55, 0xEDBD_6815);
    Step(0xEDBD_6815, 56, 56, 0x9F78_7F65);
    Step(0x9F78_7F65, 57, 57, 0x1CF9_6D7C);
    StepAll(0x09C5_0B11, [53, 54, 55, 56, 57]);
    assert [53, 54, 55, 56, 57][1..] == [54, 55, 56, 57];
    StepAll(0xE72E_DCCA, [54, 55, 56, 57]);
    assert [54, 55, 56, 57][1..] == [55, 56, 57];
    StepAll(0xBECA_8E79, [55, 56, 57]);
    assert [55, 56, 57][1..] == [56, 57];
    StepAll(0xEDBD_6815, [56, 57]);
    assert [56, 57][1..] == [57];
    StepAll(0x9F78_7F65, [57]);
    assert [57][1..] == [];
    NoBytes(0x1CF9_6D7C);
  }

  /** The published check value of CRC32-C, the checksum of the digits 1 to 9. */
  lemma CheckValue()
    ensures Checksum([49, 50, 51, 52, 53, 54, 55, 56, 57]) == 0xE306_9283
  {
    hide UpdateAll;
    FirstDigits();
    LastDigits();
  }

  lemma NoBytes(c: bv32)
    ensures UpdateAll(c, []) == c
  {
  }
}
