/** The bit and comparison macros of lcd5110.c, over single bytes. */
module Bits {

  /** The byte with only bit k set: the value of `1u << k` in the bit macros, as a table. */
  function Mask(k: nat): bv8
    requires k < 8
  {
    if k == 0 then 0x01 else if k == 1 then 0x02 else if k == 2 then 0x04 else if k == 3 then 0x08
    else if k == 4 then 0x10 else if k == 5 then 0x20 else if k == 6 then 0x40 else 0x80
  }

  /** The table is the shift the macros write. */
  lemma MaskIsShift(k: nat)
    requires k < 8
    ensures Mask(k) == 1 << k
  {
  }

  /** Whether bit k of b is 1. */
  predicate Bit(b: bv8, k: nat)
    requires k < 8
  {
    b & Mask(k) != 0
  }

  /** `LCD_SET_BIT`: bit k becomes 1, the other seven are kept. */
  function SetBit(b: bv8, k: nat): (r: bv8)
    requires k < 8
    ensures Bit(r, k)
    ensures forall j :: 0 <= j < 8 && j != k ==> (Bit(r, j) <==> Bit(b, j))
  {
    b | Mask(k)
  }

  /** `LCD_CLEAR_BIT`: bit k becomes 0, the other seven are kept. */
  function ClearBit(b: bv8, k: nat): (r: bv8)
    requires k < 8
    ensures !Bit(r, k)
    ensures forall j :: 0 <= j < 8 && j != k ==> (Bit(r, j) <==> Bit(b, j))
  {
    b & !Mask(k)
  }

  /** `LCD_MIN`: the smaller argument. */
  function Min(a: int, b: int): (r: int)
    ensures r <= a && r <= b && (r == a || r == b)
  {
    if a < b then a else b
  }

  /** `LCD_MAX`: the larger argument. */
  function Max(a: int, b: int): (r: int)
    ensures r >= a && r >= b && (r == a || r == b)
  {
    if a > b then a else b
  }

  /** Setting or clearing a mask after setting or clearing it: only the last operation counts. */
  lemma MaskOverwrites(b: bv8, m: bv8)
    ensures (b | m) | m == b | m && (b & !m) | m == b | m
    ensures (b | m) & !m == b & !m && (b & !m) & !m == b & !m
  {
  }

  /** Setting bit k after setting or clearing it is setting it once. */
  lemma SetBitAbsorbs(b: bv8, k: nat)
    requires k < 8
    ensures SetBit(SetBit(b, k), k) == SetBit(b, k)
    ensures SetBit(ClearBit(b, k), k) == SetBit(b, k)
  {
    MaskOverwrites(b, Mask(k));
  }

  /** Clearing bit k after setting or clearing it is clearing it once. */
  lemma ClearBitAbsorbs(b: bv8, k: nat)
    requires k < 8
    ensures ClearBit(SetBit(b, k), k) == ClearBit(b, k)
    ensures ClearBit(ClearBit(b, k), k) == ClearBit(b, k)
  {
    MaskOverwrites(b, Mask(k));
  }

  /** Two bytes that agree on all eight bits are equal. */
  lemma BitsDetermineByte(a: bv8, b: bv8)
    requires forall j :: 0 <= j < 8 ==> (Bit(a, j) <==> Bit(b, j))
    ensures a == b
  {
    assert Bit(a, 0) <==> Bit(b, 0);
    assert Bit(a, 1) <==> Bit(b, 1);
    assert Bit(a, 2) <==> Bit(b, 2);
    assert Bit(a, 3) <==> Bit(b, 3);
    assert Bit(a, 4) <==> Bit(b, 4);
    assert Bit(a, 5) <==> Bit(b, 5);
    assert Bit(a, 6) <==> Bit(b, 6);
    assert Bit(a, 7) <==> Bit(b, 7);
  }

  /**
   * An opcode whose low bits `mask` are clear, or-ed with a parameter that
   * fits those bits, keeps the opcode in the high bits and the parameter in
   * the low bits.
   */
  lemma OrField(op: bv8, v: nat, mask: bv8)
    requires mask == 0x07 || mask == 0x3f || mask == 0x7f
    requires v <= mask as nat && op & mask == 0
    ensures ((op | v as bv8) & mask) as nat == v
    ensures (op | v as bv8) & !mask == op
  {
    var w := v as bv8;
    assert w as nat == v;
    assert w & mask == w && w & !mask == 0 by {
      if mask == 0x07 {
        assert w < 8;
      } else if mask == 0x3f {
        assert w < 64;
      } else {
        assert w < 128;
      }
    }
  }
}
