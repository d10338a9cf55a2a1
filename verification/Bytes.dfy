/** Bytes and the numbers they stand for.

    A number is made into a byte by halves: four bits are few enough to be handled one by one,
    so no proof has to mix integer division with bit vectors. */
module Bytes {
  type Byte = bv8

  function NatOf(b: Byte): (v: nat)
    ensures v < 256
  {
    b as nat
  }

  /** The value of a half byte, bit by bit. */
  function HalfValue(h: Byte): (v: nat)
    requires h < 16
    ensures v < 16
  {
    (if h & 8 != 0 then 8 else 0) + (if h & 4 != 0 then 4 else 0)
    + (if h & 2 != 0 then 2 else 0) + (if h & 1 != 0 then 1 else 0)
  }

  function Half(v: nat): (h: Byte)
    requires v < 16
    ensures h < 16 && HalfValue(h) == v
  {
    var below8 := if v >= 8 then v - 8 else v;
    var below4 := if below8 >= 4 then below8 - 4 else below8;
    (if v >= 8 then 8 else 0) | (if below8 >= 4 then 4 else 0)
    | (if below4 >= 2 then 2 else 0) | (if below4 == 1 || below4 == 3 then 1 else 0)
  }

  function ByteOf(v: nat): Byte
    requires v < 256
  {
    (Half(v / 16) << 4) | Half(v % 16)
  }

  lemma NatOfHalves(b: Byte)
    ensures NatOf(b) == 16 * HalfValue(b >> 4) + HalfValue(b & 15)
  {}

  lemma Joined(h: Byte, l: Byte)
    requires h < 16 && l < 16
    ensures ((h << 4) | l) >> 4 == h && ((h << 4) | l) & 15 == l
  {}

  lemma Halves(b: Byte)
    ensures ((b >> 4) << 4) | (b & 15) == b
  {}

  lemma HalfBack(h: Byte)
    requires h < 16
    ensures Half(HalfValue(h)) == h
  {}

  lemma ByteOfNat(v: nat)
    requires v < 256
    ensures NatOf(ByteOf(v)) == v
  {
    hide NatOf, Half, HalfValue;
    NatOfHalves(ByteOf(v));
    Joined(Half(v / 16), Half(v % 16));
  }

  lemma NatOfByte(b: Byte)
    ensures ByteOf(NatOf(b)) == b
  {
    hide NatOf, Half, HalfValue;
    NatOfHalves(b);
    HalfBack(b >> 4);
    HalfBack(b & 15);
    var h, l := HalfValue(b >> 4), HalfValue(b & 15);
    assert (16 * h + l) / 16 == h && (16 * h + l) % 16 == l;
    Halves(b);
  }

  lemma NatOfSymbol(b: Byte)
    ensures b < 32 <==> NatOf(b) < 32
  {}
}
