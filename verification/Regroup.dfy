/** Regrouping of a string of bits from `from`-bit to `to`-bit groups.

    The specification speaks of bit strings, most significant bit first: `Regroup` expands the
    input, pads or trims it, and packs it again.  The method is the shifting loop of the source
    with its masked accumulator. */
module Regrouping {
  import opened Bytes
  import opened Wrappers

  // Shifts and masks on unbounded words.

  function Shl(v: nat, n: nat): nat {
    if n == 0 then v else 2 * Shl(v, n - 1)
  }

  function Shr(v: nat, n: nat): nat {
    if n == 0 then v else Shr(v / 2, n - 1)
  }

  /** `v & ((1 << n) - 1)` */
  function Mask(v: nat, n: nat): nat {
    if n == 0 then 0 else 2 * Mask(v / 2, n - 1) + v % 2
  }

  /** What is left of `n` after whole groups of `w`. */
  function Rest(n: nat, w: nat): (r: nat)
    requires w > 0
    ensures r < w && r <= n
  {
    if n < w then n else Rest(n - w, w)
  }

  /** The `n` low bits of `v`. */
  function Digits(v: nat, n: nat): (bits: seq<bool>)
    ensures |bits| == n
  {
    if n == 0 then [] else Digits(v / 2, n - 1) + [v % 2 == 1]
  }

  function Value(bits: seq<bool>): nat {
    if bits == [] then 0
    else 2 * Value(bits[..|bits| - 1]) + if bits[|bits| - 1] then 1 else 0
  }

  function Zeros(n: nat): (bits: seq<bool>)
    ensures |bits| == n
  {
    seq(n, _ => false)
  }

  /** The groups of `data` laid side by side, `w` bits each. */
  function Expand(data: seq<Byte>, w: nat): seq<bool> {
    if data == [] then [] else Expand(data[..|data| - 1], w) + Digits(NatOf(data[|data| - 1]), w)
  }

  predicate Fits(data: seq<Byte>, w: nat) {
    forall i :: 0 <= i < |data| ==> Shr(NatOf(data[i]), w) == 0
  }

  /** Cuts a bit string into `w`-bit groups; a shorter last group is not read. */
  function Pack(bits: seq<bool>, w: nat): seq<Byte>
    requires 0 < w <= 8
  {
    if |bits| < w then []
    else
      ValueBound(bits[|bits| - w..]);
      Pack(bits[..|bits| - w], w) + [ByteOf(Value(bits[|bits| - w..]))]
  }

  /** How many bits complete the last group. */
  function Missing(n: nat, w: nat): (k: nat)
    requires w > 0
    ensures k < w
  {
    if Rest(n, w) == 0 then 0 else w - Rest(n, w)
  }

  function Regroup(data: seq<Byte>, from: nat, to: nat, pad: bool): Option<seq<Byte>>
    requires 0 < from <= 8 && 0 < to <= 8
  {
    if !Fits(data, from) then None
    else
      var bits := Expand(data, from);
      var rest := Rest(|bits|, to);
      if pad then Some(Pack(bits + Zeros(Missing(|bits|, to)), to))
      else if rest >= from || bits[|bits| - rest..] != Zeros(rest) then None
      else Some(Pack(bits[..|bits| - rest], to))
  }

  // ---------- Whole groups ----------

  lemma {:induction false} RestCut(n: nat, w: nat)
    requires w > 0
    ensures Rest(n - Rest(n, w), w) == 0
  {
    if n >= w {
      RestCut(n - w, w);
      RestGrows(n - w - Rest(n - w, w), w);
    }
  }

  lemma RestGrows(n: nat, w: nat)
    requires w > 0
    ensures Rest(n + w, w) == Rest(n, w)
  {}

  lemma {:induction false} RestUnique(n: nat, k: nat, w: nat)
    requires w > 0 && Rest(n, w) == 0 && k < w
    ensures Rest(n + k, w) == k
  {
    if n > 0 {
      RestUnique(n - w, k, w);
    }
  }

  lemma {:induction false} MissingUnique(n: nat, k: nat, w: nat)
    requires w > 0 && k < w
    ensures k == Missing(n, w) <==> Rest(n + k, w) == 0
  {
    if n >= w {
      MissingUnique(n - w, k, w);
    }
  }

  // ---------- Bit strings and numbers ----------

  lemma {:induction false} ValueBound(bits: seq<bool>)
    requires |bits| <= 8
    ensures Value(bits) < Shl(1, |bits|) <= 256
    ensures Shr(Value(bits), |bits|) == 0
  {
    assert Shl(1, 4) == 16 && Shl(1, 8) == 256 by {
      assert Shl(1, 6) == 64;
    }
    if bits != [] {
      ValueBound(bits[..|bits| - 1]);
      ShlMonotone(|bits|);
    }
  }

  lemma {:induction false} ShlMonotone(n: nat)
    requires n <= 8
    ensures Shl(1, n) <= Shl(1, 8)
    decreases 8 - n
  {
    if n < 8 {
      ShlMonotone(n + 1);
    }
  }

  lemma {:induction false} MaskBound(v: nat, n: nat)
    requires n <= 8
    ensures Mask(v, n) < Shl(1, n) <= 256
    ensures Shr(Mask(v, n), n) == 0
  {
    assert Shl(1, 4) == 16 && Shl(1, 8) == 256 by {
      assert Shl(1, 6) == 64;
    }
    if n > 0 {
      MaskBound(v / 2, n - 1);
      ShlMonotone(n);
    }
  }

  lemma {:induction false} DigitsOfValue(bits: seq<bool>)
    ensures Digits(Value(bits), |bits|) == bits
  {
    if bits != [] {
      var init := bits[..|bits| - 1];
      DigitsOfValue(init);
      assert bits == init + [bits[|bits| - 1]];
    }
  }

  lemma {:induction false} ValueOfDigits(v: nat, n: nat)
    requires Shr(v, n) == 0
    ensures Value(Digits(v, n)) == v
  {
    if n > 0 {
      ValueOfDigits(v / 2, n - 1);
      var bits := Digits(v, n);
      assert bits[..n - 1] == Digits(v / 2, n - 1);
    }
  }

  /** The low bits split at any point. */
  lemma {:induction false} DigitsSplit(v: nat, m: nat, n: nat)
    ensures Digits(v, m + n) == Digits(Shr(v, n), m) + Digits(v, n)
  {
    if n > 0 {
      DigitsSplit(v / 2, m, n - 1);
    }
  }

  /** Masking keeps the low bits. */
  lemma {:induction false} DigitsMasked(v: nat, n: nat, k: nat)
    requires n <= k
    ensures Digits(Mask(v, k), n) == Digits(v, n)
  {
    if n > 0 {
      DigitsMasked(v / 2, n - 1, k - 1);
    }
  }

  lemma {:induction false} DigitsZero(n: nat)
    ensures Digits(0, n) == Zeros(n)
  {
    if n > 0 {
      DigitsZero(n - 1);
    }
  }

  /** Shifting left makes room for the low bits of a value that fits in them. */
  lemma {:induction false} DigitsShift(v: nat, low: nat, m: nat, n: nat)
    requires Shr(low, n) == 0
    ensures Digits(Shl(v, n) + low, m + n) == Digits(v, m) + Digits(low, n)
  {
    if n > 0 {
      DigitsShift(v, low / 2, m, n - 1);
      assert (Shl(v, n) + low) / 2 == Shl(v, n - 1) + low / 2;
    }
  }

  lemma ExpandSnoc(data: seq<Byte>, v: Byte, w: nat)
    ensures Expand(data + [v], w) == Expand(data, w) + Digits(NatOf(v), w)
  {
    assert (data + [v])[..|data|] == data;
  }

  lemma {:induction false} ExpandLength(data: seq<Byte>, w: nat)
    requires w > 0
    ensures Rest(|Expand(data, w)|, w) == 0
  {
    if data != [] {
      ExpandLength(data[..|data| - 1], w);
      RestGrows(|Expand(data[..|data| - 1], w)|, w);
    }
  }

  lemma PackSnoc(bits: seq<bool>, w: nat)
    requires 0 < w <= 8 && |bits| >= w
    ensures Value(bits[|bits| - w..]) < 256
    ensures Pack(bits, w) == Pack(bits[..|bits| - w], w) + [ByteOf(Value(bits[|bits| - w..]))]
  {
    hide Value, ByteOf;
    ValueBound(bits[|bits| - w..]);
  }

  lemma {:induction false} ExpandPack(bits: seq<bool>, w: nat)
    requires 0 < w <= 8 && Rest(|bits|, w) == 0
    ensures Expand(Pack(bits, w), w) == bits && Fits(Pack(bits, w), w)
  {
    hide NatOf, ByteOf, Digits, Value, Shr, Expand, Pack;
    if bits == [] {
      PackEmpty(w);
      ExpandEmpty(w);
    } else {
      var head, tail := bits[..|bits| - w], bits[|bits| - w..];
      ExpandPack(head, w);
      PackSnoc(bits, w);
      DigitsOfValue(tail);
      ValueBound(tail);
      ByteOfNat(Value(tail));
      ExpandSnoc(Pack(head, w), ByteOf(Value(tail)), w);
      assert bits == head + tail;
    }
  }

  lemma PackEmpty(w: nat)
    requires 0 < w <= 8
    ensures Pack([], w) == []
  {}

  lemma ExpandEmpty(w: nat)
    ensures Expand([], w) == []
  {}

  lemma {:induction false} PackExpand(data: seq<Byte>, w: nat)
    requires 0 < w <= 8 && Fits(data, w)
    ensures Pack(Expand(data, w), w) == data
  {
    hide NatOf, ByteOf, Digits, Shr;
    if data != [] {
      var init, v := data[..|data| - 1], data[|data| - 1];
      PackExpand(init, w);
      ValueOfDigits(NatOf(v), w);
      NatOfByte(v);
      var bits := Expand(data, w);
      assert bits[..|bits| - w] == Expand(init, w);
      assert bits[|bits| - w..] == Digits(NatOf(v), w);
      assert data == init + [v];
    }
  }

  // ---------- Main result ----------

  /** For groups that do not grow (`to <= from`), strict regrouping back accepts exactly the
      padded images, and returns what they are images of. */
  lemma StrictInvertsPadded(data: seq<Byte>, groups: seq<Byte>, from: nat, to: nat)
    requires 0 < to <= from <= 8
    ensures Regroup(groups, to, from, false) == Some(data) <==> Regroup(data, from, to, true) == Some(groups)
  {
    if Regroup(data, from, to, true) == Some(groups) {
      PaddedReadsBack(data, groups, from, to);
    }
    if Regroup(groups, to, from, false) == Some(data) {
      StrictIsPadded(data, groups, from, to);
    }
  }

  lemma PaddedReadsBack(data: seq<Byte>, groups: seq<Byte>, from: nat, to: nat)
    requires 0 < to <= from <= 8 && Regroup(data, from, to, true) == Some(groups)
    ensures Regroup(groups, to, from, false) == Some(data)
  {
    hide Expand, Pack, Shr, Rest, NatOf, ByteOf;
    var bits := Expand(data, from);
    var k := Missing(|bits|, to);
    var all := bits + Zeros(k);
    MissingUnique(|bits|, k, to);
    ExpandPack(all, to);
    PackExpand(data, from);
    ExpandLength(data, from);
    RestUnique(|bits|, k, from);
    assert all[|bits|..] == Zeros(k);
    assert all[..|bits|] == bits;
  }

  lemma StrictIsPadded(data: seq<Byte>, groups: seq<Byte>, from: nat, to: nat)
    requires 0 < to <= from <= 8 && Regroup(groups, to, from, false) == Some(data)
    ensures Regroup(data, from, to, true) == Some(groups)
  {
    hide Expand, Pack, Shr, Rest, NatOf, ByteOf;
    var all := Expand(groups, to);
    var rest := Rest(|all|, from);
    var bits := all[..|all| - rest];
    RestCut(|all|, from);
    ExpandPack(bits, from);
    ExpandLength(groups, to);
    MissingUnique(|bits|, rest, to);
    assert bits + Zeros(rest) == all;
    PackExpand(groups, to);
  }

  // ---------- The loop of the source ----------

  lemma ShiftIn(acc: nat, v: nat, bits: nat, from: nat, to: nat)
    requires bits < to && Shr(v, from) == 0
    ensures Digits(Mask(Shl(acc, from) + v, from + to - 1), bits + from) == Digits(acc, bits) + Digits(v, from)
  {
    DigitsMasked(Shl(acc, from) + v, bits + from, from + to - 1);
    DigitsShift(acc, v, bits, from);
  }

  lemma ShiftOut(acc: nat, bits: nat, to: nat)
    ensures Digits(acc, to + bits) == Digits(Mask(Shr(acc, bits), to), to) + Digits(acc, bits)
  {
    DigitsSplit(acc, to, bits);
    DigitsMasked(Shr(acc, bits), to, to);
  }

  lemma {:induction false} ShrZero(n: nat)
    ensures Shr(0, n) == 0
  {
    if n > 0 {
      ShrZero(n - 1);
    }
  }

  lemma LastGroup(acc: nat, bits: nat, to: nat)
    requires bits < to
    ensures Digits(Mask(Shl(acc, to - bits), to), to) == Digits(acc, bits) + Zeros(to - bits)
  {
    DigitsMasked(Shl(acc, to - bits), to, to);
    ShrZero(to - bits);
    DigitsShift(acc, 0, bits, to - bits);
    DigitsZero(to - bits);
  }

  lemma LastGroupZero(acc: nat, bits: nat, to: nat)
    requires bits < to <= 8
    ensures Mask(Shl(acc, to - bits), to) == 0 <==> Digits(acc, bits) == Zeros(bits)
  {
    hide Digits, Mask, Shl, Shr;
    var g := Mask(Shl(acc, to - bits), to);
    LastGroup(acc, bits, to);
    DigitsZero(to);
    MaskBound(Shl(acc, to - bits), to);
    ValueOfDigits(g, to);
    ShrZero(to);
    ValueOfDigits(0, to);
    if Digits(acc, bits) == Zeros(bits) {
      assert Zeros(bits) + Zeros(to - bits) == Zeros(to);
    }
    if g == 0 {
      assert Zeros(to)[..bits] == Zeros(bits);
      assert (Digits(acc, bits) + Zeros(to - bits))[..bits] == Digits(acc, bits);
    }
  }

  ghost predicate Regrouped(data: seq<Byte>, ret: seq<Byte>, acc: nat, bits: nat, from: nat, to: nat)
  {
    && Fits(data, from) && Fits(ret, to) && bits < to
    && Expand(ret, to) + Digits(acc, bits) == Expand(data, from)
  }

  lemma FinishPadded(data: seq<Byte>, ret: seq<Byte>, acc: nat, bits: nat, from: nat, to: nat)
    requires 0 < from <= 8 && 0 < to <= 8 && Regrouped(data, ret, acc, bits, from, to)
    ensures Mask(Shl(acc, to - bits), to) < 256
    ensures Regroup(data, from, to, true)
         == Some(if bits > 0 then ret + [ByteOf(Mask(Shl(acc, to - bits), to))] else ret)
  {
    hide Expand, Digits, Mask, Shl, Shr, Rest, Pack, ByteOf, NatOf;
    var all := Expand(data, from);
    ExpandLength(ret, to);
    RestUnique(|Expand(ret, to)|, bits, to);
    var last := Mask(Shl(acc, to - bits), to);
    MaskBound(Shl(acc, to - bits), to);
    if bits > 0 {
      LastGroup(acc, bits, to);
      ByteOfNat(last);
      ExpandSnoc(ret, ByteOf(last), to);
      assert Expand(ret + [ByteOf(last)], to) == all + Zeros(to - bits);
      PackExpand(ret + [ByteOf(last)], to);
    } else {
      assert Expand(ret, to) == all + Zeros(0);
      PackExpand(ret, to);
    }
  }

  lemma FinishStrict(data: seq<Byte>, ret: seq<Byte>, acc: nat, bits: nat, from: nat, to: nat)
    requires 0 < from <= 8 && 0 < to <= 8 && Regrouped(data, ret, acc, bits, from, to)
    ensures Regroup(data, from, to, false)
         == if bits >= from || Mask(Shl(acc, to - bits), to) != 0 then None else Some(ret)
  {
    hide Expand, Digits, Mask, Shl, Shr, Rest, Pack, ByteOf, NatOf;
    var all := Expand(data, from);
    ExpandLength(ret, to);
    RestUnique(|Expand(ret, to)|, bits, to);
    LastGroupZero(acc, bits, to);
    assert all[|all| - bits..] == Digits(acc, bits);
    assert Expand(ret, to) == all[..|all| - bits];
    PackExpand(ret, to);
  }

  /** `convertBits`.  The accumulator stays below `2^(from + to - 1)`, so no machine word ever
      overflows; a disjunction with the bits just shifted in is an addition. */
  method ConvertBits(data: seq<Byte>, from: nat, to: nat, pad: bool) returns (r: Option<seq<Byte>>)
    requires 0 < from <= 8 && 0 < to <= 8
    ensures r == Regroup(data, from, to, pad)
  {
    hide Expand, Digits, Mask, Shl, Shr, Rest, Pack, ByteOf, NatOf;
    var acc: nat := 0;
    var bits: nat := 0;
    var ret: seq<Byte> := [];
    var i := 0;
    assert Expand([], to) == [] && Expand([], from) == [] by {
      ExpandEmpty(to);
      ExpandEmpty(from);
    }
    while i < |data|
      invariant 0 <= i <= |data|
      invariant bits < to
      invariant Fits(data[..i], from)
      invariant Fits(ret, to)
      invariant Expand(ret, to) + Digits(acc, bits) == Expand(data[..i], from)
    {
      var v := NatOf(data[i]);
      if Shr(v, from) != 0 {
        return None;
      }
      ShiftIn(acc, v, bits, from, to);
      ExpandSnoc(data[..i], data[i], from);
      assert data[..i + 1] == data[..i] + [data[i]];
      acc := Mask(Shl(acc, from) + v, from + to - 1);
      bits := bits + from;
      while bits >= to
        invariant Fits(ret, to)
        invariant Expand(ret, to) + Digits(acc, bits) == Expand(data[..i + 1], from)
      {
        bits := bits - to;
        ShiftOut(acc, bits, to);
        MaskBound(Shr(acc, bits), to);
        var group := ByteOf(Mask(Shr(acc, bits), to));
        ByteOfNat(Mask(Shr(acc, bits), to));
        ExpandSnoc(ret, group, to);
        ret := ret + [group];
      }
      i := i + 1;
    }
    assert data[..i] == data;
    MaskBound(Shl(acc, to - bits), to);
    var last := Mask(Shl(acc, to - bits), to);
    if pad {
      FinishPadded(data, ret, acc, bits, from, to);
      if bits > 0 {
        ret := ret + [ByteOf(last)];
      }
    } else {
      FinishStrict(data, ret, acc, bits, from, to);
      if bits >= from || last != 0 {
        return None;
      }
    }
    r := Some(ret);
  }
}
