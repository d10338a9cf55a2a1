/** The iOS client's hex codec. */
module Hex {
  import opened Bytes
  import opened Text
  import opened Wrappers

  function DigitValue(c: char): Option<nat> {
    if '0' <= c <= '9' then Some(c as int - '0' as int)
    else if 'a' <= c <= 'f' then Some(c as int - 'a' as int + 10)
    else None
  }

  function Digit(v: nat): char
    requires v < 16
  {
    if v < 10 then ('0' as int + v) as char else ('a' as int + v - 10) as char
  }

  predicate IsLowerHex(s: string) {
    forall i :: 0 <= i < |s| ==> DigitValue(s[i]).Some?
  }

  const DIGITS: string := "0123456789abcdef"

  /** A digit is the place of its character among the sixteen, both ways. */
  lemma DigitsMean(c: char, v: nat)
    ensures DigitValue(c) == Some(v) <==> v < 16 == |DIGITS| && DIGITS[v] == c
    ensures v < 16 ==> Digit(v) == DIGITS[v]
  {}

  /** Swift's `UInt8(_, radix: 16)` on two lower-case characters: a leading sign is accepted. */
  function PairValue(a: char, b: char): (r: Option<nat>)
    ensures r.Some? ==> r.value < 256
  {
    match DigitValue(b)
    case None => None
    case Some(low) =>
      if a == '+' then Some(low)
      else if a == '-' then if low == 0 then Some(0) else None
      else
        match DigitValue(a)
        case None => None
        case Some(high) => Some(16 * high + low)
  }

  function Pairs(s: string): Option<seq<Byte>> {
    if |s| < 2 then Some([])
    else
      match (Pairs(s[..|s| - 2]), PairValue(s[|s| - 2], s[|s| - 1]))
      case (Some(init), Some(v)) => Some(init + [ByteOf(v)])
      case _ => None
  }

  function Decode(hex: string): Option<seq<Byte>> {
    var value := Lower(Trim(hex));
    if |value| % 2 != 0 then None else Pairs(value)
  }

  function Encode(data: seq<Byte>): string {
    if data == [] then ""
    else
      var v := NatOf(data[|data| - 1]);
      Encode(data[..|data| - 1]) + [Digit(v / 16), Digit(v % 16)]
  }

  /** The scanning loop of `decode`. */
  method DecodeLoop(hex: string) returns (data: Option<seq<Byte>>)
    ensures data == Decode(hex)
  {
    hide Pairs, PairValue, DigitValue, ByteOf;
    assert Pairs("") == Some([]) by { PairsEmpty(); }
    var value := Lower(Trim(hex));
    if |value| % 2 != 0 {
      return None;
    }
    var bytes: seq<Byte> := [];
    var index := 0;
    while index < |value|
      invariant 0 <= index <= |value| && index % 2 == 0
      invariant Pairs(value[..index]) == Some(bytes)
    {
      var next := index + 2;
      PairsSnoc(value, index);
      match PairValue(value[index], value[index + 1])
      case None =>
        PairsFail(value, next);
        return None;
      case Some(v) =>
        bytes := bytes + [ByteOf(v)];
        index := next;
    }
    assert value[..index] == value;
    data := Some(bytes);
  }

  lemma PairsEmpty()
    ensures Pairs("") == Some([]) && Encode([]) == ""
  {}

  lemma PairsSnoc(s: string, i: nat)
    requires i + 2 <= |s|
    ensures Pairs(s[..i + 2]) == match (Pairs(s[..i]), PairValue(s[i], s[i + 1]))
                                 case (Some(init), Some(v)) => Some(init + [ByteOf(v)])
                                 case _ => None
  {
    assert s[..i + 2][..i] == s[..i];
  }

  lemma {:induction false} PairsFail(s: string, i: nat)
    requires i <= |s| && i % 2 == |s| % 2 && Pairs(s[..i]).None?
    ensures Pairs(s).None?
  {
    if i < |s| {
      assert s[..|s| - 2][..i] == s[..i];
      PairsFail(s[..|s| - 2], i);
    } else {
      assert s[..i] == s;
    }
  }

  lemma DigitRoundTrip(v: nat)
    requires v < 16
    ensures DigitValue(Digit(v)) == Some(v)
  {}

  lemma PairRoundTrip(a: char, b: char)
    requires DigitValue(a).Some? && DigitValue(b).Some?
    ensures PairValue(a, b).Some?
    ensures Digit(PairValue(a, b).value / 16) == a && Digit(PairValue(a, b).value % 16) == b
  {}

  lemma PairOfDigits(v: nat)
    requires v < 256
    ensures PairValue(Digit(v / 16), Digit(v % 16)) == Some(v)
  {
    DigitRoundTrip(v / 16);
    DigitRoundTrip(v % 16);
  }

  lemma {:induction false} EncodeShape(data: seq<Byte>)
    ensures |Encode(data)| == 2 * |data| && IsLowerHex(Encode(data))
  {
    if data != [] {
      EncodeShape(data[..|data| - 1]);
      var v := NatOf(data[|data| - 1]);
      DigitRoundTrip(v / 16);
      DigitRoundTrip(v % 16);
    }
  }

  lemma HexIsPlain(s: string)
    requires IsLowerHex(s)
    ensures Trim(s) == s && Lower(s) == s
  {
    if s != "" {
      assert DigitValue(s[0]).Some? && DigitValue(s[|s| - 1]).Some?;
    }
    TrimTrimmed(s);
    forall i | 0 <= i < |s| ensures LowerChar(s[i]) == s[i] {
      assert DigitValue(s[i]).Some?;
    }
  }

  lemma {:induction false} PairsOfEncode(data: seq<Byte>)
    ensures Pairs(Encode(data)) == Some(data)
  {
    hide ByteOf, NatOf, DigitValue, Digit;
    if data != [] {
      var init, b := data[..|data| - 1], data[|data| - 1];
      var v := NatOf(b);
      PairsOfEncode(init);
      DigitRoundTrip(v / 16);
      DigitRoundTrip(v % 16);
      NatOfByte(b);
      PairOfDigits(v);
      var s := Encode(data);
      assert s[..|s| - 2] == Encode(init);
      assert data == init + [b];
    }
  }

  lemma DecodeOfEncode(data: seq<Byte>)
    ensures Decode(Encode(data)) == Some(data)
  {
    hide Pairs, Encode, IsLowerHex, NatOf, Trim, Lower;
    EncodeShape(data);
    HexIsPlain(Encode(data));
    PairsOfEncode(data);
  }

  lemma {:induction false} EncodeOfPairs(s: string)
    requires IsLowerHex(s) && |s| % 2 == 0
    ensures Pairs(s).Some? && |Pairs(s).value| == |s| / 2 && Encode(Pairs(s).value) == s
  {
    hide ByteOf, NatOf, PairValue, Digit, DigitValue, Pairs, Encode;
    PairsEmpty();
    if s != "" {
      var n := |s| - 2;
      var init, a, b := s[..n], s[n], s[n + 1];
      EncodeOfPairs(init);
      PairRoundTrip(a, b);
      PairsSnoc(s, n);
      assert s[..n + 2] == s;
      EncodeSnoc(Pairs(init).value, PairValue(a, b).value);
      assert s == init + [a, b];
    }
  }

  lemma EncodeSnoc(data: seq<Byte>, v: nat)
    requires v < 256
    ensures Encode(data + [ByteOf(v)]) == Encode(data) + [Digit(v / 16), Digit(v % 16)]
  {
    hide ByteOf, NatOf, Digit;
    ByteOfNat(v);
    assert (data + [ByteOf(v)])[..|data|] == data;
  }

  /** Every byte is written as two digits, the high one first. */
  lemma {:induction false} EncodeMeans(data: seq<Byte>, k: nat)
    requires k < |data|
    ensures |Encode(data)| == 2 * |data|
    ensures Encode(data)[2 * k] == DIGITS[NatOf(data[k]) / 16] && Encode(data)[2 * k + 1] == DIGITS[NatOf(data[k]) % 16]
  {
    hide NatOf, Digit;
    EncodeShape(data);
    var v := NatOf(data[|data| - 1]);
    DigitsMean('0', v / 16);
    DigitsMean('0', v % 16);
    EncodeShape(data[..|data| - 1]);
    if k < |data| - 1 {
      EncodeMeans(data[..|data| - 1], k);
    }
  }

  lemma TwoCharacters(a: char, b: char)
    requires !IsSpace(a) && !IsSpace(b) && LowerChar(a) == a && LowerChar(b) == b
    ensures Decode([a, b]) == match PairValue(a, b) case None => None case Some(v) => Some([ByteOf(v)])
  {
    hide ByteOf, Pairs, PairValue, Trim;
    var s := [a, b];
    TrimTrimmed(s);
    assert Lower(s) == s;
    PairsEmpty();
    PairsSnoc(s, 0);
    assert s[..0] == "" && s[..2] == s;
    if PairValue(a, b).Some? {
      var byte := ByteOf(PairValue(a, b).value);
      assert [] + [byte] == [byte];
    }
  }

  /** The codec is no bijection on all texts it reads: a sign stands for a zero. */
  lemma SignIsAccepted(b: char)
    requires IsLowerHex([b])
    ensures Decode(['+', b]).Some? && Decode(['+', b]) == Decode(['0', b])
    ensures Encode(Decode(['+', b]).value) == ['0', b]
  {
    hide Decode, Encode, ByteOf, Pairs, Trim;
    assert DigitValue([b][0]).Some?;
    TwoCharacters('+', b);
    TwoCharacters('0', b);
    assert IsLowerHex(['0', b]) by {
      assert DigitValue('0') == Some(0);
    }
    var zero := ['0', b];
    EncodeOfDecode(zero);
    assert Decode(['+', b]) == Decode(zero);
    assert Encode(Decode(zero).value) == zero;
  }

  /** On even-length strings of lower-case hex digits the codec is a bijection. */
  lemma EncodeOfDecode(s: string)
    requires IsLowerHex(s) && |s| % 2 == 0
    ensures Decode(s).Some? && |Decode(s).value| == |s| / 2 && Encode(Decode(s).value) == s
  {
    HexIsPlain(s);
    EncodeOfPairs(s);
  }
}
