/** Two valid texts of BIP-173, decoded: they fix the register's start, its generator, the charset
    and the expansion of the prefix to those of the standard. */
module Bech32Vectors {
  import opened Bytes
  import opened Polymod
  import opened Regrouping
  import opened Text
  import opened Wrappers
  import NIP19

  // ---------- Reading symbols from the left ----------

  function Next(c: bv32, v: Byte): bv32 {
    Add(Add(Low(c), Taps(c >> 25)), v as bv32)
  }

  function Fold(c: bv32, vs: seq<Byte>): bv32
    decreases |vs|
  {
    if vs == [] then c else Fold(Next(c, vs[0]), vs[1..])
  }

  lemma {:induction false} FoldIsRun(c: bv32, vs: seq<Byte>)
    ensures Fold(c, vs) == Run(c, vs)
    decreases |vs|
  {
    hide Add, Low, Taps, Run, Step, Advance, Feedback;
    RunEmpty(c);
    if vs != [] {
      AdvanceUnfold(c);
      StepUnfold(c, vs[0]);
      FeedbackIsTaps(c >> 25);
      RunSnoc(c, [], vs[0]);
      assert [] + [vs[0]] == [vs[0]];
      RunConcat(c, [vs[0]], vs[1..]);
      assert [vs[0]] + vs[1..] == vs;
      FoldIsRun(Next(c, vs[0]), vs[1..]);
    }
  }

  lemma RunPart(c: bv32, vs: seq<Byte>, ws: seq<Byte>)
    ensures Run(c, vs + ws) == Run(Fold(c, vs), ws)
  {
    hide Fold, Run;
    FoldIsRun(c, vs);
    RunConcat(c, vs, ws);
  }

  // ---------- Texts, character by character ----------

  lemma {:induction false} TextAt(symbols: seq<Byte>, k: nat)
    requires Symbols(symbols) && k < |symbols|
    ensures NatOf(symbols[k]) < 32 == |NIP19.CHARSET|
    ensures NIP19.TextOf(symbols)[k] == NIP19.CHARSET[NatOf(symbols[k])]
  {
    hide NIP19.CHARSET, NatOf;
    NIP19.CharsetFacts();
    NatOfSymbol(symbols[k]);
    if k < |symbols| - 1 {
      TextAt(symbols[..|symbols| - 1], k);
    }
  }

  /** A text whose characters stand at the places of its symbols in the charset is read as them. */
  lemma TextReads(raw: string, symbols: seq<Byte>)
    requires |raw| == |symbols| && Symbols(symbols)
    requires forall k :: 0 <= k < |raw| ==> NatOf(symbols[k]) < |NIP19.CHARSET| && raw[k] == NIP19.CHARSET[NatOf(symbols[k])]
    ensures NIP19.SymbolsOf(raw) == Some(symbols)
  {
    hide NIP19.CHARSET, NatOf, NIP19.TextOf, NIP19.SymbolsOf;
    forall k | 0 <= k < |raw|
      ensures NIP19.TextOf(symbols)[k] == raw[k]
    {
      TextAt(symbols, k);
    }
    assert NIP19.TextOf(symbols) == raw;
    NIP19.SymbolsOfText(symbols);
  }

  // ---------- The shortest text ----------

  lemma ShortPrefix()
    ensures NIP19.HrpExpand("a") == [3, 0, 1]
  {}

  lemma ShortSymbols()
    ensures NIP19.SymbolsOf("2uel5l") == Some([10, 28, 25, 31, 20, 31])
  {
    hide NIP19.SymbolsOf;
    TextReads("2uel5l", [10, 28, 25, 31, 20, 31]);
  }

  lemma ShortRun()
    ensures Fold(1, [3, 0, 1, 10, 28, 25, 31, 20, 31]) == 1
  {}

  lemma NothingRegroups()
    ensures Regroup([], 5, 8, false) == Some([])
  {}

  /** The shortest valid text of BIP-173. */
  lemma ShortTextDecodes()
    ensures NIP19.Decode("a12uel5l") == Ok(("a", []))
  {
    hide NIP19.SymbolsOf, NIP19.Checked, Fold, Run, NIP19.HrpExpand, Regroup;
    ShortPrefix();
    ShortSymbols();
    ShortRun();
    NothingRegroups();
    var symbols: seq<Byte> := [10, 28, 25, 31, 20, 31];
    FoldIsRun(1, [3, 0, 1] + symbols);
    assert [3, 0, 1] + symbols == [3, 0, 1, 10, 28, 25, 31, 20, 31];
    assert Lower("a") == "a" && Lower("2uel5l") == "2uel5l";
    assert "a12uel5l" == "a" + "1" + "2uel5l";
    NIP19.CheckedParts("a", "2uel5l");
    assert symbols[..0] == [];
  }

  lemma OneByte(b: Byte, high: seq<bool>, low: seq<bool>, first: nat, second: nat)
    requires |high| == 5 && |low| == 3 && Digits(NatOf(b), 8) == high + low
    requires Value(high) == first < 32 && Value(low + [false, false]) == second < 32
    ensures Regroup([b], 8, 5, true) == Some([ByteOf(first), ByteOf(second)])
  {
    hide NatOf, ByteOf, Value, Digits, Pack, Shr;
    var bits := high + low;
    ExpandSnoc([], b, 8);
    ExpandEmpty(8);
    assert [] + [b] == [b];
    assert Expand([b], 8) == bits;
    ByteFits(b);
    assert Rest(8, 5) == 3;
    var padded := bits + Regrouping.Zeros(2);
    var tail := low + [false, false];
    assert padded == high + tail;
    PackTwo(high, tail);
  }

  lemma ByteFits(b: Byte)
    ensures Shr(NatOf(b), 8) == 0
  {
    hide NatOf;
    NIP19.ShrEight(NatOf(b));
  }

  lemma PackTwo(high: seq<bool>, low: seq<bool>)
    requires |high| == 5 && |low| == 5
    ensures Value(high) < 256 && Value(low) < 256
    ensures Pack(high + low, 5) == [ByteOf(Value(high)), ByteOf(Value(low))]
  {
    hide Value, ByteOf;
    ValueBound(high);
    ValueBound(low);
    var bits := high + low;
    assert bits[|bits| - 5..] == low && bits[..|bits| - 5] == high;
    assert high[|high| - 5..] == high && high[..|high| - 5] == [];
    PackEmpty(5);
  }

  lemma ValueSnoc(bits: seq<bool>, bit: bool)
    ensures Value(bits + [bit]) == 2 * Value(bits) + if bit then 1 else 0
  {
    assert (bits + [bit])[..|bits|] == bits;
  }

  /** The value of a few bits, the highest first. */
  lemma ValueOfFew(a: bool, b: bool, c: bool, d: bool, e: bool)
    ensures Value([a, b, c, d, e]) ==
            (if a then 16 else 0) + (if b then 8 else 0) + (if c then 4 else 0) + (if d then 2 else 0) + (if e then 1 else 0)
  {
    hide Value;
    NoBits();
    ValueSnoc([], a);
    ValueSnoc([a], b);
    ValueSnoc([a, b], c);
    ValueSnoc([a, b, c], d);
    ValueSnoc([a, b, c, d], e);
    assert [] + [a] == [a] && [a] + [b] == [a, b] && [a, b] + [c] == [a, b, c];
    assert [a, b, c] + [d] == [a, b, c, d] && [a, b, c, d] + [e] == [a, b, c, d, e];
  }

  lemma NoBits()
    ensures Value([]) == 0
  {}

  lemma ValueOfMore(bits: seq<bool>, f: bool, g: bool, h: bool)
    ensures Value(bits + [f, g, h]) == 8 * Value(bits) + (if f then 4 else 0) + (if g then 2 else 0) + (if h then 1 else 0)
  {
    hide Value;
    ValueSnoc(bits, f);
    ValueSnoc(bits + [f], g);
    ValueSnoc(bits + [f] + [g], h);
    assert bits + [f] + [g] + [h] == bits + [f, g, h];
  }

  lemma BitLists()
    ensures Digits(128, 8) == [true, false, false, false, false] + [false, false, false]
    ensures Digits(1, 8) == [false, false, false, false, false] + [false, false, true]
    ensures Value([true, false, false, false, false]) == 16 && Value([false, false, false, false, false]) == 0
    ensures Value([false, false, false] + [false, false]) == 0 && Value([false, false, true] + [false, false]) == 4
  {
    hide Value, Digits;
    ValueOfFew(true, false, false, false, false);
    ValueOfFew(false, false, false, false, false);
    ValueOfFew(false, false, true, false, false);
    ValueOfMore([true, false, false, false, false], false, false, false);
    ValueOfMore([false, false, false, false, false], false, false, true);
    DigitsOfValue([true, false, false, false, false] + [false, false, false]);
    DigitsOfValue([false, false, false, false, false] + [false, false, true]);
    assert [false, false, false] + [false, false] == [false, false, false, false, false];
    assert [false, false, true] + [false, false] == [false, false, true, false, false];
  }

  /** Bits are regrouped from the highest on, and padded at the low end. */
  lemma HighBitsFirst()
    ensures Regroup([128], 8, 5, true) == Some([16, 0])
    ensures Regroup([1], 8, 5, true) == Some([0, 4])
  {
    hide Regroup, Digits, Value;
    BitLists();
    OneByte(128, [true, false, false, false, false], [false, false, false], 16, 0);
    OneByte(1, [false, false, false, false, false], [false, false, true], 0, 4);
  }

  // ---------- The whole charset ----------

  lemma {:induction false} PrefixAt(hrp: NIP19.Ascii, k: nat)
    requires k < |hrp|
    ensures NIP19.HighBits(hrp)[k] == NIP19.CharByte(hrp[k]) >> 5
    ensures NIP19.LowBits(hrp)[k] == NIP19.CharByte(hrp[k]) & 31
  {
    hide NIP19.CharByte;
    if k < |hrp| - 1 {
      PrefixAt(hrp[..|hrp| - 1], k);
    }
  }

  lemma LetterBytes()
    ensures NIP19.CharByte('a') == 97 && NIP19.CharByte('b') == 98 && NIP19.CharByte('c') == 99
    ensures NIP19.CharByte('d') == 100 && NIP19.CharByte('e') == 101 && NIP19.CharByte('f') == 102
  {}

  lemma LongPrefix()
    ensures NIP19.HrpExpand("abcdef") == [3, 3, 3, 3, 3, 3, 0, 1, 2, 3, 4, 5, 6]
  {
    hide NIP19.CharByte, NIP19.HighBits, NIP19.LowBits;
    LetterBytes();
    forall k | 0 <= k < 6
      ensures NIP19.HighBits("abcdef")[k] == 3 && NIP19.LowBits("abcdef")[k] == [1, 2, 3, 4, 5, 6][k]
    {
      PrefixAt("abcdef", k);
    }
  }

  lemma Piece0()
    ensures NIP19.SymbolsOf("qpzry9x8gf") == Some([0, 1, 2, 3, 4, 5, 6, 7, 8, 9])
  {
    hide NIP19.SymbolsOf;
    TextReads("qpzry9x8gf", [0, 1, 2, 3, 4, 5, 6, 7, 8, 9]);
  }

  lemma Piece1()
    ensures NIP19.SymbolsOf("2tvdw0s3jn") == Some([10, 11, 12, 13, 14, 15, 16, 17, 18, 19])
  {
    hide NIP19.SymbolsOf;
    TextReads("2tvdw0s3jn", [10, 11, 12, 13, 14, 15, 16, 17, 18, 19]);
  }

  lemma Piece2()
    ensures NIP19.SymbolsOf("54khce6mua") == Some([20, 21, 22, 23, 24, 25, 26, 27, 28, 29])
  {
    hide NIP19.SymbolsOf;
    TextReads("54khce6mua", [20, 21, 22, 23, 24, 25, 26, 27, 28, 29]);
  }

  lemma Piece3()
    ensures NIP19.SymbolsOf("7lmqqqxw") == Some([30, 31, 27, 0, 0, 0, 6, 14])
  {
    hide NIP19.SymbolsOf;
    TextReads("7lmqqqxw", [30, 31, 27, 0, 0, 0, 6, 14]);
  }

  lemma Reads0()
    ensures Fold(0x1, [3, 3, 3, 3, 3, 3, 0, 1, 2, 3, 4, 5, 6]) == 0x3be80e6a
  {}

  lemma Reads1()
    ensures Fold(0x3be80e6a, [0, 1, 2, 3, 4, 5, 6, 7, 8, 9]) == 0xa5fdaa9
  {}

  lemma Reads2()
    ensures Fold(0xa5fdaa9, [10, 11, 12, 13, 14, 15, 16, 17, 18, 19]) == 0x28166541
  {}

  lemma Reads3()
    ensures Fold(0x28166541, [20, 21, 22, 23, 24, 25, 26, 27, 28, 29]) == 0x2e07d307
  {}

  lemma Reads4()
    ensures Fold(0x2e07d307, [30, 31, 27, 0, 0, 0, 6, 14]) == 0x1
  {}

  const SYMBOLS: seq<Byte> :=
    [0, 1, 2, 3, 4, 5, 6, 7, 8, 9] + [10, 11, 12, 13, 14, 15, 16, 17, 18, 19]
    + [20, 21, 22, 23, 24, 25, 26, 27, 28, 29] + [30, 31, 27, 0, 0, 0, 6, 14]

  const DATA := "qpzry9x8gf2tvdw0s3jn54khce6mua7lmqqqxw"
  const LONG := "abcdef" + "1" + DATA

  lemma LongSymbols()
    ensures NIP19.SymbolsOf(DATA) == Some(SYMBOLS)
  {
    hide NIP19.SymbolsOf;
    Piece0();
    Piece1();
    Piece2();
    Piece3();
    NIP19.SymbolsConcat("qpzry9x8gf", "2tvdw0s3jn");
    NIP19.SymbolsConcat("qpzry9x8gf2tvdw0s3jn", "54khce6mua");
    NIP19.SymbolsConcat("qpzry9x8gf2tvdw0s3jn54khce6mua", "7lmqqqxw");
    assert "qpzry9x8gf" + "2tvdw0s3jn" == "qpzry9x8gf2tvdw0s3jn";
    assert "qpzry9x8gf2tvdw0s3jn" + "54khce6mua" == "qpzry9x8gf2tvdw0s3jn54khce6mua";
    assert "qpzry9x8gf2tvdw0s3jn54khce6mua" + "7lmqqqxw" == "qpzry9x8gf2tvdw0s3jn54khce6mua7lmqqqxw";
  }

  lemma LongRun()
    ensures Run(1, [3, 3, 3, 3, 3, 3, 0, 1, 2, 3, 4, 5, 6] + SYMBOLS) == 1
  {
    hide Fold, Run;
    Reads0();
    Reads1();
    Reads2();
    Reads3();
    Reads4();
    var p0, p1: seq<Byte> := [3, 3, 3, 3, 3, 3, 0, 1, 2, 3, 4, 5, 6], [0, 1, 2, 3, 4, 5, 6, 7, 8, 9];
    var p2: seq<Byte> := [10, 11, 12, 13, 14, 15, 16, 17, 18, 19];
    var p3, p4: seq<Byte> := [20, 21, 22, 23, 24, 25, 26, 27, 28, 29], [30, 31, 27, 0, 0, 0, 6, 14];
    assert p0 + SYMBOLS == p0 + (p1 + (p2 + (p3 + p4)));
    RunPart(1, p0, p1 + (p2 + (p3 + p4)));
    RunPart(0x3be80e6a, p1, p2 + (p3 + p4));
    RunPart(0xa5fdaa9, p2, p3 + p4);
    RunPart(0x28166541, p3, p4);
    FoldIsRun(0x2e07d307, p4);
  }

  lemma LongIsPlain()
    ensures NIP19.IsAscii("abcdef") && Lower("abcdef") == "abcdef"
    ensures NIP19.IsAscii(DATA) && Lower(DATA) == DATA && '1' !in DATA && |DATA| == 38
  {
    hide NIP19.SymbolsOf, NIP19.TextOf, Lower;
    LongSymbols();
    NIP19.TextOfSymbols(DATA);
    NIP19.TextIsPlain(SYMBOLS);
    PrefixPlain();
  }

  lemma PrefixPlain()
    ensures Lower("abcdef") == "abcdef"
  {}

  /** The text of BIP-173 that holds every symbol once, in order, before its checksum. */
  lemma LongTextIsChecked()
    ensures NIP19.IsAscii(LONG) && |SYMBOLS| == 38
    ensures NIP19.Checked(LONG) == Ok(("abcdef", SYMBOLS[..32]))
  {
    hide NIP19.SymbolsOf, NIP19.Checked, Run, NIP19.HrpExpand, Lower, DATA, NIP19.IsAscii;
    LongPrefix();
    LongSymbols();
    LongRun();
    LongIsPlain();
    NIP19.CheckedParts("abcdef", DATA);
  }
}
