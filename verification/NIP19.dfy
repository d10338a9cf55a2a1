/** The iOS client's NIP-19 codec: Bech32 (BIP-173) over arbitrary byte strings. */
module NIP19 {
  import opened Bytes
  import opened Regrouping
  import opened Text
  import opened Wrappers
  import Hex
  import Polymod

  datatype Error = InvalidFormat | UnsupportedPrefix | InvalidChecksum | InvalidData | InvalidHex

  /** Human-readable text and symbols, or text and bytes. */
  type Payload = (string, seq<Byte>)

  const CHARSET: string := "qpzry9x8gf2tvdw0s3jn54khce6mua7l"

  predicate IsAscii(s: string) {
    forall i :: 0 <= i < |s| ==> s[i] as int < 128
  }

  type Ascii = s: string | IsAscii(s)

  function CharByte(c: char): Byte {
    if c as int < 128 then ByteOf(c as int) else 0
  }

  function HighBits(hrp: Ascii): (r: seq<Byte>)
    ensures |r| == |hrp|
  {
    if hrp == "" then [] else HighBits(hrp[..|hrp| - 1]) + [CharByte(hrp[|hrp| - 1]) >> 5]
  }

  function LowBits(hrp: Ascii): (r: seq<Byte>)
    ensures |r| == |hrp|
  {
    if hrp == "" then [] else LowBits(hrp[..|hrp| - 1]) + [CharByte(hrp[|hrp| - 1]) & 31]
  }

  function HrpExpand(hrp: Ascii): seq<Byte> {
    HighBits(hrp) + [0] + LowBits(hrp)
  }

  predicate VerifyChecksum(hrp: Ascii, data: seq<Byte>) {
    Polymod.Checksum(HrpExpand(hrp) + data) == 1
  }

  function CreateChecksum(hrp: Ascii, data: seq<Byte>): seq<Byte> {
    Polymod.CreateChecksum(HrpExpand(hrp) + data)
  }

  /** The symbols of `raw`; nothing if a character is outside the charset. */
  function SymbolsOf(raw: string): (r: Option<seq<Byte>>)
    ensures r.Some? ==> |r.value| == |raw|
  {
    if raw == "" then Some([])
    else
      match (SymbolsOf(raw[..|raw| - 1]), IndexOf(CHARSET, raw[|raw| - 1]))
      case (Some(init), Some(i)) => CharsetFacts(); Some(init + [ByteOf(i)])
      case _ => None
  }

  function TextOf(symbols: seq<Byte>): (raw: string)
    requires Polymod.Symbols(symbols)
    ensures |raw| == |symbols|
  {
    if symbols == [] then ""
    else
      CharsetFacts();
      NatOfSymbol(symbols[|symbols| - 1]);
      TextOf(symbols[..|symbols| - 1]) + [CHARSET[NatOf(symbols[|symbols| - 1])]]
  }

  /** Everything `decode` does before regrouping: the text before the last '1' and the symbols
      after it without the checksum. */
  function Checked(value: Ascii): (r: Result<Payload, Error>)
    ensures r.Ok? ==> IsAscii(r.value.0)
  {
    if value != Lower(value) then Err(InvalidFormat)
    else
      match LastIndexOf(value, '1')
      case None => Err(InvalidFormat)
      case Some(separator) =>
        if separator == 0 then Err(InvalidFormat)
        else
          var hrp, raw := value[..separator], value[separator + 1..];
          if |raw| < 6 then Err(InvalidFormat)
          else
            match SymbolsOf(raw)
            case None => Err(InvalidData)
            case Some(values) =>
              if !VerifyChecksum(hrp, values) then Err(InvalidChecksum)
              else Ok((hrp, values[..|values| - 6]))
  }

  function Decode(value: Ascii): (r: Result<Payload, Error>)
    ensures r.Ok? ==> IsAscii(r.value.0)
  {
    match Checked(value)
    case Err(e) => Err(e)
    case Ok((hrp, symbols)) =>
      match Regroup(symbols, 5, 8, false)
      case None => Err(InvalidData)
      case Some(bytes) => Ok((hrp, bytes))
  }

  function Encode(hrp: Ascii, bytes: seq<Byte>): (r: Result<Ascii, Error>) {
    match Regroup(bytes, 8, 5, true)
    case None => Err(InvalidData)
    case Some(fiveBit) =>
      PaddedSymbols(bytes);
      CreatedSymbols(hrp, fiveBit);
      TextIsPlain(fiveBit + CreateChecksum(hrp, fiveBit));
      Ok(hrp + "1" + TextOf(fiveBit + CreateChecksum(hrp, fiveBit)))
  }

  function ImportSecret(nsec: Ascii): Result<string, Error> {
    match Decode(nsec)
    case Err(e) => Err(e)
    case Ok((hrp, bytes)) =>
      if hrp != "nsec" then Err(UnsupportedPrefix)
      else if |bytes| != 32 then Err(InvalidData)
      else Ok(Hex.Encode(bytes))
  }

  function EncodeKey(hrp: Ascii, hex: string): Result<Ascii, Error> {
    match Hex.Decode(hex)
    case None => Err(InvalidHex)
    case Some(bytes) => if |bytes| != 32 then Err(InvalidHex) else Encode(hrp, bytes)
  }

  function EncodeNsec(secretHex: string): Result<Ascii, Error> {
    EncodeKey("nsec", secretHex)
  }

  function EncodeNpub(pubkeyHex: string): Result<Ascii, Error> {
    EncodeKey("npub", pubkeyHex)
  }

  // ---------- The charset ----------

  lemma CharsetFacts()
    ensures |CHARSET| == 32 && '1' !in CHARSET
    ensures forall i :: 0 <= i < 32 ==> LowerChar(CHARSET[i]) == CHARSET[i] && CHARSET[i] as int < 128
  {}

  lemma CharsetDistinct()
    ensures |CHARSET| == 32
    ensures forall i, j :: 0 <= i < j < 32 ==> CHARSET[i] != CHARSET[j]
  {
    hide CHARSET;
    CharsetFacts();
    DistinctFrom(0);
    DistinctFrom(8);
    DistinctFrom(16);
    DistinctFrom(24);
  }

  lemma DistinctFrom(k: nat)
    requires k == 0 || k == 8 || k == 16 || k == 24
    ensures |CHARSET| == 32
    ensures forall i, j :: k <= i < k + 8 && i < j < 32 ==> CHARSET[i] != CHARSET[j]
  {}

  lemma IndexInCharset(i: nat)
    requires i < 32
    ensures |CHARSET| == 32 && IndexOf(CHARSET, CHARSET[i]) == Some(i)
  {
    hide CHARSET, IndexOf;
    CharsetDistinct();
    assert CHARSET[i] in CHARSET;
  }

  // ---------- Symbols and their text ----------

  lemma {:induction false} SymbolsBound(raw: string)
    requires SymbolsOf(raw).Some?
    ensures Polymod.Symbols(SymbolsOf(raw).value)
  {
    hide CHARSET, ByteOf, NatOf;
    if raw != "" {
      CharsetFacts();
      SymbolsBound(raw[..|raw| - 1]);
      var i := IndexOf(CHARSET, raw[|raw| - 1]).value;
      ByteOfNat(i);
      NatOfSymbol(ByteOf(i));
    }
  }

  lemma {:induction false} SymbolsOfText(symbols: seq<Byte>)
    requires Polymod.Symbols(symbols)
    ensures SymbolsOf(TextOf(symbols)) == Some(symbols)
  {
    hide CHARSET, IndexOf, ByteOf, NatOf;
    if symbols != [] {
      var init, v := symbols[..|symbols| - 1], symbols[|symbols| - 1];
      SymbolsOfText(init);
      NatOfSymbol(v);
      NatOfByte(v);
      IndexInCharset(NatOf(v));
      var raw := TextOf(symbols);
      assert raw[..|raw| - 1] == TextOf(init);
      assert symbols == init + [v];
    }
  }

  lemma {:induction false} TextOfSymbols(raw: string)
    requires SymbolsOf(raw).Some?
    ensures Polymod.Symbols(SymbolsOf(raw).value) && TextOf(SymbolsOf(raw).value) == raw
  {
    hide CHARSET, ByteOf, NatOf;
    SymbolsBound(raw);
    if raw != "" {
      CharsetFacts();
      var init, c := raw[..|raw| - 1], raw[|raw| - 1];
      TextOfSymbols(init);
      var i := IndexOf(CHARSET, c).value;
      ByteOfNat(i);
      var values := SymbolsOf(raw).value;
      assert values[..|values| - 1] == SymbolsOf(init).value;
      assert raw == init + [c];
    }
  }

  lemma {:induction false} TextIsPlain(symbols: seq<Byte>)
    requires Polymod.Symbols(symbols)
    ensures var raw := TextOf(symbols); IsAscii(raw) && Lower(raw) == raw && '1' !in raw
  {
    hide CHARSET, NatOf;
    if symbols != [] {
      CharsetFacts();
      var init, v := symbols[..|symbols| - 1], symbols[|symbols| - 1];
      TextIsPlain(init);
      NatOfSymbol(v);
      LowerConcat(TextOf(init), [CHARSET[NatOf(v)]]);
    }
  }

  lemma PaddedSymbols(bytes: seq<Byte>)
    requires Regroup(bytes, 8, 5, true).Some?
    ensures Polymod.Symbols(Regroup(bytes, 8, 5, true).value)
  {
    hide Expand, Pack, Shr, Rest, NatOf;
    var bits := Expand(bytes, 8);
    MissingUnique(|bits|, Missing(|bits|, 5), 5);
    ExpandPack(bits + Zeros(Missing(|bits|, 5)), 5);
    FitsIsSymbols(Regroup(bytes, 8, 5, true).value);
  }

  lemma FitsIsSymbols(data: seq<Byte>)
    ensures Fits(data, 5) <==> Polymod.Symbols(data)
  {
    forall i | 0 <= i < |data| ensures Shr(NatOf(data[i]), 5) == 0 <==> data[i] < 32 {
      ShrFive(NatOf(data[i]));
      NatOfSymbol(data[i]);
    }
  }

  lemma ShrFive(v: nat)
    ensures Shr(v, 5) == 0 <==> v < 32
  {
    var a, b, c := v / 2, v / 2 / 2, v / 2 / 2 / 2;
    assert Shr(v, 5) == Shr(a, 4) == Shr(b, 3) == Shr(c, 2) == c / 2 / 2;
  }

  lemma CreatedSymbols(hrp: Ascii, data: seq<Byte>)
    requires Polymod.Symbols(data)
    ensures |CreateChecksum(hrp, data)| == 6
    ensures Polymod.Symbols(data + CreateChecksum(hrp, data))
  {
    hide Polymod.Checksum, Polymod.Add, Polymod.Split;
    assert Polymod.Symbols(CreateChecksum(hrp, data));
  }

  lemma ChecksumAccepted(hrp: Ascii, data: seq<Byte>, tail: seq<Byte>)
    requires |tail| == 6 && Polymod.Symbols(tail)
    ensures VerifyChecksum(hrp, data + tail) <==> tail == CreateChecksum(hrp, data)
  {
    hide Polymod.Checksum, HrpExpand, Polymod.CreateChecksum;
    assert HrpExpand(hrp) + (data + tail) == (HrpExpand(hrp) + data) + tail;
    Polymod.ChecksumUnique(HrpExpand(hrp) + data, tail);
  }

  // ---------- Main results ----------

  /** The last '1' of an encoding is the separator. */
  lemma {:induction false} SeparatorFound(hrp: string, raw: string)
    requires '1' !in raw
    ensures LastIndexOf(hrp + "1" + raw, '1') == Some(|hrp|)
  {
    var value := hrp + "1" + raw;
    if raw == "" {
      assert value[|value| - 1] == '1';
    } else {
      var init := raw[..|raw| - 1];
      assert value[..|value| - 1] == hrp + "1" + init;
      assert value[|value| - 1] == raw[|raw| - 1];
      SeparatorFound(hrp, init);
    }
  }

  /** What `Checked` does with the two sides of the separator. */
  lemma CheckedParts(hrp: Ascii, raw: Ascii)
    requires '1' !in raw && hrp != "" && Lower(hrp) == hrp && Lower(raw) == raw && |raw| >= 6
    ensures IsAscii(hrp + "1" + raw)
    ensures Checked(hrp + "1" + raw) ==
            match SymbolsOf(raw)
            case None => Err(InvalidData)
            case Some(values) =>
              if VerifyChecksum(hrp, values) then Ok((hrp, values[..|values| - 6])) else Err(InvalidChecksum)
  {
    hide VerifyChecksum, SymbolsOf, LastIndexOf, Lower;
    var value := hrp + "1" + raw;
    LowerConcat(hrp, "1");
    LowerConcat(hrp + "1", raw);
    LowerOne();
    SeparatorFound(hrp, raw);
    assert value[..|hrp|] == hrp && value[|hrp| + 1..] == raw;
  }

  /** `Checked` accepts exactly the texts assembled from a non-empty lower-case prefix, symbols
      and their own checksum. */
  lemma CheckedIffAssembled(value: Ascii, hrp: Ascii, symbols: seq<Byte>)
    requires Polymod.Symbols(symbols)
    ensures |CreateChecksum(hrp, symbols)| == 6 && Polymod.Symbols(symbols + CreateChecksum(hrp, symbols))
    ensures Checked(value) == Ok((hrp, symbols))
       <==> hrp != "" && Lower(hrp) == hrp && value == hrp + "1" + TextOf(symbols + CreateChecksum(hrp, symbols))
  {
    CreatedSymbols(hrp, symbols);
    var checksum := CreateChecksum(hrp, symbols);
    var raw := TextOf(symbols + checksum);
    if hrp != "" && Lower(hrp) == hrp && value == hrp + "1" + raw {
      AssembledIsChecked(hrp, symbols);
    }
    if Checked(value) == Ok((hrp, symbols)) {
      CheckedIsAssembled(value, hrp, symbols);
    }
  }

  lemma AssembledIsChecked(hrp: Ascii, symbols: seq<Byte>)
    requires Polymod.Symbols(symbols) && hrp != "" && Lower(hrp) == hrp
    requires |CreateChecksum(hrp, symbols)| == 6 && Polymod.Symbols(symbols + CreateChecksum(hrp, symbols))
    ensures IsAscii(hrp + "1" + TextOf(symbols + CreateChecksum(hrp, symbols)))
    ensures Checked(hrp + "1" + TextOf(symbols + CreateChecksum(hrp, symbols))) == Ok((hrp, symbols))
  {
    hide VerifyChecksum, CreateChecksum, TextOf, SymbolsOf, LastIndexOf, Lower, Checked;
    var checksum := CreateChecksum(hrp, symbols);
    var all := symbols + checksum;
    TextIsPlain(all);
    SymbolsOfText(all);
    assert Polymod.Symbols(checksum) by {
      forall i | 0 <= i < 6 ensures checksum[i] < 32 {
        assert checksum[i] == all[|symbols| + i];
      }
    }
    ChecksumAccepted(hrp, symbols, checksum);
    assert all[..|all| - 6] == symbols;
    CheckedParts(hrp, TextOf(all));
  }

  lemma LowerOne()
    ensures Lower("1") == "1"
  {}

  lemma CheckedIsAssembled(value: Ascii, hrp: Ascii, symbols: seq<Byte>)
    requires Checked(value) == Ok((hrp, symbols))
    ensures Polymod.Symbols(symbols) && hrp != "" && Lower(hrp) == hrp
    ensures |CreateChecksum(hrp, symbols)| == 6 && Polymod.Symbols(symbols + CreateChecksum(hrp, symbols))
    ensures value == hrp + "1" + TextOf(symbols + CreateChecksum(hrp, symbols))
  {
    hide VerifyChecksum, CreateChecksum, TextOf, SymbolsOf, LastIndexOf, Lower;
    var separator := LastIndexOf(value, '1').value;
    var raw := value[separator + 1..];
    var all := SymbolsOf(raw).value;
    TextOfSymbols(raw);
    var tail := all[|all| - 6..];
    assert all == symbols + tail;
    CreatedSymbols(hrp, symbols);
    ChecksumAccepted(hrp, symbols, tail);
    assert value == hrp + "1" + raw;
    LowerConcat(hrp + "1", raw);
    LowerConcat(hrp, "1");
    assert Lower(value)[..|hrp|] == Lower(hrp) by { LowerConcat(hrp, "1" + raw); assert hrp + ("1" + raw) == value; }
    assert value[..|hrp|] == hrp;
  }

  /** Full round trip, both ways: a text decodes to (hrp, bytes) exactly when it is the encoding
      of (hrp, bytes) and hrp is non-empty and lower case. */
  lemma DecodeInvertsEncode(value: Ascii, hrp: Ascii, bytes: seq<Byte>)
    ensures Decode(value) == Ok((hrp, bytes))
       <==> hrp != "" && Lower(hrp) == hrp && Encode(hrp, bytes) == Ok(value)
  {
    hide Regroup, Checked, CreateChecksum, TextOf, Lower;
    if Encode(hrp, bytes) == Ok(value) && hrp != "" && Lower(hrp) == hrp {
      var fiveBit := Regroup(bytes, 8, 5, true).value;
      PaddedSymbols(bytes);
      CheckedIffAssembled(value, hrp, fiveBit);
      StrictInvertsPadded(bytes, fiveBit, 8, 5);
    }
    if Decode(value) == Ok((hrp, bytes)) {
      var symbols := Checked(value).value.1;
      CheckedIsAssembled(value, hrp, symbols);
      StrictInvertsPadded(bytes, symbols, 8, 5);
    }
  }

  lemma EncodeSucceeds(hrp: Ascii, bytes: seq<Byte>)
    ensures Encode(hrp, bytes).Ok?
  {
    hide CreateChecksum, TextOf, Expand, Pack;
    forall i | 0 <= i < |bytes| ensures Shr(NatOf(bytes[i]), 8) == 0 {
      ShrEight(NatOf(bytes[i]));
    }
  }

  lemma ShrEight(v: nat)
    requires v < 256
    ensures Shr(v, 8) == 0
  {
    var a, b, c := v / 2, v / 2 / 2, v / 2 / 2 / 2;
    assert Shr(v, 8) == Shr(a, 7) == Shr(b, 6) == Shr(c, 5);
    ShrFive(c);
  }

  /** Importing an exported secret returns its canonical hex, which is the input exactly when the
      input is 64 lower-case hex digits.  (A pair such as "+f" is accepted by the hex reader, so
      the digit condition cannot be dropped.) */
  lemma ImportInvertsExport(hex: string)
    ensures match EncodeNsec(hex)
            case Err(_) => true
            case Ok(nsec) =>
              && Hex.Decode(hex).Some?
              && ImportSecret(nsec) == Ok(Hex.Encode(Hex.Decode(hex).value))
              && (ImportSecret(nsec) == Ok(hex) <==> Hex.IsLowerHex(hex) && |hex| == 64)
  {
    hide Encode, Decode, Hex.Decode, Hex.Encode;
    if EncodeNsec(hex).Ok? {
      var bytes := Hex.Decode(hex).value;
      LowerNsec();
      DecodeInvertsEncode(EncodeNsec(hex).value, "nsec", bytes);
      Hex.EncodeShape(bytes);
      if Hex.IsLowerHex(hex) && |hex| == 64 {
        Hex.EncodeOfDecode(hex);
      }
    }
  }

  /** A secret is imported exactly from a text that decodes to the prefix nsec and 32 bytes. */
  lemma ImportMeans(nsec: Ascii, hex: string)
    ensures ImportSecret(nsec) == Ok(hex) <==>
            exists bytes :: Decode(nsec) == Ok(("nsec", bytes)) && |bytes| == 32 && hex == Hex.Encode(bytes)
  {
    hide Decode, Hex.Encode;
  }

  /** A secret is exported under nsec, a public key under npub, and only if it is 32 bytes. */
  lemma ExportMeans(hex: string)
    ensures EncodeNsec(hex).Ok? <==> Hex.Decode(hex).Some? && |Hex.Decode(hex).value| == 32
    ensures EncodeNpub(hex).Ok? <==> Hex.Decode(hex).Some? && |Hex.Decode(hex).value| == 32
    ensures EncodeNsec(hex).Ok? ==> "nsec1" <= EncodeNsec(hex).value
    ensures EncodeNpub(hex).Ok? ==> "npub1" <= EncodeNpub(hex).value
  {
    hide Regroup, Hex.Decode, CreateChecksum, TextOf;
    if Hex.Decode(hex).Some? && |Hex.Decode(hex).value| == 32 {
      var bytes := Hex.Decode(hex).value;
      PrefixFirst("nsec", bytes);
      PrefixFirst("npub", bytes);
    }
  }

  lemma PrefixFirst(hrp: Ascii, bytes: seq<Byte>)
    ensures Encode(hrp, bytes).Ok? && hrp + "1" <= Encode(hrp, bytes).value
  {
    hide Regroup, CreateChecksum, TextOf;
    EncodeSucceeds(hrp, bytes);
  }

  lemma LowerNsec()
    ensures Lower("nsec") == "nsec" && Lower("npub") == "npub"
  {}

  /** Every 64-digit hex secret can be exported. */
  lemma ExportSucceeds(hrp: Ascii, hex: string)
    requires Hex.IsLowerHex(hex) && |hex| == 64
    ensures EncodeKey(hrp, hex).Ok?
  {
    hide Encode, Hex.Decode, Hex.Encode;
    Hex.EncodeOfDecode(hex);
    EncodeSucceeds(hrp, Hex.Decode(hex).value);
  }

  /** Burst detection on texts: if a text decodes, replacing characters of its data part by other
      charset characters inside a window of six makes the checksum fail. */
  lemma DecodeDetectsBursts(hrp: Ascii, before: string, us: string, vs: string, after: string)
    requires IsAscii(hrp + "1" + before + us + after) && IsAscii(hrp + "1" + before + vs + after)
    requires |us| == |vs| <= 6 && us != vs && SymbolsOf(vs).Some?
    requires '1' !in before + us + after
    ensures Decode(hrp + "1" + before + us + after).Ok? ==>
              Decode(hrp + "1" + before + vs + after) == Err(InvalidChecksum)
  {
    hide *;
    if Decode(hrp + "1" + before + us + after).Ok? {
      var raw, raw' := before + us + after, before + vs + after;
      assert hrp + "1" + before + us + after == hrp + "1" + raw;
      assert hrp + "1" + before + vs + after == hrp + "1" + raw';
      DecodedParts(hrp, raw);
      SymbolsOfThree(before, us, after);
      SymbolsOfThree(before, vs, after);
      var b, u, v, a := SymbolsOf(before).value, SymbolsOf(us).value, SymbolsOf(vs).value, SymbolsOf(after).value;
      TextOfSymbols(us);
      TextOfSymbols(vs);
      SymbolsBound(us);
      SymbolsBound(vs);
      BurstFailsChecksum(hrp, b, u, v, a);
      ChecksumFails(hrp, raw');
    }
  }

  lemma SymbolsOfThree(before: string, middle: string, after: string)
    ensures SymbolsOf(before + middle + after) ==
            match (SymbolsOf(before), SymbolsOf(middle), SymbolsOf(after))
            case (Some(b), Some(m), Some(a)) => Some(b + m + a)
            case _ => None
  {
    hide SymbolsOf;
    SymbolsConcat(before + middle, after);
    SymbolsConcat(before, middle);
  }

  /** A text that decodes has a proper prefix, enough symbols, and a checksum that fits. */
  lemma DecodedParts(hrp: string, raw: string)
    requires IsAscii(hrp + "1" + raw) && '1' !in raw && Decode(hrp + "1" + raw).Ok?
    ensures IsAscii(hrp) && hrp != "" && Lower(hrp) == hrp && |raw| >= 6
    ensures SymbolsOf(raw).Some? && VerifyChecksum(hrp, SymbolsOf(raw).value)
  {
    hide Lower, LastIndexOf, SymbolsOf, Regroup, VerifyChecksum, Checked, TextOf, CreateChecksum;
    var value := hrp + "1" + raw;
    assert IsAscii(hrp) by {
      assert hrp == value[..|hrp|];
    }
    var (prefix, own) := Checked(value).value;
    CheckedIsAssembled(value, prefix, own);
    DataPart(hrp, raw, prefix, own);
    TextOfSymbols(raw);
    TextIsPlain(SymbolsOf(raw).value);
    CheckedParts(hrp, raw);
  }

  lemma ChecksumFails(hrp: Ascii, raw: string)
    requires hrp != "" && Lower(hrp) == hrp && |raw| >= 6
    requires SymbolsOf(raw).Some? && !VerifyChecksum(hrp, SymbolsOf(raw).value)
    ensures IsAscii(hrp + "1" + raw) && Decode(hrp + "1" + raw) == Err(InvalidChecksum)
  {
    hide Lower, SymbolsOf, Regroup, VerifyChecksum, Checked, TextOf;
    TextOfSymbols(raw);
    TextIsPlain(SymbolsOf(raw).value);
    CheckedParts(hrp, raw);
  }

  /** The part after the last '1' is the text of the symbols. */
  lemma DataPart(hrp: string, raw: string, hrp': Ascii, symbols: seq<Byte>)
    requires '1' !in raw && Polymod.Symbols(symbols)
    requires |CreateChecksum(hrp', symbols)| == 6 && Polymod.Symbols(symbols + CreateChecksum(hrp', symbols))
    requires hrp + "1" + raw == hrp' + "1" + TextOf(symbols + CreateChecksum(hrp', symbols))
    ensures hrp == hrp' && SymbolsOf(raw).Some? && |raw| >= 6
  {
    hide LastIndexOf, SymbolsOf, TextOf, CreateChecksum;
    var all := symbols + CreateChecksum(hrp', symbols);
    TextIsPlain(all);
    SeparatorFound(hrp, raw);
    SeparatorFound(hrp', TextOf(all));
    assert (hrp + "1" + raw)[..|hrp|] == hrp && (hrp + "1" + raw)[|hrp| + 1..] == raw;
    assert (hrp' + "1" + TextOf(all))[..|hrp'|] == hrp' && (hrp' + "1" + TextOf(all))[|hrp'| + 1..] == TextOf(all);
    SymbolsOfText(all);
  }

  lemma BurstFailsChecksum(hrp: Ascii, b: seq<Byte>, u: seq<Byte>, v: seq<Byte>, a: seq<Byte>)
    requires |u| == |v| <= 6 && u != v && Polymod.Symbols(u) && Polymod.Symbols(v)
    requires VerifyChecksum(hrp, b + u + a)
    ensures !VerifyChecksum(hrp, b + v + a)
  {
    hide Polymod.Checksum, HrpExpand;
    var h := HrpExpand(hrp);
    assert h + (b + u + a) == (h + b) + u + a;
    assert h + (b + v + a) == (h + b) + v + a;
    Polymod.BurstDetection(h + b, u, v, a);
  }

  lemma {:induction false} SymbolsConcat(s: string, t: string)
    ensures SymbolsOf(s + t) == match (SymbolsOf(s), SymbolsOf(t))
                                case (Some(p), Some(q)) => Some(p + q)
                                case _ => None
  {
    hide CHARSET, IndexOf, ByteOf;
    if t == "" {
      assert s + t == s;
      assert SymbolsOf("") == Some([]);
      if SymbolsOf(s).Some? {
        assert SymbolsOf(s).value + [] == SymbolsOf(s).value;
      }
    } else {
      var init := t[..|t| - 1];
      SymbolsConcat(s, init);
      assert (s + t)[..|s + t| - 1] == s + init;
      if SymbolsOf(s).Some? && SymbolsOf(t).Some? {
        assert SymbolsOf(s + t).value == SymbolsOf(s).value + SymbolsOf(t).value;
      }
    }
  }
}
