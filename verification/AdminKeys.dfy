/** The gateway's own Bech32 decoder, used for `npub` admin and owner keys: a second, independent
    implementation of what `NIP19.Decode` does. */
module AdminKeys {
  import opened Bytes
  import opened Regrouping
  import opened Text
  import opened Wrappers
  import Hex
  import NIP19
  import Polymod

  type Ascii = NIP19.Ascii

  predicate Printable(hrp: string) {
    forall i :: 0 <= i < |hrp| ==> 33 <= hrp[i] as int <= 126
  }

  method Bech32ChecksumOK(hrp: Ascii, data: seq<Byte>) returns (ok: bool)
    ensures ok <==> Printable(hrp) && NIP19.VerifyChecksum(hrp, data)
  {
    hide ByteOf, Polymod.Checksum;
    var values: seq<Byte> := [];
    var i := 0;
    while i < |hrp|
      invariant 0 <= i <= |hrp|
      invariant Printable(hrp[..i])
      invariant values == NIP19.HighBits(hrp[..i])
    {
      if hrp[i] as int < 33 || hrp[i] as int > 126 {
        return false;
      }
      assert hrp[..i + 1][..i] == hrp[..i];
      values := values + [NIP19.CharByte(hrp[i]) >> 5];
      i := i + 1;
    }
    assert hrp[..i] == hrp;
    values := values + [0];
    ghost var high := values;
    i := 0;
    while i < |hrp|
      invariant 0 <= i <= |hrp|
      invariant values == high + NIP19.LowBits(hrp[..i])
    {
      assert hrp[..i + 1][..i] == hrp[..i];
      values := values + [NIP19.CharByte(hrp[i]) & 31];
      i := i + 1;
    }
    assert hrp[..i] == hrp;
    values := values + data;
    var chk := Polymod.ComputePolymod(values);
    return chk == 1;
  }

  method DecodeBech32(value: Ascii) returns (hrp: string, data: seq<Byte>, ok: bool)
    ensures ok <==> NIP19.Checked(value).Ok? && Printable(NIP19.Checked(value).value.0)
    ensures ok ==> (hrp, data) == NIP19.Checked(value).value
  {
    hide NIP19.SymbolsOf, NIP19.VerifyChecksum, LastIndexOf, Lower, Printable;
    hrp, data, ok := "", [], false;
    if value != Lower(value) {
      return;
    }
    var last := LastIndexOf(value, '1');
    var separator: int := if last.Some? then last.value else -1;
    if separator < 1 || separator + 7 > |value| {
      return;
    }
    var prefix, rawData := value[..separator], value[separator + 1..];
    var values := SymbolsLoop(rawData);
    if values.None? {
      return;
    }
    var passed := Bech32ChecksumOK(prefix, values.value);
    if !passed {
      return;
    }
    hrp, data, ok := prefix, values.value[..|values.value| - 6], true;
  }

  /** The loop of `decodeBech32` that looks every character up. */
  method SymbolsLoop(rawData: string) returns (r: Option<seq<Byte>>)
    ensures r == NIP19.SymbolsOf(rawData)
  {
    hide ByteOf, NIP19.CHARSET, IndexOf;
    var values: seq<Byte> := [];
    assert NIP19.SymbolsOf("") == Some([]);
    var i := 0;
    while i < |rawData|
      invariant 0 <= i <= |rawData|
      invariant NIP19.SymbolsOf(rawData[..i]) == Some(values)
    {
      assert rawData[..i + 1][..i] == rawData[..i];
      var index := IndexOf(NIP19.CHARSET, rawData[i]);
      if index.None? {
        NIP19.SymbolsConcat(rawData[..i + 1], rawData[i + 1..]);
        assert rawData[..i + 1] + rawData[i + 1..] == rawData;
        return None;
      }
      NIP19.CharsetFacts();
      values := values + [ByteOf(index.value)];
      i := i + 1;
    }
    assert rawData[..i] == rawData;
    return Some(values);
  }

  /** Decoding and strict regrouping, as `decodeNpub` chains them.  It accepts exactly what the
      Swift decoder accepts among prefixes in the printable range 33..126 and returns the same
      prefix and bytes; outside that range it refuses everything. */
  method DecodeStrict(value: Ascii) returns (r: Option<NIP19.Payload>)
    ensures r == match NIP19.Decode(value)
                 case Ok((hrp, bytes)) => if Printable(hrp) then Some((hrp, bytes)) else None
                 case Err(_) => None
  {
    hide NIP19.Checked, Regroup;
    var hrp, data, ok := DecodeBech32(value);
    if !ok {
      return None;
    }
    var converted := ConvertBits(data, 5, 8, false);
    if converted.None? {
      return None;
    }
    return Some((hrp, converted.value));
  }

  function NpubHex(value: Ascii): Option<string> {
    match NIP19.Decode(value)
    case Ok((hrp, bytes)) =>
      if hrp == "npub" && |bytes| >= 32 then Some(Hex.Encode(bytes[..32])) else None
    case Err(_) => None
  }

  /** `decodeNpub`: longer payloads are cut to 32 bytes. */
  method DecodeNpub(value: Ascii) returns (r: Option<string>)
    ensures r == NpubHex(value)
  {
    hide NIP19.Decode, Hex.Encode;
    var decoded := DecodeStrict(value);
    if decoded.None? || decoded.value.0 != "npub" || |decoded.value.1| < 32 {
      return None;
    }
    return Some(Hex.Encode(decoded.value.1[..32]));
  }

  function NormalizePubkey(pubkey: Ascii): (r: string) {
    AsciiTrimLower(pubkey);
    var trimmed := Lower(Trim(pubkey));
    if HasPrefix(trimmed, "npub") then
      match NpubHex(trimmed)
      case Some(decoded) => decoded
      case None => trimmed
    else trimmed
  }

  lemma {:induction false} AsciiTrimLeft(s: Ascii)
    ensures NIP19.IsAscii(TrimLeft(s))
  {
    if s != "" && IsSpace(s[0]) {
      AsciiTrimLeft(s[1..]);
    }
  }

  lemma AsciiTrimLower(s: Ascii)
    ensures NIP19.IsAscii(Trim(s)) && NIP19.IsAscii(Lower(Trim(s)))
  {
    AsciiTrimLeft(s);
  }

  // ---------- Main results ----------

  /** The Go decoder inverts the Swift encoder: every exported public key comes back as its
      canonical hex, and as itself exactly when it was 64 lower-case hex digits. */
  lemma NpubRoundTrip(hex: string)
    requires NIP19.EncodeNpub(hex).Ok?
    ensures NpubHex(NIP19.EncodeNpub(hex).value) == Some(Hex.Encode(Hex.Decode(hex).value))
    ensures NpubHex(NIP19.EncodeNpub(hex).value) == Some(hex) <==> Hex.IsLowerHex(hex) && |hex| == 64
  {
    hide NIP19.Encode, NIP19.Decode, Hex.Decode, Hex.Encode;
    var bytes := Hex.Decode(hex).value;
    NIP19.LowerNsec();
    NIP19.DecodeInvertsEncode(NIP19.EncodeNpub(hex).value, "npub", bytes);
    assert bytes[..32] == bytes;
    Hex.EncodeShape(bytes);
    if Hex.IsLowerHex(hex) && |hex| == 64 {
      Hex.EncodeOfDecode(hex);
    }
  }

  /** The two decoders agree about an `npub` exactly when its payload is as long as a key: the
      Go decoder cuts longer ones and refuses shorter ones. */
  lemma DecodersAgreeOnNpub(value: Ascii)
    requires NIP19.Decode(value).Ok? && NIP19.Decode(value).value.0 == "npub"
    ensures NpubHex(value) == Some(Hex.Encode(NIP19.Decode(value).value.1))
       <==> |NIP19.Decode(value).value.1| == 32
  {
    hide NIP19.Decode, Hex.Encode;
    var bytes := NIP19.Decode(value).value.1;
    if |bytes| >= 32 {
      assert |bytes| == 32 ==> bytes[..32] == bytes;
      Hex.EncodeShape(bytes);
      Hex.EncodeShape(bytes[..32]);
    } else {
    }
  }

  /** What a configured or received key is normalized to: trimmed and in lower case, and if that
      is a valid npub of at least 32 bytes, the hex of its first 32. */
  lemma NormalizeMeans(pubkey: Ascii)
    ensures var t := Lower(Trim(pubkey));
            && NIP19.IsAscii(t)
            && (forall bytes :: NIP19.Decode(t) == Ok(("npub", bytes)) && |bytes| >= 32 ==>
                  NormalizePubkey(pubkey) == Hex.Encode(bytes[..32]))
            && ((forall bytes :: NIP19.Decode(t) == Ok(("npub", bytes)) ==> |bytes| < 32) ==> NormalizePubkey(pubkey) == t)
  {
    hide NIP19.Decode, NIP19.Encode, Hex.Encode, Lower, Trim, NIP19.IsAscii;
    AsciiTrimLower(pubkey);
    var t := Lower(Trim(pubkey));
    forall bytes | NIP19.Decode(t) == Ok(("npub", bytes))
      ensures HasPrefix(t, "npub")
    {
      NIP19.DecodeInvertsEncode(t, "npub", bytes);
      NIP19.PrefixFirst("npub", bytes);
      assert "npub" <= "npub" + "1" <= t;
    }
  }

  /** Normalizing twice is normalizing once. */
  lemma NormalizeIdempotent(pubkey: Ascii)
    ensures NIP19.IsAscii(NormalizePubkey(pubkey))
    ensures NormalizePubkey(NormalizePubkey(pubkey)) == NormalizePubkey(pubkey)
  {
    hide NIP19.Decode, Hex.Encode, Lower, Trim, IsSpace, TrimLeft, TrimRight;
    AsciiTrimLower(pubkey);
    var trimmed := Lower(Trim(pubkey));
    if HasPrefix(trimmed, "npub") && NpubHex(trimmed).Some? {
      var bytes := NIP19.Decode(trimmed).value.1[..32];
      var hex := Hex.Encode(bytes);
      Hex.EncodeShape(bytes);
      Hex.HexIsPlain(hex);
      HexIsAscii(hex);
      assert Hex.DigitValue(hex[0]).Some?;
    } else {
      LowerTrimPlain(pubkey);
    }
  }

  lemma HexIsAscii(s: string)
    requires Hex.IsLowerHex(s)
    ensures NIP19.IsAscii(s)
  {
    forall i | 0 <= i < |s| ensures s[i] as int < 128 {
      assert Hex.DigitValue(s[i]).Some?;
    }
  }

  lemma LowerTrimPlain(s: string)
    ensures Lower(Trim(Lower(Trim(s)))) == Lower(Trim(s))
  {
    hide Trim, IsSpace;
    var t := Trim(s);
    LowerLower(t);
    if t != "" {
      SpaceHasNoCase(t[0]);
      SpaceHasNoCase(t[|t| - 1]);
    }
    TrimTrimmed(Lower(t));
  }

  lemma SpaceHasNoCase(c: char)
    ensures IsSpace(LowerChar(c)) <==> IsSpace(c)
  {}
}
