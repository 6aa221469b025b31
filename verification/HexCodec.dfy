/** Lower-case hexadecimal (base 16 of RFC 4648, section 8, with lower-case digits only). */
module HexCodec {
  import opened Basics

  function NibbleToHex(nibble: bv8): bv8
    requires nibble < 16
  {
    if nibble <= 9 then 48 + nibble else 97 + (nibble - 10)
  }

  function HexValue(byte: bv8): Option<bv8> {
    if 48 <= byte <= 57 then Some(byte - 48)
    else if 97 <= byte <= 102 then Some(byte - 97 + 10)
    else None
  }

  function High(byte: bv8): (r: bv8)
    ensures r < 16
  {
    byte >> 4
  }

  function Low(byte: bv8): (r: bv8)
    ensures r < 16
  {
    byte & 15
  }

  function Join(high: bv8, low: bv8): bv8 {
    (high << 4) | low
  }

  /** The two digits of a byte. */
  function Digits(byte: bv8): (text: Bytes)
    ensures |text| == 2
  {
    [NibbleToHex(High(byte)), NibbleToHex(Low(byte))]
  }

  /** The byte two digits stand for. */
  function FromDigits(first: bv8, second: bv8): Option<bv8> {
    match (HexValue(first), HexValue(second))
    case (Some(high), Some(low)) => Some(Join(high, low))
    case _ => None
  }

  function Encode(bytes: Bytes): (text: Bytes)
    ensures |text| == 2 * |bytes|
  {
    if bytes == [] then [] else Encode(bytes[..|bytes| - 1]) + Digits(bytes[|bytes| - 1])
  }

  /** Pairs of digits, or nothing as soon as one is not a digit. */
  function DecodePairs(text: Bytes): Option<Bytes>
    requires |text| % 2 == 0
    decreases |text|
  {
    if text == [] then Some([])
    else
      var n := |text|;
      match DecodePairs(text[..n - 2])
      case None => None
      case Some(bytes) =>
        match FromDigits(text[n - 2], text[n - 1])
        case Some(byte) => Some(bytes + [byte])
        case None => None
  }

  function Decode(text: Bytes, length: nat): Option<Bytes> {
    if |text| != 2 * length then None else DecodePairs(text)
  }

  predicate IsLowerHexLen(text: Bytes, length: nat) {
    |text| == length && forall i :: 0 <= i < |text| ==> 48 <= text[i] <= 57 || 97 <= text[i] <= 102
  }

  method EncodeHex(bytes: Bytes) returns (text: Bytes)
    ensures text == Encode(bytes)
  {
    text := [];
    for i := 0 to |bytes|
      invariant text == Encode(bytes[..i])
    {
      assert bytes[..i + 1][..i] == bytes[..i];
      text := text + [NibbleToHex(High(bytes[i]))];
      text := text + [NibbleToHex(Low(bytes[i]))];
    }
    assert bytes[..|bytes|] == bytes;
  }

  lemma {:induction false} PairsStop(text: Bytes, i: nat)
    requires |text| % 2 == 0 && i % 2 == 0 && i <= |text| && DecodePairs(text[..i]) == None
    ensures DecodePairs(text) == None
    decreases |text|
  {
    if i < |text| {
      assert text[..|text| - 2][..i] == text[..i];
      PairsStop(text[..|text| - 2], i);
    } else {
      assert text[..i] == text;
    }
  }

  method DecodeHexArray(text: Bytes, length: nat) returns (r: Option<Bytes>)
    ensures r == Decode(text, length)
  {
    if |text| != 2 * length {
      return None;
    }
    var bytes := new bv8[length](_ => 0);
    for i := 0 to length
      invariant DecodePairs(text[..2 * i]) == Some(bytes[..i])
    {
      ghost var before := bytes[..i];
      assert text[..2 * i + 2] == text[..2 * i] + [text[2 * i], text[2 * i + 1]];
      PairsSnoc(text[..2 * i], text[2 * i], text[2 * i + 1]);
      var high, low := HexValue(text[2 * i]), HexValue(text[2 * i + 1]);
      if high.None? || low.None? {
        PairsStop(text, 2 * i + 2);
        return None;
      }
      bytes[i] := Join(high.value, low.value);
      assert bytes[..i + 1] == before + [Join(high.value, low.value)];
      assert text[..2 * (i + 1)] == text[..2 * i + 2];
    }
    assert text[..2 * length] == text && bytes[..length] == bytes[..];
    r := Some(bytes[..]);
  }

  // ----- the two directions -----

  lemma DigitRoundTrip(nibble: bv8)
    requires nibble < 16
    ensures HexValue(NibbleToHex(nibble)) == Some(nibble)
  {
  }

  lemma DigitIsItsValue(byte: bv8)
    requires HexValue(byte).Some?
    ensures HexValue(byte).value < 16 && NibbleToHex(HexValue(byte).value) == byte
  {
  }

  lemma SplitJoin(byte: bv8)
    ensures Join(High(byte), Low(byte)) == byte
  {
  }

  lemma JoinSplit(high: bv8, low: bv8)
    requires high < 16 && low < 16
    ensures High(Join(high, low)) == high && Low(Join(high, low)) == low
  {
  }

  lemma DigitsOfByte(byte: bv8)
    ensures FromDigits(Digits(byte)[0], Digits(byte)[1]) == Some(byte)
  {
    DigitRoundTrip(High(byte));
    DigitRoundTrip(Low(byte));
    SplitJoin(byte);
  }

  lemma ByteOfDigits(first: bv8, second: bv8)
    requires FromDigits(first, second).Some?
    ensures Digits(FromDigits(first, second).value) == [first, second]
  {
    DigitIsItsValue(first);
    DigitIsItsValue(second);
    JoinSplit(HexValue(first).value, HexValue(second).value);
  }

  lemma PairsSnoc(text: Bytes, first: bv8, second: bv8)
    requires |text| % 2 == 0
    ensures
      var done, byte := DecodePairs(text), FromDigits(first, second);
      DecodePairs(text + [first, second]) == if done.Some? && byte.Some? then Some(done.value + [byte.value]) else None
  {
    var all := text + [first, second];
    assert all[..|all| - 2] == text;
  }

  lemma EncodeSnoc(bytes: Bytes, byte: bv8)
    ensures Encode(bytes + [byte]) == Encode(bytes) + Digits(byte)
  {
    assert (bytes + [byte])[..|bytes|] == bytes;
  }

  /** Decoding what was encoded gives the bytes back. */
  lemma {:induction false} DecodeOfEncode(bytes: Bytes)
    ensures Decode(Encode(bytes), |bytes|) == Some(bytes)
    decreases |bytes|
  {
    if bytes != [] {
      var front, last := bytes[..|bytes| - 1], bytes[|bytes| - 1];
      DecodeOfEncode(front);
      DigitsOfByte(last);
      var d := Digits(last);
      PairsSnoc(Encode(front), d[0], d[1]);
      assert Encode(bytes) == Encode(front) + [d[0], d[1]];
      assert bytes == front + [last];
    }
  }

  /** Encoding what was decoded gives the text back, so every value has one spelling. */
  lemma {:induction false} EncodeOfDecode(text: Bytes)
    requires |text| % 2 == 0 && DecodePairs(text).Some?
    ensures Encode(DecodePairs(text).value) == text
    ensures 2 * |DecodePairs(text).value| == |text|
    decreases |text|
  {
    if text != [] {
      var front, first, second := text[..|text| - 2], text[|text| - 2], text[|text| - 1];
      assert text == front + [first, second];
      PairsSnoc(front, first, second);
      EncodeOfDecode(front);
      ByteOfDigits(first, second);
      EncodeSnoc(DecodePairs(front).value, FromDigits(first, second).value);
    }
  }

  /** Decoding succeeds exactly on lower-case hexadecimal text of the right length. */
  lemma {:induction false} DecodesExactly(text: Bytes, length: nat)
    ensures Decode(text, length).Some? <==> IsLowerHexLen(text, 2 * length)
    decreases length
  {
    if |text| == 2 * length && length > 0 {
      var front := text[..|text| - 2];
      DecodesExactly(front, length - 1);
      assert text == front + [text[|text| - 2], text[|text| - 1]];
      assert IsLowerHexLen(text, 2 * length) <==>
        IsLowerHexLen(front, 2 * length - 2) && HexValue(text[|text| - 2]).Some? && HexValue(text[|text| - 1]).Some?;
    }
  }
}
