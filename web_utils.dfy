/**
 * The nonce helpers of `HYPRWebUtils`: the hex encoding loop of `doSha256`
 * and the range arithmetic of `generateRandomPIN`. The SHA-256 digest and
 * the random draw come from outside as parameters.
 */
module HyprWebUtils {
  import opened JavaText

  /** A Java `byte`: a signed 8-bit value. */
  newtype Int8 = x: int | -128 <= x < 128

  /** What `MessageDigest.digest()` returns for SHA-256: 32 bytes. */
  type Digest = s: seq<Int8> | |s| == 32 witness seq(32, _ => 0 as Int8)

  /** `0xFF & b`: the byte's two's-complement bits read as an unsigned value. */
  function Unsigned(b: Int8): (v: nat)
    ensures v < 256
    ensures (v - b as int) % 256 == 0
  {
    if b < 0 then b as int + 256 else b as int
  }

  /** The byte whose bits read as `v`; the inverse of `Unsigned`. */
  function Signed(v: nat): (b: Int8)
    requires v < 256
    ensures Unsigned(b) == v
  {
    if v < 128 then v as Int8 else (v - 256) as Int8
  }

  predicate IsLowerHexDigit(c: char) {
    '0' <= c <= '9' || 'a' <= c <= 'f'
  }

  /** The value of a lowercase hex digit (0 for any other character). */
  function HexValue(c: char): nat {
    if '0' <= c <= '9' then c as int - '0' as int
    else if 'a' <= c <= 'f' then c as int - 'a' as int + 10
    else 0
  }

  /** The lowercase digit `Integer.toHexString` writes for a value below 16. */
  function HexDigit(d: nat): (c: char)
    requires d < 16
    ensures IsLowerHexDigit(c)
    ensures HexValue(c) == d
  {
    if d < 10 then ('0' as int + d) as char else ('a' as int + d - 10) as char
  }

  /** `Integer.toHexString` on a non-negative value: lowercase digits, most
      significant first, no leading zeros ("0" for zero). */
  function ToHexString(v: nat): string {
    if v < 16 then [HexDigit(v)] else ToHexString(v / 16) + [HexDigit(v % 16)]
  }

  /** What one pass of the loop appends for one digest byte: a '0' when
      `Integer.toHexString(0xFF & b)` has length one, then that text. */
  function ByteToHex(b: Int8): string {
    var hex := ToHexString(Unsigned(b));
    if |hex| == 1 then "0" + hex else hex
  }

  /** The text the loop of `doSha256` builds from a byte sequence. */
  function HexOf(bytes: seq<Int8>): string {
    if bytes == [] then "" else HexOf(bytes[..|bytes| - 1]) + ByteToHex(bytes[|bytes| - 1])
  }

  /** The leading '0' is added exactly for the values below 16. */
  lemma PaddedExactlyBelowSixteen(b: Int8)
    ensures |ToHexString(Unsigned(b))| == 1 <==> Unsigned(b) < 16
  {
    var v := Unsigned(b);
    if v >= 16 {
      assert ToHexString(v) == ToHexString(v / 16) + [HexDigit(v % 16)];
    }
  }

  /** Each byte becomes its high nibble then its low nibble. */
  lemma ByteToHexNibbles(b: Int8)
    ensures ByteToHex(b) == [HexDigit(Unsigned(b) / 16), HexDigit(Unsigned(b) % 16)]
  {
    var v := Unsigned(b);
    if v >= 16 {
      assert ToHexString(v / 16) == [HexDigit(v / 16)];
    }
  }

  lemma {:induction false} HexLength(bytes: seq<Int8>)
    ensures |HexOf(bytes)| == 2 * |bytes|
  {
    if bytes != [] {
      HexLength(bytes[..|bytes| - 1]);
      ByteToHexNibbles(bytes[|bytes| - 1]);
    }
  }

  /** Characters 2i and 2i+1 are the high and low nibble of byte i. */
  lemma {:induction false} HexAt(bytes: seq<Int8>, i: nat)
    requires i < |bytes|
    ensures |HexOf(bytes)| == 2 * |bytes|
    ensures HexOf(bytes)[2 * i] == HexDigit(Unsigned(bytes[i]) / 16)
    ensures HexOf(bytes)[2 * i + 1] == HexDigit(Unsigned(bytes[i]) % 16)
  {
    HexLength(bytes);
    var init := bytes[..|bytes| - 1];
    HexLength(init);
    ByteToHexNibbles(bytes[|bytes| - 1]);
    if i < |bytes| - 1 {
      HexAt(init, i);
    }
  }

  /** Every character of the encoding is a lowercase hex digit. */
  lemma HexIsLowercase(bytes: seq<Int8>)
    ensures forall k :: 0 <= k < |HexOf(bytes)| ==> IsLowerHexDigit(HexOf(bytes)[k])
  {
    HexLength(bytes);
    forall k | 0 <= k < |HexOf(bytes)|
      ensures IsLowerHexDigit(HexOf(bytes)[k])
    {
      HexAt(bytes, k / 2);
    }
  }

  /** Reads the text back two characters at a time. */
  function DecodeHex(s: string): seq<Int8> {
    if |s| < 2 then []
    else DecodeHex(s[..|s| - 2]) + [Signed(16 * HexValue(s[|s| - 2]) + HexValue(s[|s| - 1]))]
  }

  /** Decoding the character pairs gives back the digest bytes. */
  lemma {:induction false} DecodeHexOf(bytes: seq<Int8>)
    ensures DecodeHex(HexOf(bytes)) == bytes
  {
    if bytes != [] {
      var init, last := bytes[..|bytes| - 1], bytes[|bytes| - 1];
      var s, v := HexOf(bytes), Unsigned(last);
      var hi, lo := HexDigit(v / 16), HexDigit(v % 16);
      ByteToHexNibbles(last);
      HexLength(init);
      assert s == HexOf(init) + [hi, lo];
      assert s[..|s| - 2] == HexOf(init) && s[|s| - 2] == hi && s[|s| - 1] == lo;
      DecodeHexOf(init);
      assert 16 * HexValue(hi) + HexValue(lo) == v;
      SignedOfUnsigned(last);
      assert bytes == init + [last];
    }
  }

  /** `Signed` undoes `Unsigned`. */
  lemma SignedOfUnsigned(b: Int8)
    ensures Signed(Unsigned(b)) == b
  {
  }

  /** Different digests never share an encoding. */
  lemma HexInjective(a: seq<Int8>, b: seq<Int8>)
    ensures HexOf(a) == HexOf(b) ==> a == b
  {
    DecodeHexOf(a);
    DecodeHexOf(b);
  }

  /** `doSha256`: hash the text with the given SHA-256 and hex-encode the
      digest byte by byte. */
  method DoSha256(stringToHash: string, sha256: string -> Digest) returns (hexString: string)
    ensures hexString == HexOf(sha256(stringToHash))
    ensures |hexString| == 64
    ensures forall k :: 0 <= k < |hexString| ==> IsLowerHexDigit(hexString[k])
  {
    var bytes := sha256(stringToHash);
    hexString := "";
    for i := 0 to |bytes|
      invariant hexString == HexOf(bytes[..i])
    {
      var aByte := bytes[i];
      var hex := ToHexString(Unsigned(aByte));
      assert bytes[..i + 1][..i] == bytes[..i];
      if |hex| == 1 {
        hexString := hexString + "0";
      }
      hexString := hexString + hex;
    }
    assert bytes[..|bytes|] == bytes;
    HexLength(bytes);
    HexIsLowercase(bytes);
  }

  /** `generateRandomPIN`: `draw` is what `new Random().nextInt(900000)` returned. */
  function GenerateRandomPin(draw: int): (pin: int)
    requires 0 <= draw < 900000
    ensures 100000 <= pin <= 999999
  {
    100000 + draw
  }

  /** Every PIN is six decimal digits with no leading zero. */
  lemma PinIsSixDigits(draw: int)
    requires 0 <= draw < 900000
    ensures var text := IntToDecimal(GenerateRandomPin(draw));
            |text| == 6 && text[0] != '0'
            && forall i :: 0 <= i < 6 ==> IsDecimalDigit(text[i])
  {
    var pin := GenerateRandomPin(draw);
    assert Pow10(5) == 100000 by {
      assert Pow10(1) == 10;
      assert Pow10(2) == 100;
      assert Pow10(3) == 1000;
      assert Pow10(4) == 10000;
    }
    assert Pow10(6) == 1000000;
    DecimalLength(pin, 5);
    DecimalNoLeadingZero(pin);
  }

  /** Every six-digit PIN comes from exactly one draw, so the PIN is as
      uniform as the draw. */
  lemma PinCoversRange(pin: int)
    requires 100000 <= pin <= 999999
    ensures exists draw :: 0 <= draw < 900000 && GenerateRandomPin(draw) == pin
    ensures forall draw :: 0 <= draw < 900000 && GenerateRandomPin(draw) == pin ==> draw == pin - 100000
  {
    assert GenerateRandomPin(pin - 100000) == pin;
  }
}
