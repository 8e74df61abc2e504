/**
 * The two text codecs the runtime helpers use directly: UTF-8 as section 3
 * of RFC 3629 defines it (no surrogates, nothing above U+10FFFF, no
 * overlong forms) and 7-bit ASCII. A Dafny `char` is a Unicode scalar
 * value, so a string can never hold a surrogate.
 */
module Codecs {
  import opened Results
  import opened Bytes

  const MaxCodePoint: int := 0x10FFFF

  predicate IsSurrogate(cp: int) {
    0xD800 <= cp <= 0xDFFF
  }

  /**
   * `_utf8_byte_size(codepoint)`: the length of the UTF-8 form of a code
   * point, by the thresholds 0x7F, 0x7FF, 0xFFFF and 0x10FFFF; a value
   * outside [0, 0x10FFFF] raises ValueError.
   */
  function ByteSize(cp: int): (r: Result<nat>)
    ensures r.Err? <==> cp < 0 || cp > MaxCodePoint
    ensures r.Ok? ==> 1 <= r.value <= 4
    ensures r.Ok? ==> (r.value == 1 <==> cp <= 0x7F)
    ensures r.Ok? ==> (r.value <= 2 <==> cp <= 0x7FF)
    ensures r.Ok? ==> (r.value <= 3 <==> cp <= 0xFFFF)
  {
    if cp < 0 || cp > MaxCodePoint then Err(ValueError("UTF-8 codepoint out of range"))
    else if cp <= 0x7F then Ok(1)
    else if cp <= 0x7FF then Ok(2)
    else if cp <= 0xFFFF then Ok(3)
    else Ok(4)
  }

  predicate IsContinuation(b: byte) {
    0x80 <= b <= 0xBF
  }

  /** The six payload bits of a continuation byte. */
  function Low(b: byte): int {
    b as int - 0x80
  }

  /** The UTF-8 bytes of one character. */
  function EncodeChar(c: char): (r: seq<byte>)
    ensures 1 <= |r| <= 4
  {
    var cp := c as int;
    if cp < 0x80 then [cp]
    else if cp < 0x800 then [0xC0 + cp / 64, 0x80 + cp % 64]
    else if cp < 0x10000 then [0xE0 + cp / 4096, 0x80 + cp / 64 % 64, 0x80 + cp % 64]
    else [0xF0 + cp / 0x40000, 0x80 + cp / 4096 % 64, 0x80 + cp / 64 % 64, 0x80 + cp % 64]
  }

  /** The helpers' byte count of a character is the length of its UTF-8 form. */
  lemma ByteSizeOfChar(c: char)
    ensures ByteSize(c as int) == Ok(|EncodeChar(c)|)
  {
  }

  /** `s.encode("utf-8")`. */
  function Encode(s: string): (r: seq<byte>)
    ensures |r| >= |s|
  {
    if s == [] then [] else EncodeChar(s[0]) + Encode(s[1..])
  }

  lemma {:induction false} EncodeAppend(s: string, t: string)
    ensures Encode(s + t) == Encode(s) + Encode(t)
  {
    if s != [] {
      assert (s + t)[1..] == s[1..] + t;
      EncodeAppend(s[1..], t);
    } else {
      assert s + t == t;
    }
  }

  /**
   * The character the first bytes of `bs` encode, with the number of bytes
   * it takes, or None when they are not a well-formed UTF-8 sequence.
   */
  function DecodeChar(bs: seq<byte>): (r: Option<(char, nat)>)
    requires |bs| >= 1
    ensures r.Some? ==> 1 <= r.value.1 <= 4 && r.value.1 <= |bs|
  {
    var b0 := bs[0] as int;
    if b0 < 0x80 then Some((b0 as char, 1))
    else if 0xC2 <= b0 <= 0xDF then
      if |bs| >= 2 && IsContinuation(bs[1]) then
        Some((((b0 - 0xC0) * 64 + Low(bs[1])) as char, 2))
      else None
    else if 0xE0 <= b0 <= 0xEF then
      if |bs| >= 3 && IsContinuation(bs[1]) && IsContinuation(bs[2]) then
        var cp := (b0 - 0xE0) * 4096 + Low(bs[1]) * 64 + Low(bs[2]);
        if cp >= 0x800 && !IsSurrogate(cp) then Some((cp as char, 3)) else None
      else None
    else if 0xF0 <= b0 <= 0xF4 then
      if |bs| >= 4 && IsContinuation(bs[1]) && IsContinuation(bs[2]) && IsContinuation(bs[3]) then
        var cp := (b0 - 0xF0) * 0x40000 + Low(bs[1]) * 4096 + Low(bs[2]) * 64 + Low(bs[3]);
        if 0x10000 <= cp <= MaxCodePoint then Some((cp as char, 4)) else None
      else None
    else None
  }

  const BadUtf8: Error := ValueError("'utf-8' codec can't decode bytes")

  /** `bs.decode("utf-8")`: ValueError unless `bs` is well-formed UTF-8. */
  function Decode(bs: seq<byte>): (r: Result<string>)
    ensures r.Err? ==> r.error == BadUtf8
    decreases |bs|
  {
    if bs == [] then Ok([])
    else
      var d := DecodeChar(bs);
      if d.None? then Err(BadUtf8)
      else
        var rest :- Decode(bs[d.value.1..]);
        Ok([d.value.0] + rest)
  }

  lemma DecodeOne(c: char, rest: seq<byte>)
    requires c as int < 0x80
    ensures DecodeChar(EncodeChar(c) + rest) == Some((c, 1))
  {
  }

  lemma DecodeTwo(c: char, rest: seq<byte>)
    requires 0x80 <= c as int < 0x800
    ensures DecodeChar(EncodeChar(c) + rest) == Some((c, 2))
  {
    var cp := c as int;
    var e := EncodeChar(c) + rest;
    assert e[0] == 0xC0 + cp / 64 && e[1] == 0x80 + cp % 64;
    assert (e[0] as int - 0xC0) * 64 + Low(e[1]) == cp;
  }

  lemma DecodeThree(c: char, rest: seq<byte>)
    requires 0x800 <= c as int < 0x10000
    ensures DecodeChar(EncodeChar(c) + rest) == Some((c, 3))
  {
    var cp := c as int;
    var e := EncodeChar(c) + rest;
    assert e[0] == 0xE0 + cp / 4096 && e[1] == 0x80 + cp / 64 % 64 && e[2] == 0x80 + cp % 64;
    assert (e[0] as int - 0xE0) * 4096 + Low(e[1]) * 64 + Low(e[2]) == cp;
  }

  /** A code point of four UTF-8 bytes is the sum of its 3-, 6-, 6- and 6-bit parts. */
  lemma FourParts(cp: int)
    requires 0x10000 <= cp < 0x110000
    ensures cp / 0x40000 <= 4
    ensures (cp / 0x40000) * 0x40000 + (cp / 4096 % 64) * 4096 + (cp / 64 % 64) * 64 + cp % 64 == cp
  {
    var q := cp / 64;
    assert cp == q * 64 + cp % 64;
    assert q == (q / 64) * 64 + q % 64;
    assert q / 64 == cp / 4096;
    var p := cp / 4096;
    assert p == (p / 64) * 64 + p % 64;
    assert p / 64 == cp / 0x40000;
  }

  lemma DecodeFour(c: char, rest: seq<byte>)
    requires 0x10000 <= c as int
    ensures DecodeChar(EncodeChar(c) + rest) == Some((c, 4))
  {
    var cp := c as int;
    FourParts(cp);
    var a, b, d, f := cp / 0x40000, cp / 4096 % 64, cp / 64 % 64, cp % 64;
    var e := EncodeChar(c) + rest;
    assert e[0] as int == 0xF0 + a && e[1] as int == 0x80 + b && e[2] as int == 0x80 + d && e[3] as int == 0x80 + f;
    assert Low(e[1]) == b && Low(e[2]) == d && Low(e[3]) == f;
    assert (e[0] as int - 0xF0) * 0x40000 + Low(e[1]) * 4096 + Low(e[2]) * 64 + Low(e[3]) == cp;
  }

  /** The first character of an encoding is read back, and reading goes on right after it. */
  lemma DecodeCharEncode(c: char, rest: seq<byte>)
    ensures DecodeChar(EncodeChar(c) + rest) == Some((c, |EncodeChar(c)|))
  {
    if c as int < 0x80 {
      DecodeOne(c, rest);
    } else if c as int < 0x800 {
      DecodeTwo(c, rest);
    } else if c as int < 0x10000 {
      DecodeThree(c, rest);
    } else {
      DecodeFour(c, rest);
    }
  }

  /** Every encoded string is well-formed UTF-8 and decodes back to itself. */
  lemma {:induction false} DecodeEncode(s: string)
    ensures Decode(Encode(s)) == Ok(s)
  {
    if s != [] {
      var e := Encode(s);
      var k := |EncodeChar(s[0])|;
      DecodeCharEncode(s[0], Encode(s[1..]));
      assert e[k..] == Encode(s[1..]);
      DecodeEncode(s[1..]);
      assert [s[0]] + s[1..] == s;
    }
  }

  lemma EncodeTwo(bs: seq<byte>)
    requires |bs| >= 2 && 0xC2 <= bs[0] <= 0xDF && IsContinuation(bs[1])
    ensures var cp := (bs[0] as int - 0xC0) * 64 + Low(bs[1]);
            0x80 <= cp < 0x800 && EncodeChar(cp as char) == bs[..2]
  {
    var cp := (bs[0] as int - 0xC0) * 64 + Low(bs[1]);
    assert cp / 64 == bs[0] as int - 0xC0 && cp % 64 == Low(bs[1]);
  }

  lemma EncodeThree(bs: seq<byte>)
    requires |bs| >= 3 && 0xE0 <= bs[0] <= 0xEF && IsContinuation(bs[1]) && IsContinuation(bs[2])
    requires var cp := (bs[0] as int - 0xE0) * 4096 + Low(bs[1]) * 64 + Low(bs[2]);
             cp >= 0x800 && !IsSurrogate(cp)
    ensures var cp := (bs[0] as int - 0xE0) * 4096 + Low(bs[1]) * 64 + Low(bs[2]);
            0x800 <= cp < 0x10000 && EncodeChar(cp as char) == bs[..3]
  {
    var cp := (bs[0] as int - 0xE0) * 4096 + Low(bs[1]) * 64 + Low(bs[2]);
    assert cp / 4096 == bs[0] as int - 0xE0;
    assert cp / 64 == (bs[0] as int - 0xE0) * 64 + Low(bs[1]);
    assert cp / 64 % 64 == Low(bs[1]) && cp % 64 == Low(bs[2]);
  }

  lemma EncodeFour(bs: seq<byte>)
    requires |bs| >= 4 && 0xF0 <= bs[0] <= 0xF4
    requires IsContinuation(bs[1]) && IsContinuation(bs[2]) && IsContinuation(bs[3])
    requires var cp := (bs[0] as int - 0xF0) * 0x40000 + Low(bs[1]) * 4096 + Low(bs[2]) * 64 + Low(bs[3]);
             0x10000 <= cp <= MaxCodePoint
    ensures var cp := (bs[0] as int - 0xF0) * 0x40000 + Low(bs[1]) * 4096 + Low(bs[2]) * 64 + Low(bs[3]);
            EncodeChar(cp as char) == bs[..4]
  {
    var cp := (bs[0] as int - 0xF0) * 0x40000 + Low(bs[1]) * 4096 + Low(bs[2]) * 64 + Low(bs[3]);
    assert cp / 0x40000 == bs[0] as int - 0xF0;
    assert cp / 4096 == (bs[0] as int - 0xF0) * 64 + Low(bs[1]);
    assert cp / 64 == ((bs[0] as int - 0xF0) * 64 + Low(bs[1])) * 64 + Low(bs[2]);
    assert cp / 4096 % 64 == Low(bs[1]) && cp / 64 % 64 == Low(bs[2]) && cp % 64 == Low(bs[3]);
  }

  /** A well-formed character sequence is the encoding of the character read from it. */
  lemma EncodeDecodeChar(bs: seq<byte>)
    requires |bs| >= 1 && DecodeChar(bs).Some?
    ensures EncodeChar(DecodeChar(bs).value.0) == bs[..DecodeChar(bs).value.1]
  {
    if bs[0] < 0x80 {
    } else if bs[0] <= 0xDF {
      EncodeTwo(bs);
    } else if bs[0] <= 0xEF {
      EncodeThree(bs);
    } else {
      EncodeFour(bs);
    }
  }

  /** A successful decode reads one character, then decodes the rest. */
  lemma DecodeStep(bs: seq<byte>)
    requires bs != [] && Decode(bs).Ok?
    ensures DecodeChar(bs).Some?
    ensures var d := DecodeChar(bs).value;
            Decode(bs[d.1..]).Ok? && Decode(bs).value == [d.0] + Decode(bs[d.1..]).value
  {
  }

  /**
   * One step of reading back: when the bytes after the first character
   * are the encoding of their decoding, so are all the bytes.
   */
  lemma EncodeDecodeStep(bs: seq<byte>, k: nat)
    requires bs != [] && Decode(bs).Ok? && DecodeChar(bs).Some? && k == DecodeChar(bs).value.1
    requires Decode(bs[k..]).Ok? && Encode(Decode(bs[k..]).value) == bs[k..]
    ensures Encode(Decode(bs).value) == bs
  {
    var c := DecodeChar(bs).value.0;
    var rest := Decode(bs[k..]).value;
    DecodeStep(bs);
    EncodeDecodeChar(bs);
    EncodeGlue(bs, k, c, rest);
  }

  /** A character whose encoding starts the bytes, and text that encodes to the remainder, encode to all of them. */
  lemma EncodeGlue(bs: seq<byte>, k: nat, c: char, rest: string)
    requires k <= |bs| && EncodeChar(c) == bs[..k] && Encode(rest) == bs[k..]
    ensures Encode([c] + rest) == bs
  {
    assert ([c] + rest)[1..] == rest;
    assert bs == bs[..k] + bs[k..];
  }

  /** Decoding is exact: bytes that decode are the encoding of what they decode to. */
  lemma {:induction false} EncodeDecode(bs: seq<byte>)
    requires Decode(bs).Ok?
    ensures Encode(Decode(bs).value) == bs
    decreases |bs|
  {
    if bs != [] {
      var k := DecodeChar(bs).value.1;
      EncodeDecode(bs[k..]);
      EncodeDecodeStep(bs, k);
    }
  }

  /** `s.encode("ascii")`: one byte per character; a character above 127 raises ValueError. */
  function AsciiEncode(s: string): (r: Result<seq<byte>>)
    ensures r.Ok? <==> forall i :: 0 <= i < |s| ==> s[i] as int < 128
    ensures r.Ok? ==> |r.value| == |s| && forall i :: 0 <= i < |s| ==> r.value[i] == s[i] as int
  {
    if s == [] then Ok([])
    else if s[0] as int >= 128 then Err(ValueError("'ascii' codec can't encode character"))
    else
      var rest :- AsciiEncode(s[1..]);
      Ok([s[0] as int] + rest)
  }

  /** `bs.decode("ascii")`: one character per byte; a byte above 127 raises ValueError. */
  function AsciiDecode(bs: seq<byte>): (r: Result<string>)
    ensures r.Ok? <==> forall i :: 0 <= i < |bs| ==> bs[i] < 128
    ensures r.Ok? ==> |r.value| == |bs| && forall i :: 0 <= i < |bs| ==> r.value[i] as int == bs[i]
  {
    if bs == [] then Ok([])
    else if bs[0] >= 128 then Err(ValueError("'ascii' codec can't decode byte"))
    else
      var rest :- AsciiDecode(bs[1..]);
      Ok([bs[0] as char] + rest)
  }

  /** Decoding ASCII bytes and then more bytes fails exactly when the more bytes fail, and otherwise joins the two texts. */
  lemma AsciiDecodeAppend(a: seq<byte>, t: seq<byte>)
    requires AsciiDecode(a).Ok?
    ensures AsciiDecode(a + t).Ok? <==> AsciiDecode(t).Ok?
    ensures AsciiDecode(t).Ok? ==> AsciiDecode(a + t).value == AsciiDecode(a).value + AsciiDecode(t).value
  {
    var at := a + t;
    if AsciiDecode(t).Ok? {
      assert forall i :: 0 <= i < |at| ==> at[i] < 128 by {
        forall i | 0 <= i < |at|
          ensures at[i] < 128
        {
          if i >= |a| {
            assert at[i] == t[i - |a|];
          }
        }
      }
      var joined := AsciiDecode(a).value + AsciiDecode(t).value;
      assert forall i :: 0 <= i < |at| ==> AsciiDecode(at).value[i] as int == joined[i] as int;
    } else {
      var k :| 0 <= k < |t| && t[k] >= 128;
      assert at[|a| + k] == t[k];
    }
  }

  /** ASCII text is its own UTF-8 encoding. */
  lemma {:induction false} AsciiIsUtf8(s: string)
    requires AsciiEncode(s).Ok?
    ensures Encode(s) == AsciiEncode(s).value
  {
    if s != [] {
      AsciiIsUtf8(s[1..]);
    }
  }
}
