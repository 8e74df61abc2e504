/**
 * Python `bytes` as the generators and the runtime helpers use them:
 * slicing with Python's index rules, `int.from_bytes`/`int.to_bytes`, and
 * the text `repr(b)` (what an f-string shows for a bytes object).
 */
module Bytes {
  import opened Results
  import Text

  type byte = b: int | 0 <= b < 256

  /** 256 to the power `n`. */
  function Pow256(n: nat): (r: nat)
    ensures r >= 1
  {
    if n == 0 then 1 else 256 * Pow256(n - 1)
  }

  /** A slice bound after Python's rules: a negative bound counts from the end, then it is clamped to `[0, len]`. */
  function SliceBound(i: int, len: nat): (r: nat)
    ensures r <= len
    ensures 0 <= i <= len ==> r == i
  {
    if i < 0 then (if i + len < 0 then 0 else i + len) else if i > len then len else i
  }

  /** `b[start:end]`, where a `None` bound is the start or the end of `b`. */
  function Slice<X>(b: seq<X>, start: Option<int>, end: Option<int>): (r: seq<X>)
    ensures |r| <= |b|
  {
    var lo := if start.None? then 0 else SliceBound(start.value, |b|);
    var hi := if end.None? then |b| else SliceBound(end.value, |b|);
    if lo < hi then b[lo..hi] else []
  }

  /**
   * The position Python's `b[i]` refers to: a negative index counts from
   * the end; an index outside `[-len, len)` is None (IndexError).
   */
  function PyIndex(i: int, len: nat): (r: Option<nat>)
    ensures r.Some? <==> -(len as int) <= i < len
    ensures r.Some? ==> r.value < len && (0 <= i ==> r.value == i)
  {
    if i < -(len as int) || i >= len then None else if i < 0 then Some(i + len) else Some(i)
  }

  /** `b[i] = v` on a bytearray: IndexError outside `[-len, len)`. */
  function PySet(b: seq<byte>, i: int, v: byte): (r: Result<seq<byte>>)
    ensures r.Ok? <==> -|b| <= i < |b|
    ensures r.Ok? ==> |r.value| == |b|
    ensures r.Err? ==> r.error == IndexError
  {
    var k := PyIndex(i, |b|);
    if k.None? then Err(IndexError) else Ok(b[k.value := v])
  }

  /** The unsigned big-endian value of `bs`. */
  function BigValue(bs: seq<byte>): (r: nat)
    ensures r < Pow256(|bs|)
  {
    if bs == [] then 0 else 256 * BigValue(bs[..|bs| - 1]) + bs[|bs| - 1]
  }

  function Reverse<X>(s: seq<X>): (r: seq<X>)
    ensures |r| == |s|
    ensures forall i :: 0 <= i < |s| ==> r[i] == s[|s| - 1 - i]
  {
    if s == [] then [] else Reverse(s[1..]) + [s[0]]
  }

  /**
   * `int.from_bytes(bs, endian, signed=...)`: the byte order is "big" or
   * "little" (any other string raises ValueError); a signed value is read
   * in two's complement.
   */
  function FromBytes(bs: seq<byte>, endian: string, signed: bool): (r: Result<int>)
    ensures r.Err? <==> endian != "big" && endian != "little"
    ensures r.Ok? && !signed ==> 0 <= r.value < Pow256(|bs|)
    ensures r.Ok? && signed ==> -(Pow256(|bs|) as int) <= 2 * r.value < Pow256(|bs|)
  {
    if endian != "big" && endian != "little" then Err(ValueError("byteorder must be either 'little' or 'big'"))
    else
      var u := BigValue(if endian == "big" then bs else Reverse(bs));
      Ok(if signed && 2 * u >= Pow256(|bs|) then u - Pow256(|bs|) else u)
  }

  /** The `len` big-endian bytes of `v`, for `0 <= v < 256^len`. */
  function BigBytes(v: nat, len: nat): (r: seq<byte>)
    requires v < Pow256(len)
    ensures |r| == len
  {
    if len == 0 then [] else BigBytes(v / 256, len - 1) + [v % 256]
  }

  /** Reading the big-endian bytes of a value gives the value back. */
  lemma {:induction false} BigValueBytes(v: nat, len: nat)
    requires v < Pow256(len)
    ensures BigValue(BigBytes(v, len)) == v
  {
    if len > 0 {
      BigValueBytes(v / 256, len - 1);
      var r := BigBytes(v, len);
      assert r[..|r| - 1] == BigBytes(v / 256, len - 1);
    }
  }

  /** Writing the value of a byte string in as many bytes gives the byte string back. */
  lemma {:induction false} BigBytesValue(bs: seq<byte>)
    ensures BigBytes(BigValue(bs), |bs|) == bs
  {
    if bs != [] {
      var init := bs[..|bs| - 1];
      BigBytesValue(init);
      assert bs == init + [bs[|bs| - 1]];
    }
  }

  /**
   * `v.to_bytes(1)`: one unsigned byte; a negative value or one above 255
   * raises OverflowError.
   */
  function ToByte(v: int): (r: Result<byte>)
    ensures r.Ok? <==> 0 <= v < 256
    ensures r.Ok? ==> r.value == v
  {
    if 0 <= v < 256 then Ok(v) else Err(OverflowError)
  }

  /** Two bytes `ff ff` read little-endian unsigned are 65535, and big-endian signed are -1. */
  lemma FromBytesExamples()
    ensures FromBytes([255, 255], "little", false) == Ok(65535)
    ensures FromBytes([255, 255], "big", true) == Ok(-1)
  {
    var ff: seq<byte> := [255, 255];
    assert ff[..1] == [255];
    assert Reverse(ff) == ff;
  }

  const HexDigits: string := "0123456789abcdef"

  /** The two lower-case hexadecimal digits of a byte. */
  function Hex2(b: byte): (r: string)
    ensures |r| == 2 && r[0] in HexDigits && r[1] in HexDigits
  {
    [HexDigits[b / 16], HexDigits[b % 16]]
  }

  /** The value of a lower-case hexadecimal digit. */
  function HexValue(c: char): (r: Option<nat>)
    ensures r.Some? ==> r.value < 16 && HexDigits[r.value] == c
    ensures r.None? <==> c !in HexDigits
  {
    if '0' <= c <= '9' then Some(c as int - '0' as int)
    else if 'a' <= c <= 'f' then Some(c as int - 'a' as int + 10)
    else None
  }

  /** The quote `repr` uses: `"` when the bytes hold `'` but no `"`, and `'` otherwise. */
  function Quote(bs: seq<byte>): char {
    if 39 in bs && 34 !in bs then '"' else '\''
  }

  /**
   * How `repr` writes one byte inside quotes `q`: a backslash before the
   * quote and before `\`, `\t` `\n` `\r` for tab, line feed and carriage
   * return, `\xhh` for the other bytes below 0x20 or from 0x7f on, and the
   * character itself otherwise.
   */
  function EscapeByte(b: byte, q: char): (r: string)
    ensures 1 <= |r| <= 4
  {
    if b == q as int || b == 92 then ['\\', b as char]
    else if b == 9 then "\\t"
    else if b == 10 then "\\n"
    else if b == 13 then "\\r"
    else if b < 32 || b >= 127 then "\\x" + Hex2(b)
    else [b as char]
  }

  function Escape(bs: seq<byte>, q: char): string {
    if bs == [] then [] else EscapeByte(bs[0], q) + Escape(bs[1..], q)
  }

  /** `repr(bs)`, which is also `str(bs)` and `f"{bs}"`. */
  function Repr(bs: seq<byte>): (r: string)
    ensures |r| >= 3 && r[0] == 'b' && r[1] == r[|r| - 1] == Quote(bs)
  {
    var q := Quote(bs);
    ['b', q] + Escape(bs, q) + [q]
  }

  /**
   * The byte the text at the start of `s` denotes inside a bytes literal,
   * with the number of characters it takes: a plain character, `\t`,
   * `\n`, `\r`, `\xhh`, or a backslash before any other character.
   */
  function ReadEscape(s: string): (r: Option<(byte, nat)>)
    requires |s| >= 1
    ensures r.Some? ==> 1 <= r.value.1 <= |s|
  {
    if s[0] != '\\' then
      if s[0] as int < 256 then Some((s[0] as int, 1)) else None
    else if |s| < 2 then None
    else if s[1] == 't' then Some((9, 2))
    else if s[1] == 'n' then Some((10, 2))
    else if s[1] == 'r' then Some((13, 2))
    else if s[1] == 'x' then
      if |s| >= 4 && HexValue(s[2]).Some? && HexValue(s[3]).Some? then
        Some((16 * HexValue(s[2]).value + HexValue(s[3]).value, 4))
      else None
    else if s[1] as int < 256 then Some((s[1] as int, 2))
    else None
  }

  /** Reading back the inside of a bytes literal: the inverse of `Escape`. */
  function Unescape(s: string): Option<seq<byte>>
    decreases |s|
  {
    if s == [] then Some([])
    else
      var e :- ReadEscape(s);
      var rest :- Unescape(s[e.1..]);
      Some([e.0] + rest)
  }

  /** The bytes a literal `b'...'` or `b"..."` denotes. */
  function ParseRepr(s: string): Option<seq<byte>> {
    if |s| < 3 || s[0] != 'b' || s[1] != s[|s| - 1] || (s[1] != '\'' && s[1] != '"') then None
    else Unescape(s[2..|s| - 1])
  }

  lemma HexValueDigit(d: nat)
    requires d < 16
    ensures HexValue(HexDigits[d]) == Some(d)
  {
    assert HexDigits[d] as int == if d < 10 then 48 + d else 87 + d;
  }

  /** The escape of a byte is read back as that byte, whatever follows it. */
  lemma ReadEscapeByte(b: byte, q: char, rest: string)
    requires q == '\'' || q == '"'
    ensures ReadEscape(EscapeByte(b, q) + rest) == Some((b, |EscapeByte(b, q)|))
  {
    var e := EscapeByte(b, q);
    if b == q as int || b == 92 {
      assert e == ['\\', b as char];
    } else if b == 9 || b == 10 || b == 13 {
      assert e == ['\\', if b == 9 then 't' else if b == 10 then 'n' else 'r'];
    } else if b < 32 || b >= 127 {
      assert e == ['\\', 'x', HexDigits[b / 16], HexDigits[b % 16]];
      HexValueDigit(b / 16);
      HexValueDigit(b % 16);
    } else {
      assert e == [b as char];
    }
  }

  lemma {:induction false} UnescapeEscape(bs: seq<byte>, q: char)
    requires q == '\'' || q == '"'
    ensures Unescape(Escape(bs, q)) == Some(bs)
  {
    if bs != [] {
      var e := Escape(bs, q);
      var k := |EscapeByte(bs[0], q)|;
      ReadEscapeByte(bs[0], q, Escape(bs[1..], q));
      assert e[k..] == Escape(bs[1..], q);
      UnescapeEscape(bs[1..], q);
      assert [bs[0]] + bs[1..] == bs;
    }
  }

  /** `repr` is read back exactly: every bytes literal the model prints denotes the bytes it was printed from. */
  lemma ParseReprRepr(bs: seq<byte>)
    ensures ParseRepr(Repr(bs)) == Some(bs)
  {
    var r := Repr(bs);
    assert r[2..|r| - 1] == Escape(bs, Quote(bs));
    UnescapeEscape(bs, Quote(bs));
  }
}
