/**
 * `KsHelper` (src/backend/include/py3/ks_helper.py), the runtime helper
 * pasted into generated programs: length-exact random bytes and text, and
 * byte-string utilities. The random draws are those of the `Rng` module;
 * the helper's `rng` field is their only state, so the helpers are
 * methods of the module rather than of a class.
 */
module KsHelper {
  import opened Results
  import opened Bytes
  import opened Codecs
  import Rng
  import Text

  /** The largest code point drawn when `remaining` bytes are left: 0x7F, 0x7FF, 0xFFFF or 0x10FFFF. */
  function DrawBound(remaining: int): (r: int)
    requires remaining >= 1
    ensures 0x7F <= r <= MaxCodePoint
    ensures forall c: char :: c as int <= r ==> |EncodeChar(c)| <= remaining
  {
    if remaining == 1 then 0x7F
    else if remaining == 2 then 0x7FF
    else if remaining == 3 then 0xFFFF
    else MaxCodePoint
  }

  /**
   * One draw of the generation loop: a code point in `[0, DrawBound]`. The
   * source redraws when it hits a surrogate; the model draws among the
   * other code points directly. The character always fits in what is left.
   */
  method DrawChar(remaining: int) returns (c: char)
    requires remaining >= 1
    ensures c as int <= DrawBound(remaining)
    ensures 1 <= |EncodeChar(c)| <= remaining
  {
    var bound := DrawBound(remaining);
    var cp :| 0 <= cp <= bound && !IsSurrogate(cp);
    assert !IsSurrogate(cp);
    c := cp as char;
  }

  /**
   * The generation loop of `rand_utf8`: characters are drawn until the
   * remaining byte count reaches 0, each one taking its `_utf8_byte_size`
   * bytes. The count never goes negative, so the text encodes to exactly
   * `budget` bytes (and is empty when `budget <= 0`).
   */
  method FillUtf8(budget: int) returns (s: string)
    ensures budget <= 0 ==> s == []
    ensures budget > 0 ==> |Encode(s)| == budget
  {
    s := [];
    var remaining := budget;
    while remaining > 0
      invariant (budget <= 0 && s == []) || (0 <= remaining && |Encode(s)| == budget - remaining)
      decreases remaining
    {
      var c := DrawChar(remaining);
      var w := ByteSize(c as int);
      ByteSizeOfChar(c);
      EncodeAppend(s, [c]);
      assert Encode([c]) == EncodeChar(c) + Encode([]);
      s := s + [c];
      remaining := remaining - w.value;
    }
  }

  /**
   * `rand_bytes(n_bytes)`: ValueError for `n <= 0`; otherwise exactly `n`
   * bytes.
   */
  method RandBytes(n: int) returns (r: Result<seq<byte>>)
    ensures r.Err? <==> n <= 0
    ensures r.Ok? ==> |r.value| == n
  {
    if n <= 0 {
      return Err(ValueError("Number of bytes must be at least 1."));
    }
    var bs := ChunkedBytes(n);
    return Ok(bs);
  }

  /**
   * The loop of `rand_bytes`: chunks of at most 65536 bytes (the largest
   * count one `randbytes` call is given) until `n` bytes are drawn.
   */
  method ChunkedBytes(n: nat) returns (r: seq<byte>)
    ensures |r| == n
  {
    r := [];
    var remaining: int := n;
    while remaining > 0
      invariant |r| == if remaining > 0 then n - remaining else n
      decreases remaining
    {
      var chunk := Rng.RandBytes(if remaining > 65536 then 65536 else remaining);
      r := r + chunk.value;
      remaining := remaining - 65536;
    }
  }

  /**
   * `rand_utf8(n_bytes, terminator)`: ValueError for `n <= 0` or when the
   * terminator's UTF-8 form is longer than `n`; otherwise `n` bytes of
   * well-formed UTF-8 (no surrogates, nothing overlong) that end with the
   * terminator's encoding.
   */
  method RandUtf8(n: int, terminator: Option<string>) returns (r: Result<seq<byte>>)
    ensures r.Err? <==> n <= 0 || (terminator.Some? && |Encode(terminator.value)| > n)
    ensures r.Ok? ==> |r.value| == n && Decode(r.value).Ok?
    ensures r.Ok? && terminator.Some? ==>
              r.value[n - |Encode(terminator.value)|..] == Encode(terminator.value)
  {
    if n <= 0 {
      return Err(ValueError("Number of bytes must be at least 1."));
    }
    var remaining := n;
    if terminator.Some? {
      remaining := remaining - |Encode(terminator.value)|;
      if remaining < 0 {
        return Err(ValueError("Terminator cannot fit into specified number of bytes."));
      }
    }
    var text := FillUtf8(remaining);
    var term := if terminator.Some? then terminator.value else [];
    EncodeAppend(text, term);
    DecodeEncode(text + term);
    return Ok(Encode(text + term));
  }

  /**
   * `rand_ascii(n_bytes, terminator)`: ValueError for `n <= 0`, for a
   * terminator that is not ASCII, or one longer than `n`; otherwise `n`
   * bytes, all below 128, ending with the terminator.
   */
  method RandAscii(n: int, terminator: Option<string>) returns (r: Result<seq<byte>>)
    ensures r.Err? <==> n <= 0 || (terminator.Some? && (AsciiEncode(terminator.value).Err? || |terminator.value| > n))
    ensures r.Ok? ==> |r.value| == n && forall i :: 0 <= i < n ==> r.value[i] < 128
    ensures r.Ok? && terminator.Some? ==> r.value[n - |terminator.value|..] == AsciiEncode(terminator.value).value
  {
    if n <= 0 {
      return Err(ValueError("Number of bytes must be at least 1."));
    }
    var remaining := n;
    var term: seq<byte> := [];
    if terminator.Some? {
      var e := AsciiEncode(terminator.value);
      if e.Err? {
        return Err(e.error);
      }
      term := e.value;
      remaining := remaining - |term|;
      if remaining < 0 {
        return Err(ValueError("Terminator cannot fit into specified number of bytes."));
      }
    }
    var ret: seq<byte> := [];
    while remaining > 0
      invariant |ret| + remaining == n - |term|
      invariant forall i :: 0 <= i < |ret| ==> ret[i] < 128
      decreases remaining
    {
      var cp := Rng.RandInt(0, 127);
      ret := ret + [cp.value];
      remaining := remaining - 1;
    }
    return Ok(ret + term);
  }

  /** `encoding.lower().startswith("iso8859")`. */
  predicate IsIso8859Name(encoding: string) {
    var lower := Text.LowerText(encoding);
    |lower| >= 7 && lower[..7] == "iso8859"
  }

  /**
   * `rand_iso8859(n_bytes, encoding, terminator)`: ValueError for `n <= 0`
   * or an encoding name not starting with "iso8859"; the terminator is
   * encoded with `codec` (the codec the name selects), and its errors pass
   * through; a terminator longer than `n` raises ValueError, and so does
   * one exactly `n` bytes long, because `rand_bytes(0)` raises. Otherwise
   * the result is `n` bytes ending with the encoded terminator.
   */
  method RandIso8859(n: int, encoding: string, terminator: Option<string>, codec: string -> Result<seq<byte>>)
    returns (r: Result<seq<byte>>)
    ensures n <= 0 || !IsIso8859Name(encoding) ==> r.Err?
    ensures terminator.Some? && codec(terminator.value).Err? ==> r.Err?
    ensures terminator.Some? && codec(terminator.value).Ok? && |codec(terminator.value).value| >= n ==> r.Err?
    ensures terminator.None? && n > 0 && IsIso8859Name(encoding) ==> r.Ok?
    ensures (terminator.Some? && n > 0 && IsIso8859Name(encoding) && codec(terminator.value).Ok? &&
             |codec(terminator.value).value| < n) ==> r.Ok?
    ensures r.Ok? ==> |r.value| == n
    ensures r.Ok? && terminator.Some? ==>
              r.value[n - |codec(terminator.value).value|..] == codec(terminator.value).value
  {
    if n <= 0 {
      return Err(ValueError("Number of bytes must be at least 1."));
    }
    if !IsIso8859Name(encoding) {
      return Err(ValueError("Invalid ISO 8859 encoding type."));
    }
    var remaining := n;
    var term: seq<byte> := [];
    if terminator.Some? {
      var e := codec(terminator.value);
      if e.Err? {
        return Err(e.error);
      }
      term := e.value;
      remaining := remaining - |term|;
      if remaining < 0 {
        return Err(ValueError("Terminator cannot fit into specified number of bytes."));
      }
    }
    var ret := RandBytes(remaining);
    if ret.Err? {
      return ret;
    }
    return Ok(ret.value + term);
  }

  /**
   * `rand_int(start, end)`: a value in `[start, end]`; an empty range raises
   * ValueError. The source's defaults are `start = -32767` and
   * `end = 32767`; here both bounds are always passed, as `RandIntDefault`
   * does for a call that leaves them out.
   */
  method RandInt(start: int, end: int) returns (r: Result<int>)
    ensures r.Ok? <==> start <= end
    ensures r.Ok? ==> start <= r.value <= end
  {
    r := Rng.RandInt(start, end);
  }

  /** `rand_int()` with both bounds left out: a value in `[-32767, 32767]`, never an error. */
  method RandIntDefault() returns (r: Result<int>)
    ensures r.Ok? && -32767 <= r.value <= 32767
  {
    r := RandInt(-32767, 32767);
  }

  /** `bytes_to_uint(b, endian)`: the unsigned value of `b` in the given byte order. */
  function BytesToUint(b: seq<byte>, endian: string): (r: Result<int>)
    ensures r.Err? <==> endian != "big" && endian != "little"
    ensures r.Ok? ==> 0 <= r.value < Pow256(|b|)
  {
    FromBytes(b, endian, false)
  }

  /** `bytes_to_int(b, endian)`: the two's-complement value of `b` in the given byte order. */
  function BytesToInt(b: seq<byte>, endian: string): (r: Result<int>)
    ensures r.Err? <==> endian != "big" && endian != "little"
    ensures r.Ok? ==> -(Pow256(|b|) as int) <= 2 * r.value < Pow256(|b|)
  {
    FromBytes(b, endian, true)
  }

  /** The big-endian bytes of an unsigned value read back as that value; the signed reading agrees below the sign bit. */
  lemma BytesToUintBig(v: nat, len: nat)
    requires v < Pow256(len)
    ensures BytesToUint(BigBytes(v, len), "big") == Ok(v)
    ensures 2 * v < Pow256(len) ==> BytesToInt(BigBytes(v, len), "big") == Ok(v)
  {
    BigValueBytes(v, len);
  }

  /** `ff ff` is 65535 read little-endian unsigned and -1 read big-endian signed. */
  lemma BytesToIntExamples()
    ensures BytesToUint([255, 255], "little") == Ok(65535)
    ensures BytesToInt([255, 255], "big") == Ok(-1)
  {
    FromBytesExamples();
  }

  /**
   * `replace_bytes(b_new, b_original, start_loc)`: a negative start raises
   * ValueError; otherwise the bytes from the start are overwritten by
   * `new`, the data grows when `new` runs past its end, and a start at or
   * past the end appends.
   */
  function ReplaceBytes(repl: seq<byte>, orig: seq<byte>, start: int): (r: Result<seq<byte>>)
    ensures r.Err? <==> start < 0
    ensures r.Ok? && start >= |orig| ==> r.value == orig + repl
    ensures r.Ok? && start <= |orig| ==>
              && |r.value| == (if start + |repl| > |orig| then start + |repl| else |orig|)
              && r.value[..start] == orig[..start]
              && r.value[start..start + |repl|] == repl
              && (start + |repl| <= |orig| ==> r.value[start + |repl|..] == orig[start + |repl|..])
  {
    if start < 0 then Err(ValueError("Byte start location cannot be negative."))
    else Ok(Slice(orig, None, Some(start)) + repl + Slice(orig, Some(start + |repl|), None))
  }

  /**
   * What the loop of `inplace_replace_bytes` leaves in the bytearray once
   * it reaches `new`, writing at `pos`: a byte at a time while `pos` is
   * before the end (a negative `pos` counts from the end, as Python
   * indexing does, and raises IndexError below `-len`), then the rest of
   * `new` appended at once.
   */
  function InplaceFrom(repl: seq<byte>, d: seq<byte>, pos: int): (r: Result<seq<byte>>)
    decreases |repl|
  {
    if repl == [] then Ok(d)
    else if pos < |d| then
      var d' :- PySet(d, pos, repl[0]);
      InplaceFrom(repl[1..], d', pos + 1)
    else Ok(d + repl)
  }

  /** The whole effect of `inplace_replace_bytes`: nothing for an empty `new`, else the loop from the clamped start. */
  function Inplace(repl: seq<byte>, d: seq<byte>, start: int): (r: Result<seq<byte>>)
    ensures repl == [] ==> r == Ok(d)
  {
    if |repl| <= 0 then Ok(d) else InplaceFrom(repl, d, if start > |d| then |d| else start)
  }

  /** Writing the first byte of `repl` at `pos` leaves the same replacement to do for the rest. */
  lemma ReplaceStep(repl: seq<byte>, d: seq<byte>, pos: nat)
    requires repl != [] && pos < |d|
    ensures ReplaceBytes(repl[1..], d[pos := repl[0]], pos + 1) == ReplaceBytes(repl, d, pos)
  {
    var d' := d[pos := repl[0]];
    var tail := pos + |repl|;
    assert Slice(d', Some(tail), None) == Slice(d, Some(tail), None);
    assert Slice(d', None, Some(pos + 1)) == Slice(d, None, Some(pos)) + [repl[0]];
    assert (Slice(d, None, Some(pos)) + [repl[0]]) + repl[1..] == Slice(d, None, Some(pos)) + repl;
  }

  lemma {:induction false} InplaceFromReplaces(repl: seq<byte>, d: seq<byte>, pos: nat)
    requires pos <= |d|
    ensures InplaceFrom(repl, d, pos) == ReplaceBytes(repl, d, pos)
    decreases |repl|
  {
    if repl == [] {
      assert d[..pos] + repl + d[pos..] == d;
    } else if pos == |d| {
      assert d[..pos] == d;
    } else {
      assert PySet(d, pos, repl[0]) == Ok(d[pos := repl[0]]);
      InplaceFromReplaces(repl[1..], d[pos := repl[0]], pos + 1);
      ReplaceStep(repl, d, pos);
    }
  }

  /**
   * For a non-negative start, `inplace_replace_bytes` leaves exactly what
   * `replace_bytes` returns for the start clamped to the length.
   */
  lemma InplaceIsReplace(repl: seq<byte>, d: seq<byte>, start: int)
    requires start >= 0
    ensures Inplace(repl, d, start) == ReplaceBytes(repl, d, if start > |d| then |d| else start)
  {
    var s := if start > |d| then |d| else start;
    if repl != [] {
      InplaceFromReplaces(repl, d, s);
    } else {
      assert d[..s] + repl + d[s..] == d;
    }
  }

  /** A negative start is not rejected: the writes wrap around to the end, then continue from position 0. */
  lemma InplaceNegativeStart()
    ensures Inplace([1, 2, 3], [0, 0, 0, 0, 0], -2) == Ok([3, 0, 0, 1, 2])
  {
    var n: seq<byte> := [1, 2, 3];
    var d0: seq<byte> := [0, 0, 0, 0, 0];
    var d1 := d0[3 := 1];
    var d2 := d1[4 := 2];
    var d3 := d2[0 := 3];
    assert n[1..] == [2, 3] && n[1..][1..] == [3] && n[1..][1..][1..] == [];
    assert PySet(d0, -2, 1) == Ok(d1);
    assert PySet(d1, -1, 2) == Ok(d2);
    assert PySet(d2, 0, 3) == Ok(d3);
    assert d3 == [3, 0, 0, 1, 2];
  }

  /** A Python bytearray: a byte sequence updated in place. */
  class ByteArray {
    var bytes: seq<byte>

    constructor (b: seq<byte>)
      ensures bytes == b
    {
      bytes := b;
    }
  }

  /**
   * `inplace_replace_bytes(b_new, b_original, start_loc)`: the same
   * bytearray is updated and returned; its new contents are `Inplace(...)`.
   */
  method InplaceReplaceBytes(repl: seq<byte>, orig: ByteArray, start: int) returns (r: Result<ByteArray>)
    modifies orig
    ensures var e := Inplace(repl, old(orig.bytes), start);
            (r.Ok? <==> e.Ok?) && (r.Ok? ==> r.value == orig && orig.bytes == e.value)
    ensures r.Err? ==> r.error == IndexError
  {
    if |repl| <= 0 {
      return Ok(orig);
    }
    var pos := start;
    if pos > |orig.bytes| {
      pos := |orig.bytes|;
    }
    ghost var target := InplaceFrom(repl, orig.bytes, pos);
    var i := 0;
    while i < |repl|
      invariant 0 <= i <= |repl|
      invariant pos == (if start > |old(orig.bytes)| then |old(orig.bytes)| else start) + i
      invariant InplaceFrom(repl[i..], orig.bytes, pos) == target
      decreases |repl| - i
    {
      if pos < |orig.bytes| {
        var w := PySet(orig.bytes, pos, repl[i]);
        if w.Err? {
          return Err(IndexError);
        }
        assert repl[i..][1..] == repl[i + 1..];
        orig.bytes := w.value;
      } else {
        orig.bytes := orig.bytes + repl[i..];
        return Ok(orig);
      }
      pos := pos + 1;
      i := i + 1;
    }
    return Ok(orig);
  }

  /**
   * `extract_bytes(b, (start, end))`: -1 stands for "not given": both -1
   * is the whole of `b`, a start of -1 is the prefix up to `end`, and an
   * end of -1 is the prefix up to `start`.
   */
  function ExtractBytes(b: seq<byte>, startEnd: (int, int)): (r: seq<byte>)
    ensures startEnd == (-1, -1) ==> r == b
    ensures var (s, e) := startEnd; s != -1 && e != -1 && 0 <= s <= e <= |b| ==> r == b[s..e]
  {
    var (s, e) := startEnd;
    if s == -1 && e == -1 then Slice(b, None, None)
    else if s == -1 then Slice(b, None, Some(e))
    else if e == -1 then Slice(b, None, Some(s))
    else Slice(b, Some(s), Some(e))
  }

  /** An end of -1 makes the start act as an end: `(s, -1)` and `(-1, s)` extract the same prefix. */
  lemma ExtractEndMissing(b: seq<byte>, s: int)
    ensures ExtractBytes(b, (s, -1)) == ExtractBytes(b, (-1, s))
    ensures 0 <= s <= |b| ==> ExtractBytes(b, (s, -1)) == b[..s]
  {
  }

  /** Extracting the replaced range gives back the new bytes. */
  lemma ExtractReplaced(repl: seq<byte>, orig: seq<byte>, start: nat)
    requires start <= |orig| && repl != []
    ensures ExtractBytes(ReplaceBytes(repl, orig, start).value, (start, start + |repl|)) == repl
  {
  }
}
