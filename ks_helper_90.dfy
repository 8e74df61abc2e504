/**
 * The runtime helper pasted into programs by the class-based backend
 * (src/backend/py3/include/_90_ks_helper.py). It differs from `KsHelper`
 * in three ways: a negative size with a `max_n_bytes` bound draws the size
 * from `[min_n_bytes, max_n_bytes]`, a size of 0 is allowed, and the text
 * helpers return `str` and reserve exactly one byte for a terminator,
 * whatever the terminator's length.
 */
module KsHelper90 {
  import opened Results
  import opened Bytes
  import opened Codecs
  import Rng
  import KsHelper

  /** The size request the `rand_*` helpers refuse: a negative size whose `[min, max]` range is negative or empty. */
  predicate SizeRejected(n: int, minN: int, maxN: Option<int>) {
    n < 0 && (maxN.None? || maxN.value < 0 || minN < 0 || minN > maxN.value)
  }

  /** The sizes a request may resolve to: `n` itself, or a draw from `[min, max]` for a negative `n` with a maximum. */
  predicate SizeFits(size: int, n: int, minN: int, maxN: Option<int>) {
    if n >= 0 || maxN.None? then size == n else minN <= size <= maxN.value
  }

  /** A request that resolves to at least one byte, so a terminator always fits. */
  predicate SizePositive(n: int, minN: int, maxN: Option<int>) {
    if n >= 0 || maxN.None? then n >= 1 else minN >= 1
  }

  /**
   * The size prologue shared by `rand_bytes`, `rand_utf8` and `rand_ascii`:
   * a negative `n` with a maximum is replaced by a draw from `[min, max]`
   * (a negative bound raises ValueError, and so does an empty range, in
   * `randint`); a size still negative raises ValueError.
   */
  method ResolveSize(n: int, minN: int, maxN: Option<int>) returns (r: Result<nat>)
    ensures r.Err? <==> SizeRejected(n, minN, maxN)
    ensures r.Err? ==> r.error.ValueError?
    ensures r.Ok? ==> SizeFits(r.value, n, minN, maxN)
  {
    var size := n;
    if n < 0 && maxN.Some? {
      if maxN.value < 0 {
        return Err(ValueError("`max_n_bytes` cannot be less than 0."));
      }
      if minN < 0 {
        return Err(ValueError("`min_n_bytes` cannot be less than 0."));
      }
      var drawn := Rng.RandInt(minN, maxN.value);
      if drawn.Err? {
        return Err(drawn.error);
      }
      size := drawn.value;
    }
    if size < 0 {
      return Err(ValueError("Number of bytes cannot be less than 0."));
    }
    return Ok(size);
  }

  /** `rand_bytes(n_bytes, min_n_bytes, max_n_bytes)`: exactly as many bytes as the request resolves to, none for 0. */
  method RandBytes(n: int, minN: int, maxN: Option<int>) returns (r: Result<seq<byte>>)
    ensures r.Err? <==> SizeRejected(n, minN, maxN)
    ensures r.Ok? ==> SizeFits(|r.value|, n, minN, maxN)
  {
    var size :- ResolveSize(n, minN, maxN);
    var bs := KsHelper.ChunkedBytes(size);
    return Ok(bs);
  }

  /**
   * `rand_utf8(n_bytes, terminator, min_n_bytes, max_n_bytes)`. The
   * generated text encodes to the resolved size less one byte when there
   * is a terminator; the terminator's UTF-8 decoding is appended. So the
   * result's UTF-8 form is `size - 1 + |terminator|` bytes long and ends
   * with the terminator: longer than the size for a terminator of two or
   * more bytes. A size of 0 with a terminator, or a terminator that is not
   * UTF-8, raises ValueError.
   */
  method RandUtf8(n: int, terminator: Option<seq<byte>>, minN: int, maxN: Option<int>) returns (r: Result<string>)
    ensures SizeRejected(n, minN, maxN) ==> r.Err?
    ensures terminator.Some? && (n == 0 || Decode(terminator.value).Err?) ==> r.Err?
    ensures (!SizeRejected(n, minN, maxN) &&
             (terminator.None? || (SizePositive(n, minN, maxN) && Decode(terminator.value).Ok?))) ==> r.Ok?
    ensures r.Ok? && terminator.None? ==> SizeFits(|Encode(r.value)|, n, minN, maxN)
    ensures r.Ok? && terminator.Some? ==>
              var e := Encode(r.value);
              var t := terminator.value;
              && SizeFits(|e| - |t| + 1, n, minN, maxN)
              && |e| >= |t|
              && e[|e| - |t|..] == t
  {
    var size :- ResolveSize(n, minN, maxN);
    var remaining: int := size;
    if terminator.Some? {
      remaining := remaining - 1;
      if remaining < 0 {
        return Err(ValueError("Terminator cannot fit into the specified size."));
      }
    }
    var text := KsHelper.FillUtf8(remaining);
    if terminator.None? {
      return Ok(text);
    }
    var t := terminator.value;
    var tail := Decode(t);
    if tail.Err? {
      return Err(tail.error);
    }
    EncodeDecode(t);
    EncodeAppend(text, tail.value);
    return Ok(text + tail.value);
  }

  /**
   * `rand_ascii(n_bytes, terminator, min_n_bytes, max_n_bytes)`: the same
   * size accounting as `RandUtf8`, with characters drawn from 0..127; the
   * bytes are decoded as ASCII, so a terminator byte above 127 raises
   * ValueError.
   */
  method RandAscii(n: int, terminator: Option<seq<byte>>, minN: int, maxN: Option<int>) returns (r: Result<string>)
    ensures SizeRejected(n, minN, maxN) ==> r.Err?
    ensures terminator.Some? && (n == 0 || AsciiDecode(terminator.value).Err?) ==> r.Err?
    ensures (!SizeRejected(n, minN, maxN) &&
             (terminator.None? || (SizePositive(n, minN, maxN) && AsciiDecode(terminator.value).Ok?))) ==> r.Ok?
    ensures r.Ok? ==> forall i :: 0 <= i < |r.value| ==> r.value[i] as int < 128
    ensures r.Ok? && terminator.None? ==> SizeFits(|r.value|, n, minN, maxN)
    ensures r.Ok? && terminator.Some? ==>
              var t := terminator.value;
              && |r.value| >= |t|
              && SizeFits(|r.value| - |t| + 1, n, minN, maxN)
              && r.value[|r.value| - |t|..] == AsciiDecode(t).value
  {
    var size :- ResolveSize(n, minN, maxN);
    var remaining: int := size;
    if terminator.Some? {
      remaining := remaining - 1;
      if remaining < 0 {
        return Err(ValueError("Terminator cannot fit into the specified size."));
      }
    }
    var ret: seq<byte> := [];
    while remaining > 0
      invariant remaining >= 0
      invariant |ret| == size - (if terminator.Some? then 1 else 0) - remaining
      invariant forall i :: 0 <= i < |ret| ==> ret[i] < 128
      decreases remaining
    {
      var cp := Rng.RandInt(0, 127);
      var b := ToByte(cp.value);
      ret := ret + [b.value];
      remaining := remaining - 1;
    }
    var t := if terminator.Some? then terminator.value else [];
    var s := AsciiDecode(ret + t);
    AsciiDecodeAppend(ret, t);
    assert t == [] ==> ret + t == ret;
    return s;
  }

  /**
   * `rand_iso8859(n_bytes, encoding, terminator, min_n_bytes,
   * max_n_bytes)`: ValueError for `n <= 0` or an encoding name not
   * starting with "iso8859" (in any case). The size range is only read for
   * a negative `n`, which has already been refused, so `min_n_bytes` and
   * `max_n_bytes` have no effect. `n - 1` random bytes (`n` without a
   * terminator) and the terminator are decoded with `decode`, the codec
   * the name selects; its errors pass through.
   */
  method RandIso8859(n: int, encoding: string, terminator: Option<seq<byte>>, minN: int, maxN: Option<int>,
                     decode: seq<byte> -> Result<string>)
    returns (r: Result<string>)
    ensures n <= 0 || !KsHelper.IsIso8859Name(encoding) ==> r.Err? && r.error.ValueError?
    ensures r.Ok? ==> exists bs: seq<byte> :: IsoSource(bs, n, terminator) && decode(bs) == r
    ensures r.Err? && n > 0 && KsHelper.IsIso8859Name(encoding) ==>
              exists bs: seq<byte> :: IsoSource(bs, n, terminator) && decode(bs) == r
  {
    if n <= 0 {
      return Err(ValueError("Number of bytes must be at least 1."));
    }
    if !KsHelper.IsIso8859Name(encoding) {
      return Err(ValueError("Invalid ISO 8859 encoding type."));
    }
    var remaining := n;
    if terminator.Some? {
      remaining := remaining - 1;
    }
    var ret := RandBytes(remaining, minN, maxN);
    var t := if terminator.Some? then terminator.value else [];
    var all := ret.value + t;
    assert IsoSource(all, n, terminator);
    r := decode(all);
  }

  /** The bytes `rand_iso8859` decodes for size `n`: `n - 1` drawn bytes and the terminator, or `n` drawn bytes. */
  predicate IsoSource(bs: seq<byte>, n: int, terminator: Option<seq<byte>>) {
    if terminator.None? then |bs| == n
    else
      var t := terminator.value;
      n >= 1 && |bs| == n - 1 + |t| && bs[n - 1..] == t
  }

  /**
   * `rand_int(start, end)`: a value in `[start, end]`; an empty range raises
   * ValueError. The source's defaults are `start = -32767` and
   * `end = 32767`; here both bounds are always passed, as `RandIntDefault`
   * does for a call that leaves them out.
   */
  method RandInt(start: int, end: int) returns (r: Result<int>)
    ensures r.Ok? <==> start <= end
    ensures r.Ok? ==> start <= r.value <= end
  {
    r := Rng.RandInt(start, end);
  }

  /** `rand_int()` with both bounds left out: a value in `[-32767, 32767]`, never an error. */
  method RandIntDefault() returns (r: Result<int>)
    ensures r.Ok? && -32767 <= r.value <= 32767
  {
    r := RandInt(-32767, 32767);
  }

  /** `rand_choice(seq)`: an element of the sequence; an empty one raises IndexError. */
  method RandChoice<T>(s: seq<T>) returns (r: Result<T>)
    ensures r.Ok? <==> |s| > 0
    ensures r.Ok? ==> r.value in s
    ensures r.Err? ==> r.error == IndexError
  {
    r := Rng.Choice(s);
  }
}
