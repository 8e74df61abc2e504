/**
 * The oldest runtime helper (include/py3/ks_helper.py): `rand_bytes` is a
 * bare `randbytes` call, and `rand_utf8` has no terminator and returns the
 * encoded text.
 */
module KsHelperLegacy {
  import opened Results
  import opened Bytes
  import opened Codecs
  import Rng
  import KsHelper

  /** `rand_bytes(n_bytes)`: exactly `n` bytes; a negative count raises ValueError and 0 gives no bytes. */
  method RandBytes(n: int) returns (r: Result<seq<byte>>)
    ensures r.Ok? <==> n >= 0
    ensures r.Ok? ==> |r.value| == n
  {
    r := Rng.RandBytes(n);
  }

  /**
   * `rand_utf8(n_bytes)`: the UTF-8 encoding of text drawn by the width
   * loop, so exactly `n` bytes of well-formed UTF-8 for `n >= 1` and no
   * bytes at all for `n <= 0`.
   */
  method RandUtf8(n: int) returns (r: seq<byte>)
    ensures n <= 0 ==> r == []
    ensures n > 0 ==> |r| == n
    ensures Decode(r).Ok? && Encode(Decode(r).value) == r
  {
    var text := KsHelper.FillUtf8(n);
    DecodeEncode(text);
    r := Encode(text);
  }
}
