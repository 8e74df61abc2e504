/**
 * The draws the runtime helpers make from Python's `random.Random`. Only
 * the range of each draw is modelled: a draw is a nondeterministic choice
 * among the values the call can return, with the errors the call raises.
 */
module Rng {
  import opened Results
  import opened Bytes

  /** `rng.randint(a, b)`: a value in `[a, b]`; an empty range raises ValueError. */
  method RandInt(a: int, b: int) returns (r: Result<int>)
    ensures r.Ok? <==> a <= b
    ensures r.Ok? ==> a <= r.value <= b
    ensures r.Err? ==> r.error.ValueError?
  {
    if a > b {
      return Err(ValueError("empty range in randrange"));
    }
    var x :| a <= x <= b;
    return Ok(x);
  }

  /** `rng.randbytes(n)`: `n` arbitrary bytes; a negative count raises ValueError. */
  method RandBytes(n: int) returns (r: Result<seq<byte>>)
    ensures r.Ok? <==> n >= 0
    ensures r.Ok? ==> |r.value| == n
  {
    if n < 0 {
      return Err(ValueError("negative argument not allowed"));
    }
    var bs: seq<byte> := [];
    while |bs| < n
      invariant |bs| <= n
    {
      var b: byte :| true;
      bs := bs + [b];
    }
    return Ok(bs);
  }

  /** `rng.choice(s)`: an element of `s`; an empty sequence raises IndexError. */
  method Choice<T>(s: seq<T>) returns (r: Result<T>)
    ensures r.Ok? <==> |s| > 0
    ensures r.Ok? ==> r.value in s
    ensures r.Err? ==> r.error == IndexError
  {
    if |s| == 0 {
      return Err(IndexError);
    }
    var i :| 0 <= i < |s|;
    return Ok(s[i]);
  }
}
