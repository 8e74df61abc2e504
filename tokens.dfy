/**
 * Python's `str.split()` with no separator: the maximal runs of
 * non-whitespace characters, where whitespace is what `str.isspace`
 * accepts.
 */
module Tokens {

  /** The characters `str.isspace` accepts. */
  predicate IsSpace(c: char) {
    || c == ' ' || '\t' <= c <= '\r' || '\U{1c}' <= c <= '\U{1f}'
    || c == '\U{85}' || c == '\U{a0}' || c == '\U{1680}' || '\U{2000}' <= c <= '\U{200a}'
    || c == '\U{2028}' || c == '\U{2029}' || c == '\U{202f}' || c == '\U{205f}' || c == '\U{3000}'
  }

  predicate NoSpace(w: string) {
    forall i :: 0 <= i < |w| ==> !IsSpace(w[i])
  }

  /**
   * The tokens of `s`, scanned one character at a time; `cur` is the token
   * being read when the scan reaches `s`.
   */
  function SplitFrom(s: string, cur: string): seq<string>
    decreases |s|
  {
    if s == [] then (if cur == [] then [] else [cur])
    else if IsSpace(s[0]) then (if cur == [] then [] else [cur]) + SplitFrom(s[1..], [])
    else SplitFrom(s[1..], cur + [s[0]])
  }

  /** The tokens of `s`, in order. */
  function Split(s: string): seq<string> {
    SplitFrom(s, [])
  }

  lemma {:induction false} SplitFromTokens(s: string, cur: string)
    requires NoSpace(cur)
    ensures forall w :: w in SplitFrom(s, cur) ==> w != [] && NoSpace(w)
    decreases |s|
  {
    if s != [] {
      if IsSpace(s[0]) {
        SplitFromTokens(s[1..], []);
      } else {
        SplitFromTokens(s[1..], cur + [s[0]]);
      }
    }
  }

  /** Every token is nonempty and holds no whitespace. */
  lemma SplitTokens(s: string)
    ensures forall w :: w in Split(s) ==> w != [] && NoSpace(w)
  {
    SplitFromTokens(s, []);
  }

  function Concat(ws: seq<string>): string {
    if ws == [] then [] else ws[0] + Concat(ws[1..])
  }

  /** `s` with its whitespace removed. */
  function Printing(s: string): (r: string)
    ensures NoSpace(r)
  {
    if s == [] then [] else (if IsSpace(s[0]) then [] else [s[0]]) + Printing(s[1..])
  }

  /**
   * Splitting loses only whitespace: the tokens, put back together, are the
   * non-whitespace characters of `s` in order.
   */
  lemma SplitKeepsPrinting(s: string)
    ensures Concat(Split(s)) == Printing(s)
  {
    SplitFromKeepsPrinting(s, []);
  }

  lemma {:induction false} SplitFromKeepsPrinting(s: string, cur: string)
    ensures Concat(SplitFrom(s, cur)) == cur + Printing(s)
    decreases |s|
  {
    if s == [] {
      assert Concat([cur]) == cur + Concat([]);
    } else if IsSpace(s[0]) {
      SplitFromKeepsPrinting(s[1..], []);
      ConcatAppend(if cur == [] then [] else [cur], SplitFrom(s[1..], []));
      assert Concat([cur]) == cur + Concat([]);
    } else {
      SplitFromKeepsPrinting(s[1..], cur + [s[0]]);
    }
  }

  lemma {:induction false} ConcatAppend(a: seq<string>, b: seq<string>)
    ensures Concat(a + b) == Concat(a) + Concat(b)
  {
    if a == [] {
      assert a + b == b;
    } else {
      var ab := a + b;
      assert ab[0] == a[0] && ab[1..] == a[1..] + b;
      assert Concat(ab) == a[0] + Concat(a[1..] + b);
      ConcatAppend(a[1..], b);
      assert Concat(a) == a[0] + Concat(a[1..]);
    }
  }

  /** A string without whitespace, read on from a token in progress, completes that one token. */
  lemma {:induction false} SplitFromWord(s: string, cur: string)
    requires NoSpace(s) && cur + s != []
    ensures SplitFrom(s, cur) == [cur + s]
    decreases |s|
  {
    if s != [] {
      assert !IsSpace(s[0]);
      assert NoSpace(s[1..]);
      SplitFromWord(s[1..], cur + [s[0]]);
      assert cur + [s[0]] + s[1..] == cur + s;
    } else {
      assert cur + s == cur;
    }
  }

  /** A nonempty string without whitespace is one token. */
  lemma OneWord(s: string)
    requires s != [] && NoSpace(s)
    ensures Split(s) == [s]
  {
    SplitFromWord(s, []);
    assert [] + s == s;
  }

  /**
   * A string without whitespace around its operators, such as `len+1`, is
   * one token: no shorter name it starts with (`len`) is a token of it.
   */
  lemma NoShorterToken(s: string, p: string)
    requires s != [] && NoSpace(s) && |p| < |s|
    ensures p !in Split(s)
  {
    OneWord(s);
  }
}
