/**
 * The Python text primitives the code generators rely on: decimal
 * formatting of integers and its inverse `int(s)`, the ASCII part of
 * `str.upper`/`lower`/`title`, `str.strip`, `str.splitlines`, and string
 * repetition `s * n`.
 */
module Text {
  import opened Results
  import Tokens

  predicate IsDigit(c: char) {
    '0' <= c <= '9'
  }

  predicate AllDigits(s: string) {
    forall i :: 0 <= i < |s| ==> IsDigit(s[i])
  }

  function DigitChar(d: nat): (c: char)
    requires d < 10
    ensures IsDigit(c)
  {
    (48 + d) as char
  }

  function DigitValue(c: char): (d: nat)
    requires IsDigit(c)
    ensures d < 10 && DigitChar(d) == c
  {
    c as int - 48
  }

  /** `str(n)` for `n >= 0`: decimal digits without a leading zero. */
  function NatText(n: nat): (r: string)
    ensures |r| >= 1 && AllDigits(r)
    ensures r[0] == '0' ==> n == 0
  {
    if n < 10 then [DigitChar(n)] else NatText(n / 10) + [DigitChar(n % 10)]
  }

  /** The number a run of decimal digits denotes. */
  function DigitsValue(s: string): nat
    requires AllDigits(s)
  {
    if s == [] then 0 else 10 * DigitsValue(s[..|s| - 1]) + DigitValue(s[|s| - 1])
  }

  lemma {:induction false} NatTextValue(n: nat)
    ensures DigitsValue(NatText(n)) == n
  {
    if n >= 10 {
      NatTextValue(n / 10);
      var t := NatText(n);
      assert t[..|t| - 1] == NatText(n / 10);
    }
  }

  /** `str(i)` and `f"{i}"` for an integer. */
  function IntText(i: int): (r: string)
    ensures |r| >= 1 && (r[0] == '-' <==> i < 0)
  {
    if i < 0 then "-" + NatText(-i) else NatText(i)
  }

  /** The digits of `s` with every `_` left out. */
  function Ungrouped(s: string): string {
    if s == [] then [] else (if s[0] == '_' then [] else [s[0]]) + Ungrouped(s[1..])
  }

  /**
   * The body `int()` accepts after the sign: digits, with single
   * underscores allowed between two digits.
   */
  predicate DigitGroups(s: string) {
    && |s| >= 1 && IsDigit(s[0]) && IsDigit(s[|s| - 1])
    && (forall i :: 0 <= i < |s| ==> IsDigit(s[i]) || s[i] == '_')
    && (forall i :: 0 <= i < |s| - 1 ==> DigitAfterUnderscore(s, i))
  }

  predicate DigitAfterUnderscore(s: string, i: nat)
    requires i < |s| - 1
  {
    s[i] == '_' ==> IsDigit(s[i + 1])
  }

  lemma {:induction false} UngroupedDigits(s: string)
    requires forall i :: 0 <= i < |s| ==> IsDigit(s[i]) || s[i] == '_'
    ensures AllDigits(Ungrouped(s))
  {
    if s != [] {
      UngroupedDigits(s[1..]);
    }
  }

  lemma {:induction false} UngroupedPlain(s: string)
    requires AllDigits(s)
    ensures Ungrouped(s) == s
  {
    if s != [] {
      UngroupedPlain(s[1..]);
    }
  }

  /** `s` with the characters `str.isspace` accepts removed from both ends. */
  function Strip(s: string): (r: string)
    ensures |r| <= |s|
  {
    StripEnd(StripStart(s))
  }

  function StripStart(s: string): (r: string)
    ensures |r| <= |s|
  {
    if s != [] && Tokens.IsSpace(s[0]) then StripStart(s[1..]) else s
  }

  function StripEnd(s: string): (r: string)
    ensures |r| <= |s|
  {
    if s != [] && Tokens.IsSpace(s[|s| - 1]) then StripEnd(s[..|s| - 1]) else s
  }

  const BadLiteral: Error := ValueError("invalid literal for int() with base 10")

  /**
   * Python's `int(s)` for a str: surrounding whitespace, an optional sign,
   * and decimal digits grouped by single underscores; anything else raises
   * ValueError.
   */
  function ParseInt(s: string): (r: Result<int>)
    ensures r.Err? ==> r.error == BadLiteral
  {
    var sign := SplitSign(Strip(s));
    SignedValue(sign.0, sign.1)
  }

  /** The value of the text after the sign: digit groups, or ValueError. */
  function SignedValue(negative: bool, body: string): (r: Result<int>)
    ensures r.Err? ==> r.error == BadLiteral
  {
    if !DigitGroups(body) then Err(BadLiteral)
    else
      var n: int := GroupsValue(body);
      Ok(if negative then -n else n)
  }

  /** The number digit groups denote: the digits with the underscores left out. */
  function GroupsValue(body: string): nat
    requires DigitGroups(body)
  {
    UngroupedDigits(body);
    DigitsValue(Ungrouped(body))
  }

  /** A leading `-` or `+` taken off, and whether it was `-`. */
  function SplitSign(t: string): (bool, string) {
    if t != [] && t[0] == '-' then (true, t[1..])
    else if t != [] && t[0] == '+' then (false, t[1..])
    else (false, t)
  }

  /** `int(str(i)) == i`: the decimal text of every integer parses back to it. */
  lemma ParseIntText(i: int)
    ensures ParseInt(IntText(i)) == Ok(i)
  {
    var m: nat := if i < 0 then -i else i;
    NatTextValue(m);
    ParseSigned(i < 0, NatText(m), m);
    assert IntText(i) == (if i < 0 then "-" else "") + NatText(m);
  }

  /** An optional minus sign and a run of digits parse to the signed value of the digits. */
  lemma ParseSigned(negative: bool, digits: string, v: int)
    requires |digits| >= 1 && AllDigits(digits) && DigitsValue(digits) == v
    ensures ParseInt((if negative then "-" else "") + digits) == Ok(if negative then -v else v)
  {
    StripSigned(negative, digits);
    SplitSigned(negative, digits);
    GroupsOfDigits(digits);
    SignedDigits(negative, digits, v);
  }

  lemma StripSigned(negative: bool, digits: string)
    requires |digits| >= 1 && AllDigits(digits)
    ensures var t := (if negative then "-" else "") + digits; Strip(t) == t
  {
    var t := (if negative then "-" else "") + digits;
    assert t[|t| - 1] == digits[|digits| - 1];
    StripPlain(t);
  }

  lemma SplitSigned(negative: bool, digits: string)
    requires |digits| >= 1 && AllDigits(digits)
    ensures SplitSign((if negative then "-" else "") + digits) == (negative, digits)
  {
    var t := (if negative then "-" else "") + digits;
    if negative {
      assert t[1..] == digits;
    } else {
      assert t == digits && IsDigit(t[0]);
    }
  }

  lemma SignedDigits(negative: bool, digits: string, v: int)
    requires DigitGroups(digits) && GroupsValue(digits) == v
    ensures SignedValue(negative, digits) == Ok(if negative then -v else v)
  {
  }

  lemma GroupsOfDigits(digits: string)
    requires |digits| >= 1 && AllDigits(digits)
    ensures DigitGroups(digits) && GroupsValue(digits) == DigitsValue(digits)
  {
    DigitsAreGroups(digits);
    UngroupedPlain(digits);
  }

  lemma StripPlain(t: string)
    requires |t| >= 1 && (t[0] == '-' || IsDigit(t[0])) && IsDigit(t[|t| - 1])
    ensures Strip(t) == t
  {
    assert StripStart(t) == t;
  }

  lemma DigitsAreGroups(s: string)
    requires |s| >= 1 && AllDigits(s)
    ensures DigitGroups(s)
  {
  }

  /** Decimal texts are unambiguous: two integers with the same text are equal. */
  lemma IntTextInjective(i: int, j: int)
    requires IntText(i) == IntText(j)
    ensures i == j
  {
    ParseIntText(i);
    ParseIntText(j);
  }

  predicate IsUpper(c: char) {
    'A' <= c <= 'Z'
  }

  predicate IsLower(c: char) {
    'a' <= c <= 'z'
  }

  /** The letters the model treats as cased: the ASCII ones. */
  predicate IsAlpha(c: char) {
    IsUpper(c) || IsLower(c)
  }

  function Upper(c: char): (r: char)
    ensures !IsLower(r) && (IsAlpha(c) <==> IsAlpha(r))
    ensures !IsAlpha(c) ==> r == c
  {
    if IsLower(c) then (c as int - 32) as char else c
  }

  function Lower(c: char): (r: char)
    ensures !IsUpper(r) && (IsAlpha(c) <==> IsAlpha(r))
    ensures !IsAlpha(c) ==> r == c
  {
    if IsUpper(c) then (c as int + 32) as char else c
  }

  /** `str.lower()`: every letter in lower case, every other character kept. */
  function LowerText(s: string): (r: string)
    ensures |r| == |s|
    ensures forall i :: 0 <= i < |s| ==> r[i] == Lower(s[i])
  {
    if s == [] then [] else [Lower(s[0])] + LowerText(s[1..])
  }

  /** `str.upper()`: every letter in upper case, every other character kept. */
  function UpperText(s: string): (r: string)
    ensures |r| == |s|
    ensures forall i :: 0 <= i < |s| ==> r[i] == Upper(s[i])
  {
    if s == [] then [] else [Upper(s[0])] + UpperText(s[1..])
  }

  /**
   * `str.title()`: a letter is upper case when the character before it is
   * not a letter, and lower case otherwise; `cased` says whether the
   * character before `s` is a letter.
   */
  function TitleFrom(s: string, cased: bool): (r: string)
    ensures |r| == |s|
    ensures forall i :: 0 <= i < |s| ==> if IsAlpha(s[i]) then IsAlpha(r[i]) else r[i] == s[i]
  {
    if s == [] then []
    else
      var c := if !IsAlpha(s[0]) then s[0] else if cased then Lower(s[0]) else Upper(s[0]);
      [c] + TitleFrom(s[1..], IsAlpha(s[0]))
  }

  function Title(s: string): (r: string)
    ensures |r| == |s|
  {
    TitleFrom(s, false)
  }

  /** The line boundaries `str.splitlines` recognises (besides the pair CR LF). */
  predicate IsLineBreak(c: char) {
    || c == '\n' || c == '\r' || c == '\U{0b}' || c == '\U{0c}'
    || c == '\U{1c}' || c == '\U{1d}' || c == '\U{1e}' || c == '\U{85}'
    || c == '\U{2028}' || c == '\U{2029}'
  }

  predicate NoLineBreak(s: string) {
    forall i :: 0 <= i < |s| ==> !IsLineBreak(s[i])
  }

  /**
   * `str.splitlines()`: the text between line boundaries, where CR LF
   * counts as one boundary and a final boundary opens no empty line; `cur`
   * is the line being read when the scan reaches `s`.
   */
  function SplitLinesFrom(s: string, cur: string): seq<string>
    decreases |s|
  {
    if s == [] then (if cur == [] then [] else [cur])
    else if s[0] == '\r' && |s| >= 2 && s[1] == '\n' then [cur] + SplitLinesFrom(s[2..], [])
    else if IsLineBreak(s[0]) then [cur] + SplitLinesFrom(s[1..], [])
    else SplitLinesFrom(s[1..], cur + [s[0]])
  }

  function SplitLines(s: string): seq<string> {
    SplitLinesFrom(s, [])
  }

  /** The lines of `ls`, each followed by the boundary `eol`. */
  function Terminated(ls: seq<string>, eol: string): string {
    if ls == [] then [] else ls[0] + eol + Terminated(ls[1..], eol)
  }

  lemma {:induction false} SplitLinesSkip(line: string, rest: string, cur: string)
    requires NoLineBreak(line)
    ensures SplitLinesFrom(line + rest, cur) == SplitLinesFrom(rest, cur + line)
    decreases |line|
  {
    if line != [] {
      assert (line + rest)[0] == line[0] && !IsLineBreak(line[0]);
      assert (line + rest)[1..] == line[1..] + rest;
      SplitLinesSkip(line[1..], rest, cur + [line[0]]);
      assert line == [line[0]] + line[1..];
      assert cur + [line[0]] + line[1..] == cur + line;
    } else {
      assert line + rest == rest && cur + line == cur;
    }
  }

  /**
   * Splitting text whose lines end in LF, or in CR LF, gives back the lines:
   * both line endings split into the same lines.
   */
  lemma {:induction false} SplitLinesTerminated(ls: seq<string>, eol: string)
    requires eol == "\n" || eol == "\r\n"
    requires forall i :: 0 <= i < |ls| ==> NoLineBreak(ls[i])
    ensures SplitLines(Terminated(ls, eol)) == ls
  {
    if ls != [] {
      var rest := Terminated(ls[1..], eol);
      assert Terminated(ls, eol) == ls[0] + (eol + rest);
      SplitLinesSkip(ls[0], eol + rest, []);
      assert (eol + rest)[|eol|..] == rest;
      SplitLinesTerminated(ls[1..], eol);
      assert [] + ls[0] == ls[0];
    }
  }

  /**
   * Two lines joined by LF or by CR LF, the last without a boundary after
   * it, split back into the two lines.
   */
  lemma SplitTwoLines(a: string, b: string, eol: string)
    requires eol == "\n" || eol == "\r\n"
    requires NoLineBreak(a) && NoLineBreak(b) && b != []
    ensures SplitLines(a + eol + b) == [a, b]
  {
    assert a + eol + b == a + (eol + b);
    SplitLinesSkip(a, eol + b, []);
    assert (eol + b)[|eol|..] == b;
    SplitLinesSkip(b, [], []);
    assert b + [] == b && [] + a == a && [] + b == b;
  }

  /** Python's `s * n`: `n` copies of `s`, none when `n <= 0`. */
  function Repeat(s: string, n: int): (r: string)
    ensures |r| == if n <= 0 then 0 else |s| * n
    ensures |s| == 1 ==> forall i :: 0 <= i < |r| ==> r[i] == s[0]
    decreases if n <= 0 then 0 else n
  {
    if n <= 0 then [] else s + Repeat(s, n - 1)
  }

  /** `sep.join(parts)`. */
  function Join(sep: string, parts: seq<string>): string {
    if parts == [] then []
    else if |parts| == 1 then parts[0]
    else parts[0] + sep + Join(sep, parts[1..])
  }
}
