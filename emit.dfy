/**
 * What the code generators share: Python's `f"{v}"` of a schema value,
 * Python's ordering of a value against an integer bound, the text of a
 * helper call `helper.fn(a, b)` together with its inverse, the tag-to-
 * generator dispatch table, and the range-checked `rand_int` call that
 * every integer generator emits.
 */
module Emit {
  import opened Results
  import opened Values
  import opened Text
  import Types
  import Const
  import DefaultValue

  /** The values whose `str()` the model spells out: everything but lists and dicts. */
  predicate Scalar(v: Value) {
    !v.VList? && !v.VDict?
  }

  /** Python's `f"{v}"` of a scalar: `None`, `True`/`False`, decimal digits, `inf`, or the text itself. */
  function Show(v: Value): (r: string)
    requires Scalar(v)
    ensures v.VInt? ==> ParseInt(r) == Ok(v.i)
    ensures v.VStr? ==> r == v.s
    ensures !v.VStr? ==> ',' !in r && |r| >= 1
  {
    match v
    case VNone => "None"
    case VBool(b) => if b then "True" else "False"
    case VInt(i) => ParseIntText(i); IntTextNoComma(i); IntText(i)
    case VInf(negative) => if negative then "-inf" else "inf"
    case VStr(s) => s
  }

  lemma IntTextNoComma(i: int)
    ensures ',' !in IntText(i)
  {
    var t := IntText(i);
    var d := NatText(if i < 0 then -i else i);
    assert forall k :: 0 <= k < |d| ==> d[k] != ',';
    if i < 0 {
      assert forall k :: 1 <= k < |t| ==> t[k] == d[k - 1];
    }
  }

  /** Python's `isinstance(v, int)`, which holds for a bool too. */
  predicate IsInt(v: Value) {
    v.VInt? || v.VBool?
  }

  function IntOf(v: Value): int
    requires IsInt(v)
  {
    if v.VInt? then v.i else if v.b then 1 else 0
  }

  /** The values Python orders against an `int`: ints, bools and float infinities. */
  predicate Numeric(v: Value) {
    IsInt(v) || v.VInf?
  }

  /** `v < bound`: TypeError for a value that has no order against an `int`. */
  function Below(v: Value, bound: int): (r: Result<bool>)
    ensures r.Ok? <==> Numeric(v)
    ensures r.Err? ==> r.error.TypeError?
  {
    if IsInt(v) then Ok(IntOf(v) < bound)
    else if v.VInf? then Ok(v.negative)
    else Err(TypeError("'<' not supported between instances"))
  }

  /** `v > bound`: TypeError for a value that has no order against an `int`. */
  function Above(v: Value, bound: int): (r: Result<bool>)
    ensures r.Ok? <==> Numeric(v)
    ensures r.Err? ==> r.error.TypeError?
  {
    if IsInt(v) then Ok(IntOf(v) > bound)
    else if v.VInf? then Ok(!v.negative)
    else Err(TypeError("'>' not supported between instances"))
  }

  /** `helper.fn(a, b, ...)`: the arguments joined by `", "` between parentheses. */
  function Call(helper: string, fn: string, args: seq<string>): string {
    helper + "." + fn + "(" + Join(", ", args) + ")"
  }

  /** Python's `s.split(", ")`, where `cur` is the piece being read when the scan reaches `s`. */
  function SplitArgsFrom(s: string, cur: string): (r: seq<string>)
    ensures |r| >= 1
    decreases |s|
  {
    if s == [] then [cur]
    else if |s| >= 2 && s[0] == ',' && s[1] == ' ' then [cur] + SplitArgsFrom(s[2..], [])
    else SplitArgsFrom(s[1..], cur + [s[0]])
  }

  function SplitArgs(s: string): seq<string> {
    SplitArgsFrom(s, [])
  }

  /** The argument list of a call to `head`, read back from its text; None when it is not such a call. */
  function CallArgs(call: string, head: string): Option<seq<string>> {
    if |call| >= |head| + 2 && call[..|head|] == head && call[|head|] == '(' && call[|call| - 1] == ')'
    then Some(SplitArgs(call[|head| + 1..|call| - 1]))
    else None
  }

  lemma {:induction false} SplitArgsSkip(piece: string, rest: string, cur: string)
    requires ',' !in piece
    ensures SplitArgsFrom(piece + rest, cur) == SplitArgsFrom(rest, cur + piece)
    decreases |piece|
  {
    if piece == [] {
      assert piece + rest == rest;
      assert cur + piece == cur;
    } else {
      assert (piece + rest)[1..] == piece[1..] + rest;
      SplitArgsSkip(piece[1..], rest, cur + [piece[0]]);
      assert cur + [piece[0]] + piece[1..] == cur + piece;
    }
  }

  /** Splitting a joined argument list gives back the arguments, when none of them holds a comma. */
  lemma {:induction false} SplitArgsJoin(args: seq<string>)
    requires |args| >= 1
    requires forall i :: 0 <= i < |args| ==> ',' !in args[i]
    ensures SplitArgs(Join(", ", args)) == args
  {
    if |args| == 1 {
      SplitArgsSkip(args[0], [], []);
      assert args[0] + [] == args[0];
      assert [] + args[0] == args[0];
    } else {
      var rest := Join(", ", args[1..]);
      assert Join(", ", args) == args[0] + (", " + rest);
      SplitArgsSkip(args[0], ", " + rest, []);
      assert (", " + rest)[2..] == rest;
      SplitArgsJoin(args[1..]);
      assert [] + args[0] == args[0];
    }
  }

  /** The arguments of an emitted call read back from its text. */
  lemma CallArgsCall(helper: string, fn: string, args: seq<string>)
    requires |args| >= 1
    requires forall i :: 0 <= i < |args| ==> ',' !in args[i]
    ensures CallArgs(Call(helper, fn, args), helper + "." + fn) == Some(args)
  {
    var head := helper + "." + fn;
    var call := Call(helper, fn, args);
    var body := Join(", ", args);
    assert call == head + "(" + body + ")";
    assert call[..|head|] == head;
    assert call[|head| + 1..|call| - 1] == body;
    SplitArgsJoin(args);
  }

  /** `CallArgsCall` for a call with one argument. */
  lemma CallArgsOne(helper: string, fn: string, a: string)
    requires ',' !in a
    ensures CallArgs(Call(helper, fn, [a]), helper + "." + fn) == Some([a])
  {
    var args := [a];
    assert forall i :: 0 <= i < |args| ==> args[i] == a;
    CallArgsCall(helper, fn, args);
  }

  /** `CallArgsCall` for a call with two arguments. */
  lemma CallArgsTwo(helper: string, fn: string, a: string, b: string)
    requires ',' !in a && ',' !in b
    ensures CallArgs(Call(helper, fn, [a, b]), helper + "." + fn) == Some([a, b])
  {
    var args := [a, b];
    assert forall i :: 0 <= i < |args| ==> args[i] == a || args[i] == b;
    CallArgsCall(helper, fn, args);
  }

  /** The generator a base-type tag dispatches to. */
  datatype GenKind = BytesGen | IntGen(tag: string) | FloatGen(tag: string) | StrGen | StrzGen

  /**
   * The 29-entry `TYPE_TO_FN_MAP` shared by every generator: `None` for raw
   * bytes, one integer or float generator per tag, `str` and `strz`. It
   * answers exactly for the base types.
   */
  function TypeToFn(key: Option<string>): (r: Option<GenKind>)
    ensures r.Some? <==> key in Types.BaseTypes
    ensures r.Some? && r.value.IntGen? ==> key == Some(r.value.tag) && r.value.tag in Types.IntTypes
    ensures r.Some? && r.value.FloatGen? ==> key == Some(r.value.tag) && r.value.tag in Types.FloatTypes
    ensures r == Some(BytesGen) <==> key == None
    ensures r == Some(StrGen) <==> key == Some("str")
    ensures r == Some(StrzGen) <==> key == Some("strz")
  {
    Types.BaseTypeMembership(key);
    if key.None? then Some(BytesGen)
    else if key.value in Types.IntTypes then Some(IntGen(key.value))
    else if key.value in Types.FloatTypes then Some(FloatGen(key.value))
    else if key.value == "str" then Some(StrGen)
    else if key.value == "strz" then Some(StrzGen)
    else None
  }

  /** The byte width written in an integer or float tag's name: the digit after the first letter. */
  function NameWidth(tag: string): (r: Option<Const.Width>)
    ensures tag in Types.IntTypes || tag in Types.FloatTypes ==> r.Some?
  {
    if |tag| < 2 || tag[0] !in "usf" then None
    else if tag[1] == '1' && tag[0] != 'f' then Some(Const.W1)
    else if tag[1] == '2' && tag[0] != 'f' then Some(Const.W2)
    else if tag[1] == '4' then Some(Const.W4)
    else if tag[1] == '8' then Some(Const.W8)
    else None
  }

  /** An integer value at or above `lo`, as Python's `not (v < lo)` sees it. */
  predicate NotBelow(v: Value, lo: int) {
    (IsInt(v) && IntOf(v) >= lo) || v == VInf(false)
  }

  /** An integer value at or below `hi`, as Python's `not (v > hi)` sees it. */
  predicate NotAbove(v: Value, hi: int) {
    (IsInt(v) && IntOf(v) <= hi) || v == VInf(true)
  }

  /**
   * The check and call of a range-checking integer generator with bounds
   * `[lo, hi]`: ValueError naming `name` when `start` is below `lo` or
   * `end` above `hi` (`end` is not looked at once `start` fails), TypeError
   * for a bound that has no order, otherwise `helper.rand_int(start, end)`.
   */
  function RangeCall(helper: string, name: string, lo: int, hi: int, start: Value, end: Value): (r: Result<string>)
    ensures r.Ok? <==> NotBelow(start, lo) && NotAbove(end, hi)
    ensures !Numeric(start) ==> r.Err? && r.error.TypeError?
    ensures Numeric(start) && !NotBelow(start, lo) ==> r == Err(ValueError("Provided value is out of " + name + " range"))
    ensures NotBelow(start, lo) && !Numeric(end) ==> r.Err? && r.error.TypeError?
    ensures NotBelow(start, lo) && Numeric(end) && !NotAbove(end, hi) ==> r == Err(ValueError("Provided value is out of " + name + " range"))
    ensures r.Ok? ==> r.value == Call(helper, "rand_int", [Show(start), Show(end)])
  {
    var below :- Below(start, lo);
    if below then Err(ValueError("Provided value is out of " + name + " range"))
    else
      var above :- Above(end, hi);
      if above then Err(ValueError("Provided value is out of " + name + " range"))
      else Ok(Call(helper, "rand_int", [Show(start), Show(end)]))
  }

  /** An accepted integer range reads back from the emitted call: its two arguments parse to the bounds. */
  lemma RangeCallArgs(helper: string, name: string, lo: int, hi: int, start: int, end: int)
    requires RangeCall(helper, name, lo, hi, VInt(start), VInt(end)).Ok?
    ensures lo <= start && end <= hi
    ensures var args := CallArgs(RangeCall(helper, name, lo, hi, VInt(start), VInt(end)).value, helper + ".rand_int");
            && args.Some? && |args.value| == 2
            && ParseInt(args.value[0]) == Ok(start)
            && ParseInt(args.value[1]) == Ok(end)
  {
    var a, b := Show(VInt(start)), Show(VInt(end));
    assert RangeCall(helper, name, lo, hi, VInt(start), VInt(end)).value == Call(helper, "rand_int", [a, b]);
    CallArgsTwo(helper, "rand_int", a, b);
  }

  /** The name in the error message of a tag's generator: the plain tag, without an endian suffix. */
  function PlainTag(tag: string): string {
    if |tag| >= 2 then tag[..2] else tag
  }

  /**
   * `gen_<tag>_fn(start, end)` of the range-checking generators: the range
   * check and call with the tag's `[MIN, MAX]` from const.py.
   */
  function RandIntCall(helper: string, tag: string, start: Value, end: Value): (r: Result<string>)
    requires tag in Types.IntTypes
    ensures DefaultValue.IntMinMax(tag).Ok?
    ensures var (lo, hi) := DefaultValue.IntMinMax(tag).value;
            r == RangeCall(helper, PlainTag(tag), lo, hi, start, end)
  {
    DefaultValue.SameTypeLists();
    var (lo, hi) := DefaultValue.IntMinMax(tag).value;
    RangeCall(helper, PlainTag(tag), lo, hi, start, end)
  }

  /** The `le`/`be` variants accept and emit exactly what the plain tag does. */
  lemma RandIntCallVariants(helper: string, signed: bool, w: Const.Width, tag: string, start: Value, end: Value)
    requires tag in DefaultValue.Tags(signed, w)
    ensures tag in Types.IntTypes
    ensures RandIntCall(helper, tag, start, end) == RandIntCall(helper, DefaultValue.Tags(signed, w)[0], start, end)
  {
    DefaultValue.SameTypeLists();
    DefaultValue.IntMinMaxBounds(signed, w, tag);
    DefaultValue.IntMinMaxBounds(signed, w, DefaultValue.Tags(signed, w)[0]);
    PlainTagOfCase(signed, w, tag);
  }

  lemma PlainTagOfCase(signed: bool, w: Const.Width, tag: string)
    requires tag in DefaultValue.Tags(signed, w)
    ensures PlainTag(tag) == PlainTag(DefaultValue.Tags(signed, w)[0])
  {
    var ts := DefaultValue.Tags(signed, w);
    var k :| 0 <= k < |ts| && ts[k] == tag;
    assert forall i :: 0 <= i < |ts| ==> ts[i][..2] == ts[0][..2];
  }

  /** `d[k]` on an attribute dict: KeyError when the key is missing. */
  function Index(d: Entry, k: string): (r: Result<Value>)
    ensures r.Ok? <==> k in d
    ensures r.Ok? ==> r.value == d[k]
    ensures r.Err? ==> r.error == KeyError(k)
  {
    if k in d then Ok(d[k]) else Err(KeyError(k))
  }

  /** `d.get(k)`: None for a missing key. */
  function GetOrNone(d: Entry, k: string): (r: Value)
    ensures k in d ==> r == d[k]
    ensures k !in d ==> r == VNone
  {
    if k in d then d[k] else VNone
  }

  /**
   * A `type` value as a key of the dispatch table: `None` and strings are
   * tags; any other value matches no tag (None here).
   */
  function TagKey(v: Value): Option<Option<string>> {
    if v.VNone? then Some(None) else if v.VStr? then Some(Some(v.s)) else None
  }

  /**
   * Looking a `type` value up in a dispatch table with `d[key]`: TypeError
   * for a list or dict, KeyError for anything that is not a base type.
   */
  function LookupGen(t: Value): (r: Result<GenKind>)
    ensures r.Ok? <==> TagKey(t).Some? && TagKey(t).value in Types.BaseTypes
    ensures r.Ok? ==> Some(r.value) == TypeToFn(TagKey(t).value)
    ensures !Hashable(t) ==> r.Err? && r.error.TypeError?
    ensures Hashable(t) && r.Err? ==> r.error.KeyError?
  {
    if !Hashable(t) then Err(TypeError("unhashable type"))
    else if TagKey(t).None? then Err(KeyError(""))
    else
      var g := TypeToFn(TagKey(t).value);
      if g.None? then Err(KeyError(TagKey(t).value.value)) else Ok(g.value)
  }

  /**
   * `TYPE_TO_FN_MAP.get(key)` on a hashable `type` value: the generator of a
   * base type, and nothing for any other value.
   */
  function KindOf(t: Value): (r: Option<GenKind>)
    ensures r.Some? <==> LookupGen(t).Ok?
    ensures r.Some? ==> r.value == LookupGen(t).value
  {
    if TagKey(t).Some? then TypeToFn(TagKey(t).value) else None
  }

  /**
   * Python's `int(v)`: an int or bool as it is, a str parsed as a decimal
   * literal, OverflowError for an infinity and TypeError for anything else.
   */
  function ToInt(v: Value): Result<int> {
    match v
    case VInt(i) => Ok(i)
    case VBool(b) => Ok(if b then 1 else 0)
    case VStr(s) => ParseInt(s)
    case VInf(_) => Err(OverflowError)
    case _ => Err(TypeError("int() argument must be a string, a bytes-like object or a real number"))
  }

  // ---------------------------------------------------------------------
  // The byte-level generators of src/backend/py3_generator.py and
  // generator.py, which share their text.

  /** The helper instance their calls go through. */
  const SelfKsHelper := "self.ks_helper"

  /** The generators the table holds: integer and float generators carry a listed tag. */
  predicate Listed(kind: GenKind) {
    (kind.IntGen? ==> kind.tag in Types.IntTypes) && (kind.FloatGen? ==> kind.tag in Types.FloatTypes)
  }

  /** The byte count of an integer or float tag, read from its name. */
  function TagBytes(tag: string): nat
    requires tag in Types.IntTypes || tag in Types.FloatTypes
  {
    Const.Bytes(NameWidth(tag).value)
  }

  /**
   * `gen_<tag>_fn(n_bytes=n)`: raw bytes and strings pass `n` on to
   * `rand_bytes` or `rand_utf8` (`strz` adds a NUL terminator argument),
   * and every integer and float tag draws as many raw bytes as its name
   * says, whatever `n` is.
   */
  function GenCall(kind: GenKind, n: Value): string
    requires Listed(kind) && Scalar(n)
  {
    match kind
    case BytesGen => Call(SelfKsHelper, "rand_bytes", [Show(n)])
    case IntGen(tag) => Call(SelfKsHelper, "rand_bytes", [IntText(TagBytes(tag))])
    case FloatGen(tag) => Call(SelfKsHelper, "rand_bytes", [IntText(TagBytes(tag))])
    case StrGen => Call(SelfKsHelper, "rand_utf8", [Show(n)])
    case StrzGen => Call(SelfKsHelper, "rand_utf8", [Show(n), "\"\\0\""])
  }

  /** The signedness and width case of an integer tag, which is also the width its name spells. */
  lemma IntTagCase(tag: string) returns (signed: bool, w: Const.Width)
    requires tag in Types.IntTypes
    ensures tag in DefaultValue.Tags(signed, w) && NameWidth(tag) == Some(w)
  {
    DefaultValue.IntTypesByCase();
    if tag in DefaultValue.Tags(false, Const.W1) {
      signed, w := false, Const.W1;
    } else if tag in DefaultValue.Tags(false, Const.W2) {
      signed, w := false, Const.W2;
    } else if tag in DefaultValue.Tags(false, Const.W4) {
      signed, w := false, Const.W4;
    } else if tag in DefaultValue.Tags(false, Const.W8) {
      signed, w := false, Const.W8;
    } else if tag in DefaultValue.Tags(true, Const.W1) {
      signed, w := true, Const.W1;
    } else if tag in DefaultValue.Tags(true, Const.W2) {
      signed, w := true, Const.W2;
    } else if tag in DefaultValue.Tags(true, Const.W4) {
      signed, w := true, Const.W4;
    } else {
      signed, w := true, Const.W8;
    }
  }

  /**
   * An integer generator draws exactly enough bytes for its tag: `k` random
   * bytes take `2^(8k)` values, the size of the tag's const.py range.
   */
  lemma IntDrawCoversRange(tag: string)
    requires tag in Types.IntTypes
    ensures DefaultValue.IntMinMax(tag).Ok?
    ensures var (lo, hi) := DefaultValue.IntMinMax(tag).value;
            hi - lo + 1 == Const.Pow2(8 * TagBytes(tag))
  {
    var signed, w := IntTagCase(tag);
    var k := Const.Bytes(w);
    DefaultValue.IntMinMaxPowers(signed, w, tag);
    Const.Pow2Add(8 * k - 1, 1);
  }

  /**
   * The argument of an integer or float generator's call reads back as the
   * tag's byte count.
   */
  lemma WidthCallArgs(kind: GenKind, n: Value)
    requires (kind.IntGen? && kind.tag in Types.IntTypes) || (kind.FloatGen? && kind.tag in Types.FloatTypes)
    requires Scalar(n)
    ensures var k := TagBytes(kind.tag);
            && CallArgs(GenCall(kind, n), SelfKsHelper + ".rand_bytes") == Some([IntText(k)])
            && ParseInt(IntText(k)) == Ok(k)
  {
    var k := TagBytes(kind.tag);
    assert GenCall(kind, n) == Call(SelfKsHelper, "rand_bytes", [IntText(k)]);
    RandBytesArgs(k);
  }

  lemma RandBytesArgs(k: nat)
    ensures CallArgs(Call(SelfKsHelper, "rand_bytes", [IntText(k)]), SelfKsHelper + ".rand_bytes") == Some([IntText(k)])
    ensures ParseInt(IntText(k)) == Ok(k)
  {
    ParseIntText(k);
    IntTextNoComma(k);
    CallArgsOne(SelfKsHelper, "rand_bytes", IntText(k));
  }

  /** A float tag draws 4 bytes for `f4`, `f4le`, `f4be` and 8 for the `f8` tags. */
  lemma FloatTagBytes(tag: string)
    requires tag in Types.FloatTypes
    ensures TagBytes(tag) == (if tag[1] == '4' then 4 else 8)
    ensures tag[1] == '4' || tag[1] == '8'
  {
  }
}
