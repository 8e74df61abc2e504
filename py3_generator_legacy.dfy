/**
 * The first Python 3 backend, at the top of the repository
 * (`py3_generator.py`). Its `TYPE_TO_FN_MAP` holds the 26 integer and float
 * tags only; `generate_fns` handles raw bytes, `str` and `strz` itself and
 * knows nothing of `contents`. It names functions and classes with the same
 * sanitiser as the class-based backend and lays out `generate()` the same
 * way, with a shorter continuation.
 */
module Py3GeneratorLegacy {
  import opened Results
  import opened Values
  import opened Text
  import opened Emit
  import Types
  import Const
  import DefaultValue
  import Sanitiser
  import Py3Generator

  /** `TYPE_TO_FN_MAP` as written: each fixed-width tag to the call that draws its bytes. */
  const Table: map<string, string> := map[
    "u1" := "self.ks_helper.rand_bytes(1)",
    "u2" := "self.ks_helper.rand_bytes(2)",
    "u2le" := "self.ks_helper.rand_bytes(2)",
    "u2be" := "self.ks_helper.rand_bytes(2)",
    "u4" := "self.ks_helper.rand_bytes(4)",
    "u4le" := "self.ks_helper.rand_bytes(4)",
    "u4be" := "self.ks_helper.rand_bytes(4)",
    "u8" := "self.ks_helper.rand_bytes(8)",
    "u8le" := "self.ks_helper.rand_bytes(8)",
    "u8be" := "self.ks_helper.rand_bytes(8)",
    "s1" := "self.ks_helper.rand_bytes(1)",
    "s2" := "self.ks_helper.rand_bytes(2)",
    "s2le" := "self.ks_helper.rand_bytes(2)",
    "s2be" := "self.ks_helper.rand_bytes(2)",
    "s4" := "self.ks_helper.rand_bytes(4)",
    "s4le" := "self.ks_helper.rand_bytes(4)",
    "s4be" := "self.ks_helper.rand_bytes(4)",
    "s8" := "self.ks_helper.rand_bytes(8)",
    "s8le" := "self.ks_helper.rand_bytes(8)",
    "s8be" := "self.ks_helper.rand_bytes(8)",
    "f4" := "self.ks_helper.rand_bytes(4)",
    "f4be" := "self.ks_helper.rand_bytes(4)",
    "f4le" := "self.ks_helper.rand_bytes(4)",
    "f8" := "self.ks_helper.rand_bytes(8)",
    "f8be" := "self.ks_helper.rand_bytes(8)",
    "f8le" := "self.ks_helper.rand_bytes(8)"]

  /**
   * The table holds exactly the integer and float tags, and each entry is
   * the call the shared generator table makes for that tag: `rand_bytes`
   * of the width written in the tag's name. `str` and `strz` are missing.
   */
  lemma TableIsFixedWidth(tag: string)
    ensures tag in Table <==> tag in Types.IntTypes || tag in Types.FloatTypes
    ensures tag in Table ==> Table[tag] == GenCall(TypeToFn(Some(tag)).value, VNone)
    ensures "str" !in Table && "strz" !in Table
  {
    TableKeys(tag);
    if tag in Types.IntTypes || tag in Types.FloatTypes {
      FixedGenCall(tag);
    }
    if tag in Types.IntTypes {
      TableInt(tag);
    } else if tag in Types.FloatTypes {
      TableFloat(tag);
    }
  }

  /** The shared table's call for a fixed-width tag: `rand_bytes` of the tag's width. */
  lemma FixedGenCall(tag: string)
    requires tag in Types.IntTypes || tag in Types.FloatTypes
    ensures GenCall(TypeToFn(Some(tag)).value, VNone) == Call(SelfKsHelper, "rand_bytes", [IntText(TagBytes(tag))])
  {
  }

  lemma TableInt(tag: string)
    requires tag in Types.IntTypes
    ensures Draws(tag, IntText(TagBytes(tag)))
  {
    var signed, w := IntTagCase(tag);
    TableCase(signed, w, tag);
  }

  lemma TableKeys(tag: string)
    ensures tag in Table <==> tag in Types.IntTypes || tag in Types.FloatTypes
  {
  }

  /** The table sends `tag` to `rand_bytes(k)`. */
  predicate Draws(tag: string, k: string) {
    tag in Table && Table[tag] == Call(SelfKsHelper, "rand_bytes", [k])
  }

  lemma TableCase(signed: bool, w: Const.Width, tag: string)
    requires tag in DefaultValue.Tags(signed, w)
    ensures Draws(tag, IntText(Const.Bytes(w)))
  {
    SmallTexts();
    match w
    case W1 => TableW1();
    case W2 => TableW2();
    case W4 => TableW4();
    case W8 => TableW8();
  }

  lemma TableFloat(tag: string)
    requires tag in Types.FloatTypes
    ensures Draws(tag, IntText(TagBytes(tag)))
  {
    FloatTagBytes(tag);
    SmallTexts();
    if tag[1] == '4' {
      TableW4();
    } else {
      TableW8();
    }
  }

  lemma TableW1()
    ensures Draws("u1", "1") && Draws("s1", "1")
  {
  }

  lemma TableW2()
    ensures Draws("u2", "2") && Draws("u2le", "2") && Draws("u2be", "2")
    ensures Draws("s2", "2") && Draws("s2le", "2") && Draws("s2be", "2")
  {
    CallOne("2");
  }

  lemma TableW4()
    ensures Draws("u4", "4") && Draws("u4le", "4") && Draws("u4be", "4")
    ensures Draws("s4", "4") && Draws("s4le", "4") && Draws("s4be", "4")
    ensures Draws("f4", "4") && Draws("f4le", "4") && Draws("f4be", "4")
  {
    CallOne("4");
  }

  lemma TableW8()
    ensures Draws("u8", "8") && Draws("u8le", "8") && Draws("u8be", "8")
    ensures Draws("s8", "8") && Draws("s8le", "8") && Draws("s8be", "8")
    ensures Draws("f8", "8") && Draws("f8le", "8") && Draws("f8be", "8")
  {
    CallOne("8");
  }

  lemma CallOne(k: string)
    ensures Call(SelfKsHelper, "rand_bytes", [k]) == "self.ks_helper.rand_bytes(" + k + ")"
  {
  }

  lemma SmallTexts()
    ensures IntText(1) == "1" && IntText(2) == "2" && IntText(4) == "4" && IntText(8) == "8"
  {
  }

  /**
   * `TYPE_TO_FN_MAP[data_type]` for a `type` that is not None, `str` or
   * `strz`: TypeError for a list or dict, KeyError for anything that is
   * not one of the table's tags.
   */
  function Lookup(t: Value): (r: Result<string>)
    ensures r.Ok? <==> t.VStr? && t.s in Table
    ensures r.Ok? ==> r.value == Table[t.s]
    ensures !Hashable(t) ==> r.Err? && r.error.TypeError?
    ensures Hashable(t) && r.Err? ==> r.error.KeyError?
  {
    if !Hashable(t) then Err(TypeError("unhashable type"))
    else if t.VStr? && t.s in Table then Ok(Table[t.s])
    else if t.VStr? then Err(KeyError(t.s))
    else Err(KeyError(""))
  }

  /** `sz`: `int(size)` for raw bytes and `str`, one less for `strz` (its NUL is written apart), none otherwise. */
  function SizeOf(entry: Entry, t: Value): (r: Result<Option<int>>)
    ensures r.Ok? ==> (r.value.Some? <==> Py3Generator.Sized(t))
    ensures !Py3Generator.Sized(t) ==> r == Ok(None)
    ensures Py3Generator.Sized(t) && "size" !in entry ==> r == Err(KeyError("size"))
    ensures Py3Generator.Sized(t) && "size" in entry ==>
              (r.Ok? <==> ToInt(entry["size"]).Ok?)
              && (r.Ok? ==> r.value.value == ToInt(entry["size"]).value - (if t == VStr("strz") then 1 else 0))
  {
    if Py3Generator.Sized(t) then
      var size :- Index(entry, "size");
      var n :- ToInt(size);
      Ok(Some(if t == VStr("strz") then n - 1 else n))
    else Ok(None)
  }

  /** The return statement of an attribute's function, given its tag and `sz`. */
  function ReturnLine(t: Value, sz: Option<int>): Result<string>
    requires sz.Some? <==> Py3Generator.Sized(t)
  {
    if t.VNone? then Ok(Returning(Call(SelfKsHelper, "rand_bytes", [IntText(sz.value)])))
    else if t == VStr("str") then Ok(Returning(Call(SelfKsHelper, "rand_utf8", [IntText(sz.value)])))
    else if t == VStr("strz") then Ok("        return " + Call(SelfKsHelper, "rand_utf8", [IntText(sz.value)]) + " + b'\\0'\n\n")
    else
      var call :- Lookup(t);
      Ok(Returning(call))
  }

  /** A function body that returns `call`, followed by the blank line between functions. */
  function Returning(call: string): string {
    "        return " + call + "\n\n"
  }

  /**
   * The function `generate_fns` writes for one attribute: `sz` first (so
   * a missing `size` is reported before a missing `id`), then the name
   * from `id`, then the return statement of its tag.
   */
  function FnText(entry: Entry): Result<string> {
    var t := GetOrNone(entry, "type");
    var sz :- SizeOf(entry, t);
    var fnName :- Py3Generator.NameOf(entry);
    var body :- ReturnLine(t, sz);
    Ok(Py3Generator.DefLine(fnName) + body)
  }

  /**
   * The outcome of one attribute: KeyError for a sized tag without `size`
   * whatever else is missing, KeyError for a missing `id` otherwise, and a
   * function exactly when the size converts, the `id` is a str and an
   * unsized tag is in the table.
   */
  lemma FnOutcome(entry: Entry)
    ensures var t := GetOrNone(entry, "type");
            && (Py3Generator.Sized(t) && "size" !in entry ==> FnText(entry) == Err(KeyError("size")))
            && (!Py3Generator.Sized(t) && "id" !in entry ==> FnText(entry) == Err(KeyError("id")))
            && (FnText(entry).Ok? <==>
                  && (Py3Generator.Sized(t) ==> "size" in entry && ToInt(entry["size"]).Ok?)
                  && "id" in entry && entry["id"].VStr?
                  && (!Py3Generator.Sized(t) ==> t.VStr? && t.s in Table))
  {
  }

  /**
   * Where both backends know the tag, they write the same function: with
   * no `contents` key and a tag other than `strz`, the function here
   * exists exactly when the class-based backend's does, and is the same
   * text.
   */
  lemma AgreesWithClassBackend(entry: Entry)
    requires "contents" !in entry && GetOrNone(entry, "type") != VStr("strz")
    ensures FnText(entry).Ok? <==> Py3Generator.AttributeText(entry).Ok?
    ensures FnText(entry).Ok? ==> FnText(entry).value == Py3Generator.AttributeText(entry).value
  {
    var t := GetOrNone(entry, "type");
    FnOutcome(entry);
    Py3Generator.AttributeOutcome(entry);
    if Py3Generator.Sized(t) {
      SizedAgreesOn(entry, t);
    } else {
      UnsizedAgreesOn(entry, t);
    }
  }

  lemma SizedAgreesOn(entry: Entry, t: Value)
    requires "contents" !in entry && GetOrNone(entry, "type") == t && (t.VNone? || t == VStr("str"))
    ensures FnText(entry).Ok? <==> Py3Generator.AttributeText(entry).Ok?
    ensures FnText(entry).Ok? ==> FnText(entry).value == Py3Generator.AttributeText(entry).value
  {
    var sz := SizeOf(entry, t);
    var name := Py3Generator.NameOf(entry);
    if sz.Err? {
      assert Py3Generator.SizeArg(entry, t).Err?;
    } else if name.Ok? {
      var n := sz.value.value;
      assert Py3Generator.SizeArg(entry, t) == Ok(VInt(n));
      SizedAgrees(t, n);
      FnTextOf(entry, t, Some(n), name.value);
      ClassTextOf(entry, t, VInt(n), name.value);
    }
  }

  lemma UnsizedAgreesOn(entry: Entry, t: Value)
    requires "contents" !in entry && GetOrNone(entry, "type") == t && !Py3Generator.Sized(t)
    ensures FnText(entry).Ok? <==> Py3Generator.AttributeText(entry).Ok?
    ensures FnText(entry).Ok? ==> FnText(entry).value == Py3Generator.AttributeText(entry).value
  {
    LookupAgrees(t);
    var name := Py3Generator.NameOf(entry);
    assert SizeOf(entry, t) == Ok(None);
    assert Py3Generator.SizeArg(entry, t) == Ok(VNone);
    if name.Ok? && Lookup(t).Ok? {
      FnTextOf(entry, t, None, name.value);
      ClassTextOf(entry, t, VNone, name.value);
    }
  }

  /** The pieces of the class-based backend's function for an attribute without `contents`, put together. */
  lemma ClassTextOf(entry: Entry, t: Value, sz: Value, name: string)
    requires "contents" !in entry && GetOrNone(entry, "type") == t && Py3Generator.SizeArg(entry, t) == Ok(sz)
    requires Py3Generator.NameOf(entry) == Ok(name) && LookupGen(t).Ok?
    ensures Scalar(sz)
    ensures Py3Generator.AttributeText(entry) == Ok(Py3Generator.DefLine(name) + Returning(GenCall(LookupGen(t).value, sz)))
  {
    AppendAssoc(Py3Generator.DefLine(name), "        return ", GenCall(LookupGen(t).value, sz), "\n\n");
  }

  lemma AppendAssoc(a: string, b: string, c: string, d: string)
    ensures a + b + c + d == a + (b + c + d)
  {
  }

  /** Off the sized tags, this table answers exactly where the shared one does, with the same call. */
  lemma LookupAgrees(t: Value)
    requires !Py3Generator.Sized(t)
    ensures Lookup(t).Ok? <==> LookupGen(t).Ok?
    ensures Lookup(t).Ok? ==> Lookup(t).value == GenCall(LookupGen(t).value, VNone)
  {
    TableIsFixedWidth(if t.VStr? then t.s else "");
    if t.VStr? {
      Types.BaseTypeMembership(Some(t.s));
    }
  }

  /** Raw bytes and `str`: the same call as the shared generator's, for the same size. */
  lemma SizedAgrees(t: Value, n: int)
    requires t.VNone? || t == VStr("str")
    ensures LookupGen(t).Ok? && ReturnLine(t, Some(n)).Ok?
    ensures ReturnLine(t, Some(n)).value == Returning(GenCall(LookupGen(t).value, VInt(n)))
  {
    Types.BaseTypeMembership(if t.VNone? then None else Some("str"));
    assert Show(VInt(n)) == IntText(n);
  }

  /** The pieces of an attribute's function, put together. */
  lemma FnTextOf(entry: Entry, t: Value, sz: Option<int>, name: string)
    requires GetOrNone(entry, "type") == t && SizeOf(entry, t) == Ok(sz)
    requires Py3Generator.NameOf(entry) == Ok(name) && ReturnLine(t, sz).Ok?
    ensures FnText(entry) == Ok(Py3Generator.DefLine(name) + ReturnLine(t, sz).value)
  {
  }

  /**
   * A `strz` attribute draws one byte less than its `size` as text and
   * appends the NUL byte: its function is that of a `str` attribute with
   * the same `id` and a `size` one less, with ` + b'\\0'` before the
   * closing newlines.
   */
  lemma StrzIsShorterStr(strz: Entry, str: Entry, n: int)
    requires GetOrNone(strz, "type") == VStr("strz") && "size" in strz && strz["size"] == VInt(n)
    requires GetOrNone(str, "type") == VStr("str") && "size" in str && str["size"] == VInt(n - 1)
    requires "id" in strz && strz["id"].VStr? && "id" in str && str["id"] == strz["id"]
    ensures FnText(strz).Ok? && FnText(str).Ok? && |FnText(str).value| >= 2
    ensures FnText(strz).value == FnText(str).value[..|FnText(str).value| - 2] + " + b'\\0'\n\n"
  {
    var name := Sanitiser.FnName(strz["id"].s);
    var call := Call(SelfKsHelper, "rand_utf8", [IntText(n - 1)]);
    assert SizeOf(strz, VStr("strz")) == Ok(Some(n - 1));
    assert SizeOf(str, VStr("str")) == Ok(Some(n - 1));
    FnTextOf(strz, VStr("strz"), Some(n - 1), name);
    FnTextOf(str, VStr("str"), Some(n - 1), name);
    NulSuffix(Py3Generator.DefLine(name), call);
  }

  lemma NulSuffix(d: string, c: string)
    ensures var str := d + Returning(c);
            |str| >= 2 && d + ("        return " + c + " + b'\\0'\n\n") == str[..|str| - 2] + " + b'\\0'\n\n"
  {
    var head := d + "        return " + c;
    assert d + Returning(c) == head + "\n\n";
    assert (head + "\n\n")[..|head|] == head;
  }

  /** Each attribute's function, in order. */
  function Fns(es: seq<Entry>): (r: seq<Result<string>>)
    ensures |r| == |es| && forall i :: 0 <= i < |es| ==> r[i] == FnText(es[i])
  {
    seq(|es|, i requires 0 <= i < |es| => FnText(es[i]))
  }

  /** The functions `generate_fns` writes for a run of attributes. */
  function FnsText(es: seq<Entry>): Result<string> {
    Py3Generator.Flatten(Fns(es))
  }

  /** The text of a schema's functions is made of its attributes' functions, one after the other. */
  lemma FnsTextAppend(s: seq<Entry>, t: seq<Entry>)
    requires FnsText(s).Ok? && FnsText(t).Ok?
    ensures FnsText(s + t) == Ok(FnsText(s).value + FnsText(t).value)
  {
    var joined, halves := Fns(s + t), Fns(s) + Fns(t);
    forall i | 0 <= i < |joined|
      ensures joined[i] == halves[i]
    {
      if i < |s| {
        assert (s + t)[i] == s[i];
      } else {
        assert (s + t)[i] == t[i - |s|];
      }
    }
    assert joined == halves;
    Py3Generator.FlattenAppend(Fns(s), Fns(t));
  }

  /** `generate_fns` succeeds exactly when every attribute's function does. */
  lemma FnsTextOk(es: seq<Entry>)
    ensures FnsText(es).Ok? <==> forall i :: 0 <= i < |es| ==> FnText(es[i]).Ok?
  {
    Py3Generator.FlattenOk(Fns(es));
  }

  const GenerateHead := "    def generate(self):\n        return ("
  const Continuation := "        + "

  /** The `generate()` method: its head, the call lines, and the closing parenthesis without a newline. */
  function GenerateText(es: seq<Entry>): Result<string> {
    var names :- Py3Generator.FnNames(es);
    Ok(GenerateHead + Py3Generator.CallsText(names, Continuation) + "        )")
  }

  /**
   * A Python3Generator of the first backend: the sanitised class name and
   * the attributes. Neither changes after construction.
   */
  class Python3Generator {
    const className: string
    const attrs: seq<Entry>

    /** `Python3Generator(class_name, seq)`, without reading the helper source. */
    constructor(name: string, attrs: seq<Entry>)
      ensures className == Sanitiser.ClassName(name) && this.attrs == attrs
    {
      var n := Sanitiser.SanitiseClassName(name);
      className := n;
      this.attrs := attrs;
    }

    /** `generate_fn()`: one call line per attribute, KeyError or the sanitiser's error at the first unusable `id`. */
    method GenerateFn() returns (r: Result<string>)
      ensures r == GenerateText(attrs)
    {
      var calls := "";
      var firstEntry := true;
      ghost var outs := Py3Generator.Names(attrs);
      ghost var names: seq<string> := [];
      for i := 0 to |attrs|
        invariant Py3Generator.Sequenced(outs[..i]) == Ok(names)
        invariant firstEntry <==> i == 0
        invariant calls == Py3Generator.CallsText(names, Continuation)
      {
        var fnName := Py3Generator.NameOf(attrs[i]);
        Py3Generator.SequencedStep(outs, i);
        if fnName.Err? {
          Py3Generator.SequencedStops(outs, i);
          return Err(fnName.error);
        }
        Py3Generator.CallsTextSnoc(names, fnName.value, Continuation);
        calls := calls + Py3Generator.CallPiece(firstEntry, fnName.value, Continuation);
        firstEntry := false;
        names := names + [fnName.value];
      }
      assert outs[..|attrs|] == outs;
      return Ok(GenerateHead + calls + "        )");
    }

    /** `generate_fns()`: each attribute's function in `seq` order, stopping at the first error. */
    method GenerateFns() returns (r: Result<string>)
      ensures r == FnsText(attrs)
    {
      var result := "";
      ghost var outs := Fns(attrs);
      for i := 0 to |attrs|
        invariant Py3Generator.Flatten(outs[..i]) == Ok(result)
      {
        var fn := FnText(attrs[i]);
        Py3Generator.FlattenStep(outs, i);
        if fn.Err? {
          Py3Generator.FlattenStops(outs, i);
          return Err(fn.error);
        }
        result := result + fn.value;
      }
      assert outs[..|attrs|] == outs;
      return Ok(result);
    }

    /** `seq_class()`: the class header, named after the sanitised schema name. */
    function SeqClass(): (r: string)
      ensures |r| > 6 + |className| && r[..6] == "class " && r[6..6 + |className|] == className
    {
      "class " + className + ":\n    def __init__(self):\n        self.ks_helper = KsHelper()\n        "
    }

    /** `generate_entry_point()`: the `__main__` block that writes one instance of the class. */
    function EntryPoint(): (r: string)
      ensures var head := "if \"__main__\" == __name__:\n    record = ";
              |r| > |head| + |className| && r[..|head|] == head && r[|head|..|head| + |className|] == className
    {
      "if \"__main__\" == __name__:\n    record = " + className + "()\n    sys.stdout.buffer.write(record.generate())\n    sys.stdout.flush()"
    }
  }
}
