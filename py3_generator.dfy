/**
 * The byte-level backend (src/backend/py3_generator.py): a class named
 * after the schema whose `generate()` concatenates one `gen_<id>_()` call
 * per attribute, and one such function per attribute that returns either
 * the fixed `contents` bytes or random bytes of the attribute's width.
 */
module Py3Generator {
  import opened Results
  import opened Values
  import opened Text
  import opened Emit
  import opened Bytes
  import Codecs
  import Types
  import Sanitiser
  import ValueCodeGenerator

  // ---------------------------------------------------------------------
  // `_handle_contents_key`

  const ContentsTypeMessage := "`contents` key accepts UTF-8 string or array type only."

  function OutOfRange(idx: nat): Error {
    ValueError("Out of range byte value at index " + NatText(idx) + ".")
  }

  function InvalidElement(idx: nat): Error {
    TypeError("`contents` key contain an invalid type at index " + NatText(idx) + ".")
  }

  /**
   * The bytes element `idx` adds: the UTF-8 encoding of a str, the value
   * of an int in 0..255 (a bool counts as 0 or 1), ValueError for any other
   * int and TypeError for any other value, both naming `idx`.
   */
  function ElementBytes(v: Value, idx: nat): (r: Result<seq<byte>>)
    ensures v.VStr? ==> r == Ok(Codecs.Encode(v.s))
    ensures IsInt(v) ==> (r.Ok? <==> 0 <= IntOf(v) <= 0xFF)
    ensures IsInt(v) && r.Ok? ==> r.value == [IntOf(v)]
    ensures IsInt(v) && r.Err? ==> r.error == OutOfRange(idx)
    ensures !v.VStr? && !IsInt(v) ==> r == Err(InvalidElement(idx))
  {
    if v.VStr? then Ok(Codecs.Encode(v.s))
    else if IsInt(v) then
      if IntOf(v) > 0xFF || IntOf(v) < 0 then Err(OutOfRange(idx)) else Ok([IntOf(v)])
    else Err(InvalidElement(idx))
  }

  /** The pieces of a run of outcomes, one after the other, or the first error. */
  function Flatten<T>(rs: seq<Result<seq<T>>>): Result<seq<T>>
    decreases |rs|
  {
    if rs == [] then Ok([])
    else
      var init :- Flatten(rs[..|rs| - 1]);
      var last :- rs[|rs| - 1];
      Ok(init + last)
  }

  /** One more outcome: its piece is appended, or its error is the result. */
  lemma FlattenStep<T>(rs: seq<Result<seq<T>>>, i: nat)
    requires i < |rs| && Flatten(rs[..i]).Ok?
    ensures Flatten(rs[..i + 1]) == if rs[i].Ok? then Ok(Flatten(rs[..i]).value + rs[i].value) else Err(rs[i].error)
  {
    assert rs[..i + 1][..i] == rs[..i];
  }

  /** Once a run fails, a longer run fails with the same error. */
  lemma {:induction false} FlattenErrExtends<T>(s: seq<Result<seq<T>>>, t: seq<Result<seq<T>>>)
    requires Flatten(s).Err?
    ensures Flatten(s + t) == Flatten(s)
    decreases |t|
  {
    if t != [] {
      var st := s + t;
      assert st[..|st| - 1] == s + t[..|t| - 1];
      FlattenErrExtends(s, t[..|t| - 1]);
    } else {
      assert s + t == s;
    }
  }

  /** The first failing outcome decides the error. */
  lemma FlattenStops<T>(rs: seq<Result<seq<T>>>, i: nat)
    requires i < |rs| && Flatten(rs[..i]).Ok? && rs[i].Err?
    ensures Flatten(rs) == Err(rs[i].error)
  {
    FlattenStep(rs, i);
    FlattenErrExtends(rs[..i + 1], rs[i + 1..]);
    assert rs[..i + 1] + rs[i + 1..] == rs;
  }

  lemma {:induction false} FlattenAppend<T>(s: seq<Result<seq<T>>>, t: seq<Result<seq<T>>>)
    requires Flatten(s).Ok? && Flatten(t).Ok?
    ensures Flatten(s + t) == Ok(Flatten(s).value + Flatten(t).value)
    decreases |t|
  {
    if t == [] {
      assert s + t == s;
      assert Flatten(s).value + [] == Flatten(s).value;
    } else {
      var st := s + t;
      var t0 := t[..|t| - 1];
      assert st[..|st| - 1] == s + t0;
      assert st[|st| - 1] == t[|t| - 1];
      assert Flatten(t) == Ok(Flatten(t0).value + t[|t| - 1].value);
      FlattenAppend(s, t0);
      assert Flatten(s).value + Flatten(t0).value + t[|t| - 1].value
             == Flatten(s).value + (Flatten(t0).value + t[|t| - 1].value);
    }
  }

  lemma {:induction false} FlattenOk<T>(rs: seq<Result<seq<T>>>)
    ensures Flatten(rs).Ok? <==> forall i :: 0 <= i < |rs| ==> rs[i].Ok?
    decreases |rs|
  {
    if rs != [] {
      var init := rs[..|rs| - 1];
      FlattenOk(init);
      assert forall i :: 0 <= i < |init| ==> init[i] == rs[i];
    }
  }

  /** What each element adds, element `i` knowing its index. */
  function ElementsBytes(items: seq<Value>): (r: seq<Result<seq<byte>>>)
    ensures |r| == |items| && forall i :: 0 <= i < |items| ==> r[i] == ElementBytes(items[i], i)
  {
    seq(|items|, i requires 0 <= i < |items| => ElementBytes(items[i], i))
  }

  /** The bytes of a run of elements, or the error of the first that fails. */
  function ItemsBytes(items: seq<Value>): Result<seq<byte>> {
    Flatten(ElementsBytes(items))
  }

  /** The statement `_handle_contents_key` returns for an attribute. */
  function ContentsText(attribute: Entry): Result<string> {
    var contents :- Index(attribute, "contents");
    if !(contents.VStr? || contents.VList?) then Err(TypeError(ContentsTypeMessage))
    else
      var bs :- ItemsBytes(ValueCodeGenerator.Elements(contents).value);
      Ok("        return " + Repr(bs))
  }

  /**
   * The error of a run is the error of its first bad element, and that
   * error names the element's index.
   */
  lemma ItemsBytesStops(items: seq<Value>, i: nat)
    requires i < |items| && ItemsBytes(items[..i]).Ok? && ElementBytes(items[i], i).Err?
    ensures ItemsBytes(items) == Err(ElementBytes(items[i], i).error)
    ensures ItemsBytes(items).error == OutOfRange(i) || ItemsBytes(items).error == InvalidElement(i)
  {
    assert ElementsBytes(items)[..i] == ElementsBytes(items[..i]);
    FlattenStops(ElementsBytes(items), i);
  }

  /**
   * Where the class-based backend's `_gen_bytes_fixed_contents` accepts
   * the same elements, both backends produce the same bytes; they accept
   * exactly the same runs (only their exception classes differ).
   */
  lemma {:induction false} ItemsBytesAgree(items: seq<Value>)
    ensures ItemsBytes(items).Ok? <==> ValueCodeGenerator.ItemsBytes(items).Ok?
    ensures ItemsBytes(items).Ok? ==> ItemsBytes(items).value == ValueCodeGenerator.ItemsBytes(items).value
    decreases |items|
  {
    if items != [] {
      var init := items[..|items| - 1];
      ItemsBytesAgree(init);
      var rs := ElementsBytes(items);
      assert rs[..|rs| - 1] == ElementsBytes(init);
      var v := items[|items| - 1];
      assert ElementBytes(v, |items| - 1).Ok? <==> ValueCodeGenerator.ElementBytes(v).Ok?;
    }
  }

  /**
   * `_handle_contents_key(attribute)`: TypeError unless `contents` is a
   * str or a list, then the loop that appends each element's bytes, then
   * the return statement of their bytes literal, which reads back to
   * exactly those bytes.
   */
  method HandleContentsKey(attribute: Entry) returns (r: Result<string>)
    ensures r == ContentsText(attribute)
    ensures r.Ok? ==> |r.value| >= 15 && r.value[..15] == "        return "
    ensures r.Ok? ==>
              var items := ValueCodeGenerator.Elements(attribute["contents"]).value;
              ParseRepr(r.value[15..]) == Some(ItemsBytes(items).value)
  {
    var contents :- Index(attribute, "contents");
    if !(contents.VStr? || contents.VList?) {
      return Err(TypeError(ContentsTypeMessage));
    }
    var items := ValueCodeGenerator.Elements(contents).value;
    ghost var outs := ElementsBytes(items);
    var bArr: seq<byte> := [];
    for idx := 0 to |items|
      invariant Flatten(outs[..idx]) == Ok(bArr)
    {
      var b := ElementBytes(items[idx], idx);
      FlattenStep(outs, idx);
      if b.Err? {
        FlattenStops(outs, idx);
        return Err(b.error);
      }
      bArr := bArr + b.value;
    }
    assert outs[..|items|] == outs;
    ParseReprRepr(bArr);
    r := Ok("        return " + Repr(bArr));
    assert r.value[15..] == Repr(bArr);
  }

  // ---------------------------------------------------------------------
  // `_handle_attribute` and `generate_fns`

  /** `_sanitise_fn_name(v)`: `.lower()` exists on a str only. */
  function FnNameOf(v: Value): (r: Result<string>)
    ensures r.Ok? <==> v.VStr?
    ensures r.Ok? ==> r.value == Sanitiser.FnName(v.s)
  {
    if v.VStr? then Ok(Sanitiser.FnName(v.s)) else Err(AttributeError("object has no attribute 'lower'"))
  }

  /** The tags whose generator is given the attribute's `size`: raw bytes, `str` and `strz`. */
  predicate Sized(t: Value) {
    t.VNone? || t == VStr("str") || t == VStr("strz")
  }

  /** `sz`: `int(attribute["size"])` for a sized tag, None otherwise. */
  function SizeArg(attribute: Entry, t: Value): (r: Result<Value>)
    ensures r.Ok? ==> r.value.VNone? || r.value.VInt?
    ensures !Sized(t) ==> r == Ok(VNone)
    ensures Sized(t) && "size" !in attribute ==> r == Err(KeyError("size"))
  {
    if Sized(t) then
      var size :- Index(attribute, "size");
      var sz :- ToInt(size);
      Ok(VInt(sz))
    else Ok(VNone)
  }

  /** `get_gen_type_fn(t)(n_bytes = sz)`: the table lookup, then the generator's call. */
  function GenTypeCall(t: Value, sz: Value): (r: Result<string>)
    requires Scalar(sz)
    ensures r.Ok? <==> LookupGen(t).Ok?
    ensures r.Ok? ==> r.value == GenCall(LookupGen(t).value, sz)
  {
    var kind :- LookupGen(t);
    assert Some(kind) == TypeToFn(TagKey(t).value);
    Ok(GenCall(kind, sz))
  }

  /** The `def` line of an attribute's function. */
  function DefLine(fnName: string): string {
    "    def gen_" + fnName + "(self):\n"
  }

  /**
   * The function `_handle_attribute` writes for an attribute: its `def`
   * line, then the contents statement if there is a `contents` key, and
   * otherwise the return of the call of the generator of its `type`
   * (`None` when absent), given the integer `size` when the tag is sized.
   */
  function AttributeText(attribute: Entry): Result<string> {
    var entryId :- Index(attribute, "id");
    var fnName :- FnNameOf(entryId);
    if "contents" in attribute then
      var body :- ContentsText(attribute);
      Ok(DefLine(fnName) + body + "\n\n")
    else
      var t := GetOrNone(attribute, "type");
      var sz :- SizeArg(attribute, t);
      var call :- GenTypeCall(t, sz);
      Ok(DefLine(fnName) + "        return " + call + "\n\n")
  }

  /**
   * What `_handle_attribute` promises: KeyError without an `id`, an error
   * for an `id` that is not a str, and otherwise a function named after the
   * sanitised `id`; with `contents` its body is the contents statement, and
   * without it a sized tag needs a `size` and any tag must be in the table.
   */
  lemma AttributeOutcome(attribute: Entry)
    ensures "id" !in attribute ==> AttributeText(attribute) == Err(KeyError("id"))
    ensures "id" in attribute && !attribute["id"].VStr? ==> AttributeText(attribute).Err?
    ensures "id" in attribute && attribute["id"].VStr? && "contents" in attribute ==>
              && (AttributeText(attribute).Ok? <==> ContentsText(attribute).Ok?)
              && (AttributeText(attribute).Ok? ==>
                    AttributeText(attribute).value
                    == DefLine(Sanitiser.FnName(attribute["id"].s)) + ContentsText(attribute).value + "\n\n")
    ensures "id" in attribute && attribute["id"].VStr? && "contents" !in attribute ==>
              var t := GetOrNone(attribute, "type");
              && (Sized(t) && "size" !in attribute ==> AttributeText(attribute) == Err(KeyError("size")))
              && (!Sized(t) ==>
                    && (AttributeText(attribute).Ok? <==> LookupGen(t).Ok?)
                    && (AttributeText(attribute).Ok? ==>
                          AttributeText(attribute).value
                          == DefLine(Sanitiser.FnName(attribute["id"].s)) + "        return "
                             + GenCall(LookupGen(t).value, VNone) + "\n\n"))
  {
  }

  /** `contents` wins over `type` and `size`: changing them does not change the function. */
  lemma ContentsFirst(attribute: Entry, k: string, v: Value)
    requires "contents" in attribute && (k == "type" || k == "size")
    ensures AttributeText(attribute[k := v]) == AttributeText(attribute)
  {
    var a := attribute[k := v];
    assert a["contents"] == attribute["contents"];
    assert Index(a, "id") == Index(attribute, "id");
    assert ContentsText(a) == ContentsText(attribute);
  }

  /** A sized attribute passes its `size` through `int()` to the call: `rand_bytes(n)` for raw bytes. */
  lemma RawBytesSize(attribute: Entry, n: int)
    requires "id" in attribute && attribute["id"].VStr? && "contents" !in attribute
    requires "type" !in attribute && "size" in attribute && attribute["size"] == VInt(n)
    ensures AttributeText(attribute)
            == Ok(DefLine(Sanitiser.FnName(attribute["id"].s)) + "        return "
                  + Call(SelfKsHelper, "rand_bytes", [IntText(n)]) + "\n\n")
  {
    assert GetOrNone(attribute, "type") == VNone;
    assert LookupGen(VNone) == Ok(BytesGen);
  }

  /** Each attribute's function, in order. */
  function Fns(es: seq<Entry>): (r: seq<Result<string>>)
    ensures |r| == |es| && forall i :: 0 <= i < |es| ==> r[i] == AttributeText(es[i])
  {
    seq(|es|, i requires 0 <= i < |es| => AttributeText(es[i]))
  }

  /** The functions `generate_fns` writes for a run of attributes. */
  function FnsText(es: seq<Entry>): Result<string> {
    Flatten(Fns(es))
  }

  /**
   * The functions of a schema are those of its halves, one after the
   * other: each attribute's function depends on that attribute alone and
   * they appear in `seq` order.
   */
  lemma FnsTextAppend(s: seq<Entry>, t: seq<Entry>)
    requires FnsText(s).Ok? && FnsText(t).Ok?
    ensures FnsText(s + t) == Ok(FnsText(s).value + FnsText(t).value)
  {
    var all, front, back := Fns(s + t), Fns(s), Fns(t);
    forall i | 0 <= i < |all| ensures all[i] == (front + back)[i] {
      if i < |s| {
        assert (s + t)[i] == s[i];
      } else {
        assert (s + t)[i] == t[i - |s|];
      }
    }
    assert all == front + back;
    FlattenAppend(front, back);
  }

  /** The run succeeds exactly when every attribute's function does. */
  lemma FnsTextOk(es: seq<Entry>)
    ensures FnsText(es).Ok? <==> forall i :: 0 <= i < |es| ==> AttributeText(es[i]).Ok?
  {
    FlattenOk(Fns(es));
  }

  // ---------------------------------------------------------------------
  // `generate_fn`

  /**
   * The call lines of `generate()`: `self.gen_<name>()` per function name,
   * each on its own line, every one after the first led by `cont`.
   */
  function CallsText(names: seq<string>, cont: string): string
    decreases |names|
  {
    if names == [] then ""
    else CallsText(names[..|names| - 1], cont) + (if |names| == 1 then "" else cont) + "self.gen_" + names[|names| - 1] + "()\n"
  }

  /** One call line: the first has no continuation. */
  function CallPiece(first: bool, name: string, cont: string): string {
    (if first then "" else cont) + "self.gen_" + name + "()\n"
  }

  lemma CallsTextSnoc(names: seq<string>, name: string, cont: string)
    ensures CallsText(names + [name], cont) == CallsText(names, cont) + CallPiece(names == [], name, cont)
  {
    assert (names + [name])[..|names|] == names;
  }

  /** Call line `i` on its own. */
  function CallLine(names: seq<string>, cont: string, i: nat): string
    requires i < |names|
  {
    (if i == 0 then "" else cont) + "self.gen_" + names[i] + "()\n"
  }

  /** The call lines as a list, one per name in order. */
  function CallLines(names: seq<string>, cont: string): (r: seq<string>)
    ensures |r| == |names|
  {
    seq(|names|, i requires 0 <= i < |names| => CallLine(names, cont, i))
  }

  /**
   * `generate()` calls each function once, in order: its text is call line
   * `i` for name `i`, and only the first line lacks the continuation.
   */
  lemma {:induction false} CallsTextLines(names: seq<string>, cont: string)
    ensures CallsText(names, cont) == Join("", CallLines(names, cont))
    decreases |names|
  {
    if names != [] {
      var init := names[..|names| - 1];
      CallsTextLines(init, cont);
      var ls := CallLines(names, cont);
      assert CallLines(init, cont) == ls[..|ls| - 1];
      JoinSnoc(ls);
    }
  }

  lemma {:induction false} JoinSnoc(ls: seq<string>)
    requires |ls| >= 1
    ensures Join("", ls) == Join("", ls[..|ls| - 1]) + ls[|ls| - 1]
    decreases |ls|
  {
    if |ls| == 1 {
      assert ls[..0] == [];
    } else if |ls| > 1 {
      var tail := ls[1..];
      JoinSnoc(tail);
      assert tail[..|tail| - 1] == ls[..|ls| - 1][1..];
      assert ls[..|ls| - 1][0] == ls[0];
      if |ls| == 2 {
        assert Join("", ls[..|ls| - 1]) == ls[0];
      }
    }
  }

  /** The function name of one attribute: KeyError without an `id`, then the sanitiser's. */
  function NameOf(e: Entry): (r: Result<string>)
    ensures r.Ok? <==> "id" in e && e["id"].VStr?
    ensures r.Ok? ==> r.value == Sanitiser.FnName(e["id"].s)
    ensures "id" !in e ==> r == Err(KeyError("id"))
  {
    var entryId :- Index(e, "id");
    FnNameOf(entryId)
  }

  /** The outcomes of a run, as a list of values or the first error. */
  function Sequenced(rs: seq<Result<string>>): (r: Result<seq<string>>)
    ensures r.Ok? ==> |r.value| == |rs| && forall i :: 0 <= i < |rs| ==> rs[i].Ok? && r.value[i] == rs[i].value
    decreases |rs|
  {
    if rs == [] then Ok([])
    else
      var init :- Sequenced(rs[..|rs| - 1]);
      var last :- rs[|rs| - 1];
      Ok(init + [last])
  }

  lemma {:induction false} SequencedErrExtends(s: seq<Result<string>>, t: seq<Result<string>>)
    requires Sequenced(s).Err?
    ensures Sequenced(s + t) == Sequenced(s)
    decreases |t|
  {
    if t != [] {
      var st := s + t;
      assert st[..|st| - 1] == s + t[..|t| - 1];
      SequencedErrExtends(s, t[..|t| - 1]);
    } else {
      assert s + t == s;
    }
  }

  /** One more outcome: its value is appended, or its error is the result. */
  lemma SequencedStep(rs: seq<Result<string>>, i: nat)
    requires i < |rs| && Sequenced(rs[..i]).Ok?
    ensures Sequenced(rs[..i + 1]) == if rs[i].Ok? then Ok(Sequenced(rs[..i]).value + [rs[i].value]) else Err(rs[i].error)
  {
    assert rs[..i + 1][..i] == rs[..i];
  }

  /** The first failing outcome decides the error. */
  lemma SequencedStops(rs: seq<Result<string>>, i: nat)
    requires i < |rs| && Sequenced(rs[..i]).Ok? && rs[i].Err?
    ensures Sequenced(rs) == Err(rs[i].error)
  {
    SequencedStep(rs, i);
    SequencedErrExtends(rs[..i + 1], rs[i + 1..]);
    assert rs[..i + 1] + rs[i + 1..] == rs;
  }

  /** Each attribute's function name, in order. */
  function Names(es: seq<Entry>): (r: seq<Result<string>>)
    ensures |r| == |es| && forall i :: 0 <= i < |es| ==> r[i] == NameOf(es[i])
  {
    seq(|es|, i requires 0 <= i < |es| => NameOf(es[i]))
  }

  /** The function names of a run of attributes, or the first attribute's error. */
  function FnNames(es: seq<Entry>): Result<seq<string>> {
    Sequenced(Names(es))
  }

  const GenerateHead := "    def generate(self):\n        return ("
  const Continuation := "                + "

  /** The `generate()` method: its head, the call lines, and the closing parenthesis. */
  function GenerateText(es: seq<Entry>): Result<string> {
    var names :- FnNames(es);
    Ok(GenerateHead + CallsText(names, Continuation) + "                )\n")
  }

  /**
   * A Python3Generator: the sanitised class name and the attributes it
   * was built with. Neither changes after construction.
   */
  class Python3Generator {
    const className: string
    const attrs: seq<Entry>

    /** `Python3Generator(class_name, seq)`, without reading the helper source. */
    constructor(name: string, attrs: seq<Entry>)
      ensures className == Sanitiser.ClassName(name) && this.attrs == attrs
    {
      var n := Sanitiser.SanitiseClassName(name);
      className := n;
      this.attrs := attrs;
    }

    /**
     * `generate_fn()`: one call line per attribute, the first without the
     * leading `+`, and KeyError (or the sanitiser's error) at the first
     * attribute without a usable `id`.
     */
    method GenerateFn() returns (r: Result<string>)
      ensures r == GenerateText(attrs)
    {
      var calls := "";
      var firstEntry := true;
      ghost var outs := Names(attrs);
      ghost var names: seq<string> := [];
      for i := 0 to |attrs|
        invariant Sequenced(outs[..i]) == Ok(names)
        invariant firstEntry <==> i == 0
        invariant calls == CallsText(names, Continuation)
      {
        var fnName := NameOf(attrs[i]);
        SequencedStep(outs, i);
        if fnName.Err? {
          SequencedStops(outs, i);
          return Err(fnName.error);
        }
        CallsTextSnoc(names, fnName.value, Continuation);
        calls := calls + CallPiece(firstEntry, fnName.value, Continuation);
        firstEntry := false;
        names := names + [fnName.value];
      }
      assert outs[..|attrs|] == outs;
      return Ok(GenerateHead + calls + "                )\n");
    }

    /** `generate_fns()`: each attribute's function in `seq` order, stopping at the first error. */
    method GenerateFns() returns (r: Result<string>)
      ensures r == FnsText(attrs)
    {
      var result := "";
      ghost var outs := Fns(attrs);
      for i := 0 to |attrs|
        invariant Flatten(outs[..i]) == Ok(result)
      {
        var fn := AttributeText(attrs[i]);
        FlattenStep(outs, i);
        if fn.Err? {
          FlattenStops(outs, i);
          return Err(fn.error);
        }
        result := result + fn.value;
      }
      assert outs[..|attrs|] == outs;
      return Ok(result);
    }

    /** `seq_class()`: the class header, named after the sanitised schema name. */
    function SeqClass(): (r: string)
      ensures |r| > 6 + |className| && r[..6] == "class " && r[6..6 + |className|] == className
    {
      "class " + className + ":\n    def __init__(self):\n        self.ks_helper = KsHelper()\n        "
    }

    /** `generate_entry_point()`: the `__main__` block that writes one instance of the class. */
    function EntryPoint(): (r: string)
      ensures var head := "if \"__main__\" == __name__:\n    record = ";
              |r| > |head| + |className| && r[..|head|] == head && r[|head|..|head| + |className|] == className
    {
      "if \"__main__\" == __name__:\n    record = " + className + "()\n    sys.stdout.buffer.write(record.generate())\n    sys.stdout.flush()"
    }
  }
}
