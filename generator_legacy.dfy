/**
 * The generator base class at the top of the repository (`generator.py`):
 * one static `gen_<tag>_fn` per base type, each writing a call on the helper
 * instance `self.ks_helper`, and `TYPE_TO_FN_MAP` from the 29 base-type keys
 * to them. The texts are those of the shared generator table.
 */
module GeneratorLegacy {
  import opened Results
  import opened Values
  import opened Text
  import opened Emit
  import Types

  /** `_get_ks_helper_fn_call(fn_name)`: the name, called on the helper instance. */
  function KsHelperFnCall(fnName: string): (r: string)
    ensures |r| == |SelfKsHelper| + 1 + |fnName|
    ensures r[..|SelfKsHelper| + 1] == "self.ks_helper." && r[|SelfKsHelper| + 1..] == fnName
  {
    SelfKsHelper + "." + fnName
  }

  /**
   * `TYPE_TO_FN_MAP[key](n_bytes=n)`: KeyError for a key that is not one of
   * the 29 base types, otherwise the call the key's generator writes.
   */
  function GenFn(key: Option<string>, n: Value): (r: Result<string>)
    requires Scalar(n)
    ensures r.Ok? <==> key in Types.BaseTypes
    ensures r.Err? ==> r.error == KeyError(if key.Some? then key.value else "None")
    ensures r.Ok? ==> r.value == GenCall(TypeToFn(key).value, n)
  {
    match TypeToFn(key)
    case None => Err(KeyError(if key.Some? then key.value else "None"))
    case Some(kind) => Ok(GenCall(kind, n))
  }

  /** The table has one key per base type: 29 of them. */
  lemma TableSize()
    ensures |Types.BaseTypes| == 29
    ensures forall i :: 0 <= i < |Types.BaseTypes| ==> GenFn(Types.BaseTypes[i], VNone).Ok?
  {
    Types.BaseTypesLayout();
  }

  /**
   * Every call is on the helper instance: `rand_utf8` for the string tags
   * and `rand_bytes` for everything else.
   */
  lemma GenFnOnHelper(key: Option<string>, n: Value)
    requires Scalar(n) && GenFn(key, n).Ok?
    ensures var fn := if key == Some("str") || key == Some("strz") then "rand_utf8" else "rand_bytes";
            CallArgs(GenFn(key, n).value, KsHelperFnCall(fn)).Some?
  {
    var kind := TypeToFn(key).value;
    match kind
    case BytesGen => CallHead("rand_bytes", [Show(n)]);
    case IntGen(tag) => NotStr(tag); CallHead("rand_bytes", [IntText(TagBytes(tag))]);
    case FloatGen(tag) => NotStr(tag); CallHead("rand_bytes", [IntText(TagBytes(tag))]);
    case StrGen => CallHead("rand_utf8", [Show(n)]);
    case StrzGen => CallHead("rand_utf8", [Show(n), "\"\\0\""]);
  }

  lemma NotStr(tag: string)
    requires tag in Types.IntTypes || tag in Types.FloatTypes
    ensures tag != "str" && tag != "strz"
  {
    Types.CategoriesDisjoint(tag);
  }

  /** A call on the helper reads back as a call of that function, whatever its arguments. */
  lemma CallHead(fn: string, args: seq<string>)
    ensures CallArgs(Call(SelfKsHelper, fn, args), KsHelperFnCall(fn)).Some?
  {
    var head := KsHelperFnCall(fn);
    var call := Call(SelfKsHelper, fn, args);
    assert call == head + "(" + Join(", ", args) + ")";
    assert call[..|head|] == head;
  }

  /**
   * An integer or float tag's generator ignores `n_bytes` and draws as many
   * raw bytes as the tag's name says.
   */
  lemma FixedWidth(tag: string, n: Value)
    requires Scalar(n) && (tag in Types.IntTypes || tag in Types.FloatTypes)
    ensures GenFn(Some(tag), n).Ok? && GenFn(Some(tag), n) == GenFn(Some(tag), VNone)
    ensures CallArgs(GenFn(Some(tag), n).value, KsHelperFnCall("rand_bytes")) == Some([IntText(TagBytes(tag))])
    ensures ParseInt(IntText(TagBytes(tag))) == Ok(TagBytes(tag))
  {
    var kind := FixedKind(tag);
    FixedCall(kind, n);
    FixedCall(kind, VNone);
    WidthCallArgs(kind, n);
  }

  lemma FixedCall(kind: GenKind, n: Value)
    requires (kind.IntGen? && kind.tag in Types.IntTypes) || (kind.FloatGen? && kind.tag in Types.FloatTypes)
    requires Scalar(n)
    ensures GenCall(kind, n) == Call(SelfKsHelper, "rand_bytes", [IntText(TagBytes(kind.tag))])
  {
  }

  /** The generator of an integer or float tag is the fixed-width one for that tag. */
  lemma FixedKind(tag: string) returns (kind: GenKind)
    requires tag in Types.IntTypes || tag in Types.FloatTypes
    ensures TypeToFn(Some(tag)) == Some(kind) && (kind == IntGen(tag) || kind == FloatGen(tag))
    ensures Some(tag) in Types.BaseTypes
  {
    Types.BaseTypeMembership(Some(tag));
    kind := TypeToFn(Some(tag)).value;
  }

  /**
   * Raw bytes, `str` and `strz` pass `n_bytes` on: the count reads back
   * from the call, and `strz` adds the NUL terminator as a second argument.
   */
  lemma SizedCalls(k: int)
    ensures CallArgs(GenFn(None, VInt(k)).value, KsHelperFnCall("rand_bytes")) == Some([IntText(k)])
    ensures CallArgs(GenFn(Some("str"), VInt(k)).value, KsHelperFnCall("rand_utf8")) == Some([IntText(k)])
    ensures CallArgs(GenFn(Some("strz"), VInt(k)).value, KsHelperFnCall("rand_utf8")) == Some([IntText(k), "\"\\0\""])
    ensures ParseInt(IntText(k)) == Ok(k)
  {
    SizedBytes(k);
    SizedStr(k);
    SizedStrz(k);
  }

  lemma SizedBytes(k: int)
    ensures CallArgs(GenFn(None, VInt(k)).value, KsHelperFnCall("rand_bytes")) == Some([IntText(k)])
    ensures ParseInt(IntText(k)) == Ok(k)
  {
    SizedCall(None, BytesGen, "rand_bytes", [Show(VInt(k))], k);
  }

  lemma SizedStr(k: int)
    ensures CallArgs(GenFn(Some("str"), VInt(k)).value, KsHelperFnCall("rand_utf8")) == Some([IntText(k)])
  {
    SizedCall(Some("str"), StrGen, "rand_utf8", [Show(VInt(k))], k);
  }

  lemma SizedStrz(k: int)
    ensures CallArgs(GenFn(Some("strz"), VInt(k)).value, KsHelperFnCall("rand_utf8")) == Some([IntText(k), "\"\\0\""])
  {
    SizedCall(Some("strz"), StrzGen, "rand_utf8", [Show(VInt(k)), "\"\\0\""], k);
  }

  lemma SizedCall(key: Option<string>, kind: GenKind, fn: string, args: seq<string>, k: int)
    requires TypeToFn(key) == Some(kind) && Listed(kind)
    requires GenCall(kind, VInt(k)) == Call(SelfKsHelper, fn, args)
    requires |args| >= 1 && forall i :: 0 <= i < |args| ==> ',' !in args[i]
    ensures GenFn(key, VInt(k)) == Ok(Call(SelfKsHelper, fn, args))
    ensures CallArgs(GenFn(key, VInt(k)).value, KsHelperFnCall(fn)) == Some(args)
  {
    CallArgsCall(SelfKsHelper, fn, args);
  }
}
