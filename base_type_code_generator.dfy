/**
 * The generator of base-type helper calls used by the class-based code
 * generator (src/backend/py3/base_type_code_generator.py): `rand_bytes`
 * for raw bytes, a range-checked `rand_int` per integer tag, and stubs
 * for floats and strings.
 */
module BaseTypeCodeGenerator {
  import opened Results
  import opened Values
  import opened Text
  import opened Emit
  import Types
  import DefaultValue

  /**
   * `gen_bytes_fn(n_bytes)`: ValueError unless `n_bytes > 0` (TypeError for
   * a value with no order against 0), otherwise `helper.rand_bytes(n)`.
   */
  function GenBytes(helper: string, n: Value): (r: Result<string>)
    ensures r.Ok? <==> NotBelow(n, 1)
    ensures !Numeric(n) ==> r.Err? && r.error.TypeError?
    ensures Numeric(n) && !NotBelow(n, 1) ==> r == Err(ValueError("`n_bytes` cannot be less than or equal to 0"))
    ensures r.Ok? ==> r.value == Call(helper, "rand_bytes", [Show(n)])
  {
    var above :- Above(n, 0);
    if !above then Err(ValueError("`n_bytes` cannot be less than or equal to 0"))
    else Ok(Call(helper, "rand_bytes", [Show(n)]))
  }

  /** An accepted byte count reads back from the emitted call. */
  lemma GenBytesArgs(helper: string, n: int)
    requires GenBytes(helper, VInt(n)).Ok?
    ensures n >= 1
    ensures var args := CallArgs(GenBytes(helper, VInt(n)).value, helper + ".rand_bytes");
            args == Some([IntText(n)]) && ParseInt(args.value[0]) == Ok(n)
  {
    var a := Show(VInt(n));
    assert GenBytes(helper, VInt(n)).value == Call(helper, "rand_bytes", [a]);
    CallArgsOne(helper, "rand_bytes", a);
  }

  /**
   * `get_gen_type_fn(key)` followed by the call `gen(start=..., end=...)`
   * that the class generator makes. `TYPE_TO_FN_MAP[key]` raises KeyError
   * for a tag that is not a base type. Then the integer generators check
   * the range; `gen_bytes_fn` has no `start` parameter and the float
   * generators, static methods with a leading `self` parameter, lack one
   * argument, so both raise TypeError; `gen_str_fn` and `gen_strz_fn`
   * raise NotImplementedError.
   */
  function GenWithRange(helper: string, t: Value, start: Value, end: Value): (r: Result<string>)
    ensures LookupGen(t).Err? ==> r == Err(LookupGen(t).error)
    ensures LookupGen(t).Ok? && LookupGen(t).value.IntGen? ==> r == RandIntCall(helper, LookupGen(t).value.tag, start, end)
    ensures LookupGen(t).Ok? && !LookupGen(t).value.IntGen? ==> r.Err? && !r.error.KeyError?
    ensures LookupGen(t) == Ok(BytesGen) ==> r.Err? && r.error.TypeError?
  {
    var g :- LookupGen(t);
    match g
    case BytesGen => Err(TypeError("gen_bytes_fn() got an unexpected keyword argument 'start'"))
    case IntGen(tag) => RandIntCall(helper, tag, start, end)
    case FloatGen(_) => Err(TypeError("missing 1 required positional argument: 'self'"))
    case StrGen => Err(NotImplementedError)
    case StrzGen => Err(NotImplementedError)
  }
}
