/**
 * The generator of value expressions for the class-based backend
 * (src/backend/py3/value_code_generator.py): for one attribute, the
 * Python expression that produces its value, from a `valid` literal, an
 * enum draw, a range-checked `rand_int`, fixed `contents` bytes,
 * `rand_bytes`, a string helper chosen by encoding, or the constructor of
 * a user type.
 */
module ValueCodeGenerator {
  import opened Results
  import opened Values
  import opened Text
  import opened Emit
  import opened Bytes
  import Codecs
  import Types
  import Sanitiser
  import DefaultValue

  /** The ISO 8859 parts the string generator accepts (there is no part 12). */
  const Iso8859Names: seq<string> :=
    ["ISO8859-1", "ISO8859-2", "ISO8859-3", "ISO8859-4", "ISO8859-5", "ISO8859-6", "ISO8859-7",
     "ISO8859-8", "ISO8859-9", "ISO8859-10", "ISO8859-11", "ISO8859-13", "ISO8859-14", "ISO8859-15", "ISO8859-16"]

  /**
   * What `for content in contents` visits: the one-character strings of a
   * str, the items of a list and the keys of a dict (in `KeyLe` order, as
   * the model's dict keeps no insertion order). Any other value raises
   * TypeError.
   */
  function Elements(contents: Value): (r: Result<seq<Value>>)
    ensures r.Ok? <==> contents.VStr? || contents.VList? || contents.VDict?
    ensures contents.VList? ==> r == Ok(contents.items)
    ensures contents.VStr? ==>
              && r.Ok? && |r.value| == |contents.s|
              && forall i :: 0 <= i < |contents.s| ==> r.value[i] == VStr([contents.s[i]])
    ensures contents.VDict? ==> r == Ok(KeyItems(contents.fields))
  {
    match contents
    case VStr(s) => Ok(seq(|s|, i requires 0 <= i < |s| => VStr([s[i]])))
    case VList(items) => Ok(items)
    case VDict(fields) => Ok(KeyItems(fields))
    case _ => Err(TypeError("object is not iterable"))
  }

  /** The keys of a dict as the values iteration yields them. */
  function KeyItems(fields: map<Key, Value>): (r: seq<Value>)
    ensures |r| == |fields|
  {
    KeyValues(SortedKeys(fields.Keys))
  }

  function KeyValues(keys: seq<Key>): (r: seq<Value>)
    ensures |r| == |keys|
  {
    if keys == [] then [] else [KeyValue(keys[0])] + KeyValues(keys[1..])
  }

  lemma {:induction false} KeyValuesAt(keys: seq<Key>)
    ensures forall i :: 0 <= i < |keys| ==> KeyValues(keys)[i] == KeyValue(keys[i])
  {
    if keys != [] {
      KeyValuesAt(keys[1..]);
    }
  }

  /** Iterating a dict yields every key and nothing else, each key once. */
  lemma KeyItemsAreKeys(fields: map<Key, Value>)
    ensures var r := KeyItems(fields);
            && (forall k :: k in fields ==> KeyValue(k) in r)
            && (forall i :: 0 <= i < |r| ==> exists k :: k in fields && r[i] == KeyValue(k))
            && (forall i, j :: 0 <= i < j < |r| ==> r[i] != r[j])
  {
    var keys := SortedKeys(fields.Keys);
    KeyValuesAt(keys);
    KeyValuesCover(keys, fields.Keys);
    KeyValuesDistinct(keys);
  }

  lemma KeyValuesCover(keys: seq<Key>, s: set<Key>)
    requires forall k :: k in s <==> k in keys
    requires forall i :: 0 <= i < |keys| ==> KeyValues(keys)[i] == KeyValue(keys[i])
    ensures forall k :: k in s ==> KeyValue(k) in KeyValues(keys)
    ensures forall i :: 0 <= i < |keys| ==> exists k :: k in s && KeyValues(keys)[i] == KeyValue(k)
  {
    var r := KeyValues(keys);
    forall i | 0 <= i < |r| ensures exists k :: k in s && r[i] == KeyValue(k) {
      assert keys[i] in s && r[i] == KeyValue(keys[i]);
    }
    forall k | k in s ensures KeyValue(k) in r {
      var i :| 0 <= i < |keys| && keys[i] == k;
      assert r[i] == KeyValue(k);
    }
  }

  lemma KeyValuesDistinct(keys: seq<Key>)
    requires forall i, j :: 0 <= i < j < |keys| ==> keys[i] != keys[j]
    requires forall i :: 0 <= i < |keys| ==> KeyValues(keys)[i] == KeyValue(keys[i])
    ensures forall i, j :: 0 <= i < j < |keys| ==> KeyValues(keys)[i] != KeyValues(keys)[j]
  {
  }

  /**
   * The bytes one element adds: the UTF-8 encoding of a str, the single
   * byte `to_bytes(1)` of an int (OverflowError outside 0..255; a bool is
   * 0 or 1), and TypeError for anything else.
   */
  function ElementBytes(v: Value): (r: Result<seq<byte>>)
    ensures v.VStr? ==> r == Ok(Codecs.Encode(v.s))
    ensures IsInt(v) ==> (r.Ok? <==> 0 <= IntOf(v) < 256)
    ensures IsInt(v) && r.Ok? ==> r.value == [IntOf(v)]
    ensures IsInt(v) && r.Err? ==> r.error == OverflowError
    ensures !v.VStr? && !IsInt(v) ==> r == Err(TypeError("Unknown type in `contents` key"))
  {
    if v.VStr? then Ok(Codecs.Encode(v.s))
    else if IsInt(v) then
      var b :- ToByte(IntOf(v));
      Ok([b])
    else Err(TypeError("Unknown type in `contents` key"))
  }

  /** The bytes of a run of elements in order, or the error of the first element that fails. */
  function ItemsBytes(items: seq<Value>): Result<seq<byte>>
    decreases |items|
  {
    if items == [] then Ok([])
    else
      var init :- ItemsBytes(items[..|items| - 1]);
      var last :- ElementBytes(items[|items| - 1]);
      Ok(init + last)
  }

  /** A run of elements converts exactly when every element does. */
  lemma {:induction false} ItemsBytesOk(items: seq<Value>)
    ensures ItemsBytes(items).Ok? <==> forall i :: 0 <= i < |items| ==> ElementBytes(items[i]).Ok?
    decreases |items|
  {
    if items != [] {
      var init := items[..|items| - 1];
      ItemsBytesOk(init);
      assert forall i :: 0 <= i < |init| ==> init[i] == items[i];
    }
  }

  /** The bytes of `contents`, as `_gen_bytes_fixed_contents` accumulates them. */
  function ContentBytes(contents: Value): Result<seq<byte>> {
    var items :- Elements(contents);
    ItemsBytes(items)
  }

  /** The text `_gen_bytes_fixed_contents` returns: the bytes literal of the contents. */
  function FixedContentsText(contents: Value): Result<string> {
    var bs :- ContentBytes(contents);
    Ok(Repr(bs))
  }

  /** One more element: its bytes are appended, or its error ends the run. */
  lemma ItemsBytesStep(items: seq<Value>, i: nat)
    requires i < |items| && ItemsBytes(items[..i]).Ok?
    ensures ElementBytes(items[i]).Err? ==> ItemsBytes(items[..i + 1]) == Err(ElementBytes(items[i]).error)
    ensures ElementBytes(items[i]).Ok? ==>
              ItemsBytes(items[..i + 1]) == Ok(ItemsBytes(items[..i]).value + ElementBytes(items[i]).value)
  {
    assert items[..i + 1][..i] == items[..i];
  }

  /** Once a run of elements fails, a longer run fails with the same error. */
  lemma {:induction false} ItemsBytesErrExtends(s: seq<Value>, t: seq<Value>)
    requires ItemsBytes(s).Err?
    ensures ItemsBytes(s + t) == ItemsBytes(s)
    decreases |t|
  {
    if t != [] {
      var st := s + t;
      assert st[..|st| - 1] == s + t[..|t| - 1];
      ItemsBytesErrExtends(s, t[..|t| - 1]);
    } else {
      assert s + t == s;
    }
  }

  /** Text contents give its UTF-8 encoding, character by character. */
  lemma {:induction false} StrContentsEncode(s: string)
    ensures ContentBytes(VStr(s)) == Ok(Codecs.Encode(s))
    decreases |s|
  {
    var items := Elements(VStr(s)).value;
    if s != [] {
      var init := s[..|s| - 1];
      StrContentsEncode(init);
      assert items[..|items| - 1] == Elements(VStr(init)).value;
      Codecs.EncodeAppend(init, [s[|s| - 1]]);
      assert init + [s[|s| - 1]] == s;
      assert Codecs.Encode([s[|s| - 1]]) == Codecs.EncodeChar(s[|s| - 1]) + Codecs.Encode([]);
    }
  }

  /**
   * Dict contents convert exactly when every int key is a byte value,
   * whatever order the keys are visited in.
   */
  lemma DictContentsOk(fields: map<Key, Value>)
    ensures ContentBytes(VDict(fields)).Ok? <==> forall k :: k in fields && k.KInt? ==> 0 <= k.i < 256
  {
    var items := Elements(VDict(fields)).value;
    KeyItemsAreKeys(fields);
    assert ContentBytes(VDict(fields)) == ItemsBytes(items);
    ItemsBytesOk(items);
    if forall k :: k in fields && k.KInt? ==> 0 <= k.i < 256 {
      forall i | 0 <= i < |items| ensures ElementBytes(items[i]).Ok? {
        var k :| k in fields && items[i] == KeyValue(k);
        KeyBytesOk(k);
      }
    } else {
      var k :| k in fields && k.KInt? && !(0 <= k.i < 256);
      var i :| 0 <= i < |items| && items[i] == KeyValue(k);
      KeyBytesOk(k);
    }
  }

  /** A str key always converts; an int key converts when it is a byte value. */
  lemma KeyBytesOk(k: Key)
    ensures ElementBytes(KeyValue(k)).Ok? <==> (k.KInt? ==> 0 <= k.i < 256)
  {
  }

  /** A list of byte values gives exactly those bytes. */
  lemma {:induction false} ByteListContents(bs: seq<byte>)
    ensures ItemsBytes(seq(|bs|, i requires 0 <= i < |bs| => VInt(bs[i]))) == Ok(bs)
    decreases |bs|
  {
    var items := seq(|bs|, i requires 0 <= i < |bs| => VInt(bs[i]));
    if bs != [] {
      var init := bs[..|bs| - 1];
      ByteListContents(init);
      assert items[..|items| - 1] == seq(|init|, i requires 0 <= i < |init| => VInt(init[i]));
      assert init + [bs[|bs| - 1]] == bs;
    }
  }

  /**
   * `_gen_bytes_fixed_contents(contents)`: the loop that appends each
   * element's bytes, then the bytes literal of the result, which reads
   * back to exactly those bytes.
   */
  method GenBytesFixedContents(contents: Value) returns (r: Result<string>)
    ensures r == FixedContentsText(contents)
    ensures r.Ok? ==> ParseRepr(r.value) == Some(ContentBytes(contents).value)
  {
    var elements := Elements(contents);
    if elements.Err? {
      return Err(elements.error);
    }
    var items := elements.value;
    var byteVal: seq<byte> := [];
    var i := 0;
    while i < |items|
      invariant 0 <= i <= |items|
      invariant ItemsBytes(items[..i]) == Ok(byteVal)
    {
      var b := ElementBytes(items[i]);
      ItemsBytesStep(items, i);
      if b.Err? {
        assert items[..i + 1] + items[i + 1..] == items;
        ItemsBytesErrExtends(items[..i + 1], items[i + 1..]);
        return Err(b.error);
      }
      byteVal := byteVal + b.value;
      i := i + 1;
    }
    assert items[..i] == items;
    ParseReprRepr(byteVal);
    return Ok(Repr(byteVal));
  }

  /**
   * `gen_bytes_fn(n_bytes, contents)`: `contents` other than None wins;
   * otherwise an int `n_bytes` below 0 raises ValueError and 0 gives the
   * empty literal `b""`, and anything else (a positive count or a size
   * expression) gives `helper.rand_bytes(n)`.
   */
  function GenBytes(helper: string, n: Value, contents: Value): (r: Result<string>)
    requires contents.VNone? && !IsInt(n) ==> Scalar(n)
    ensures !contents.VNone? ==> r == FixedContentsText(contents)
    ensures contents.VNone? && IsInt(n) && IntOf(n) < 0 ==> r == Err(ValueError("`n_bytes` cannot be less than 0"))
    ensures contents.VNone? && IsInt(n) && IntOf(n) == 0 ==> r == Ok("b\"\"")
    ensures contents.VNone? && (!IsInt(n) || IntOf(n) > 0) ==> r == Ok(Call(helper, "rand_bytes", [Show(n)]))
  {
    if !contents.VNone? then FixedContentsText(contents)
    else if IsInt(n) && IntOf(n) < 0 then Err(ValueError("`n_bytes` cannot be less than 0"))
    else if IsInt(n) && IntOf(n) == 0 then Ok("b\"\"")
    else Ok(Call(helper, "rand_bytes", [Show(n)]))
  }

  /** The terminators the string generator accepts: none, or an int byte value. */
  predicate TermOk(t: Value) {
    t.VNone? || (IsInt(t) && 0 <= IntOf(t) < 256)
  }

  /** `terminator < 0 or terminator > 255` for a terminator other than None; TypeError for one with no order. */
  function TermOutOfRange(t: Value): (r: Result<bool>)
    ensures r.Ok? <==> Numeric(t)
    ensures r.Ok? ==> (r.value <==> !TermOk(t))
    ensures r.Err? ==> r.error.TypeError?
  {
    var below :- Below(t, 0);
    if below then Ok(true) else Above(t, 255)
  }

  /** `f"{terminator}"` after `terminator.to_bytes(1)`: "None", or the one-byte literal. */
  function TermText(t: Value): (r: Result<string>)
    ensures r.Ok? <==> TermOk(t)
    ensures t.VNone? ==> r == Ok("None")
    ensures r.Ok? && IsInt(t) ==> ParseRepr(r.value) == Some([IntOf(t)])
    ensures IsInt(t) && r.Err? ==> r.error == OverflowError
    ensures !t.VNone? && !IsInt(t) ==> r.Err? && r.error.AttributeError?
  {
    if t.VNone? then Ok("None")
    else if IsInt(t) then
      var b :- ToByte(IntOf(t));
      ParseReprRepr([b]);
      Ok(Repr([b]))
    else Err(AttributeError("object has no attribute 'to_bytes'"))
  }

  /** The encodings `gen_str_fn` knows, after `upper()`. */
  predicate KnownEncoding(enc: string) {
    enc == "UTF-8" || enc == "ASCII" || enc in Iso8859Names
  }

  /** The helper `gen_str_fn` calls for an encoding. */
  function StrFn(enc: string): string {
    if enc == "UTF-8" then "rand_utf8" else if enc == "ASCII" then "rand_ascii" else "rand_iso8859"
  }

  /** The argument naming the encoding, which only the ISO 8859 helper takes: the name in double quotes. */
  function EncodingArgs(enc: string): seq<string> {
    if enc in Iso8859Names then ["\"" + enc + "\""] else []
  }

  /**
   * `gen_str_fn(n_bytes, encoding, terminator)`. For an int size: ValueError
   * when it is not positive, then ValueError for a terminator outside
   * 0..255. The encoding is upper-cased (AttributeError when it is not a
   * str) and the terminator converted to one byte (OverflowError or
   * AttributeError when that fails, which a size expression lets through);
   * UTF-8, ASCII and the ISO 8859 parts pick the helper, the ISO name is
   * passed on in quotes, and any other encoding raises ValueError.
   */
  function GenStr(helper: string, n: Value, encoding: Value, terminator: Value): (r: Result<string>)
    requires Scalar(n)
    ensures r.Ok? <==> && (!IsInt(n) || IntOf(n) > 0) && TermOk(terminator)
                       && encoding.VStr? && KnownEncoding(UpperText(encoding.s))
    ensures IsInt(n) && IntOf(n) <= 0 ==> r == Err(ValueError("`n_bytes` cannot be less than or equal to 0"))
    ensures IsInt(n) && IntOf(n) > 0 && Numeric(terminator) && !TermOk(terminator) ==>
              r == Err(ValueError("`terminator` must be between 0 and 255"))
    ensures r.Ok? ==>
              var enc := UpperText(encoding.s);
              r.value == Call(helper, StrFn(enc), [Show(n)] + EncodingArgs(enc) + [TermText(terminator).value])
  {
    if IsInt(n) && IntOf(n) <= 0 then Err(ValueError("`n_bytes` cannot be less than or equal to 0"))
    else
      var outOfRange :- if IsInt(n) && !terminator.VNone? then TermOutOfRange(terminator) else Ok(false);
      if outOfRange then Err(ValueError("`terminator` must be between 0 and 255"))
      else if !encoding.VStr? then Err(AttributeError("object has no attribute 'upper'"))
      else
        var enc := UpperText(encoding.s);
        var term :- TermText(terminator);
        if KnownEncoding(enc) then Ok(Call(helper, StrFn(enc), [Show(n)] + EncodingArgs(enc) + [term]))
        else Err(ValueError("Unknown string encoding"))
  }

  /** Only the ISO 8859 helper is told the encoding. */
  lemma EncodingArgsIso(enc: string)
    requires KnownEncoding(enc)
    ensures EncodingArgs(enc) != [] <==> StrFn(enc) == "rand_iso8859"
  {
    assert "UTF-8" !in Iso8859Names && "ASCII" !in Iso8859Names;
  }

  /**
   * `gen_strz_fn(n_bytes, encoding, terminator)`: `gen_str_fn` with the
   * terminator forced to 0, whatever is passed; the emitted terminator
   * argument is the literal of the single byte 0.
   */
  function GenStrz(helper: string, n: Value, encoding: Value): (r: Result<string>)
    requires Scalar(n)
    ensures r.Ok? <==> (!IsInt(n) || IntOf(n) > 0) && encoding.VStr? && KnownEncoding(UpperText(encoding.s))
    ensures r.Ok? ==>
              var enc := UpperText(encoding.s);
              var args := [Show(n)] + EncodingArgs(enc) + [Repr([0])];
              r.value == Call(helper, StrFn(enc), args) && ParseRepr(args[|args| - 1]) == Some([0])
  {
    ParseReprRepr([0]);
    GenStr(helper, n, encoding, VInt(0))
  }

  /** `gen_enum_fn(enum_name)`: a draw from the members of the sanitised enum class. */
  function GenEnum(helper: string, enumName: string): (r: string)
    ensures CallArgs(r, helper + ".rand_choice") == Some(["list(" + Sanitiser.ClassName(enumName) + ")"])
  {
    var arg := "list(" + Sanitiser.ClassName(enumName) + ")";
    assert ',' in Sanitiser.ClassRemoved;
    assert forall i :: 0 <= i < |arg| ==> arg[i] != ',';
    CallArgsCall(helper, "rand_choice", [arg]);
    Call(helper, "rand_choice", [arg])
  }

  /** `gen_custom_type(type_name)`: the constructor call of the sanitised user type. */
  function GenCustomType(typeName: string): string {
    Sanitiser.ClassName(typeName) + "(_parent=self, _root=self._root)"
  }

  /**
   * The float generators: a bound compares against -inf and inf, which
   * never fails for a number and raises TypeError otherwise; the range is
   * then ignored and `rand_float()` (4 bytes) or `rand_double()` (8 bytes)
   * emitted.
   */
  function FloatCall(helper: string, tag: string, start: Value, end: Value): (r: Result<string>)
    ensures r.Ok? <==> Numeric(start) && Numeric(end)
    ensures r.Ok? ==> r.value == helper + "." + (if |tag| >= 2 && tag[1] == '4' then "rand_float" else "rand_double") + "()"
  {
    var below :- Below(start, 0);
    var above :- Above(end, 0);
    Ok(Call(helper, if |tag| >= 2 && tag[1] == '4' then "rand_float" else "rand_double", []))
  }

  /** The integer branch of `generate_code`: a `valid` literal, else an enum draw, else the range call. */
  function GenerateInt(helper: string, kwargs: Entry, tag: string): (r: Result<string>)
    requires tag in Types.IntTypes
    requires Scalar(GetOrNone(kwargs, "valid"))
  {
    var valid := GetOrNone(kwargs, "valid");
    if !valid.VNone? then Ok(Show(valid))
    else
      var enum := GetOrNone(kwargs, "enum");
      if !enum.VNone? then
        if enum.VStr? then Ok(GenEnum(helper, enum.s)) else Err(AttributeError("object has no attribute 'title'"))
      else
        var start :- Index(kwargs, DefaultValue.RangeMin);
        var end :- Index(kwargs, DefaultValue.RangeMax);
        RandIntCall(helper, tag, start, end)
  }

  /** The float branch of `generate_code`: a `valid` literal, else the float call. */
  function GenerateFloat(helper: string, kwargs: Entry, tag: string): (r: Result<string>)
    requires Scalar(GetOrNone(kwargs, "valid"))
  {
    var valid := GetOrNone(kwargs, "valid");
    if !valid.VNone? then Ok(Show(valid))
    else
      var start :- Index(kwargs, DefaultValue.RangeMin);
      var end :- Index(kwargs, DefaultValue.RangeMax);
      FloatCall(helper, tag, start, end)
  }

  /** The string branch of `generate_code`: the size, encoding and terminator keys must all be present. */
  function GenerateStr(helper: string, kwargs: Entry, tag: string): (r: Result<string>)
    requires "size" in kwargs ==> Scalar(kwargs["size"])
  {
    var size :- Index(kwargs, "size");
    var encoding :- Index(kwargs, "encoding");
    var terminator :- Index(kwargs, "terminator");
    if tag == "str" then GenStr(helper, size, encoding, terminator) else GenStrz(helper, size, encoding)
  }

  /** The bytes branch of `generate_code`: both `size` and `contents` must be present. */
  function GenerateBytes(helper: string, kwargs: Entry): (r: Result<string>)
    requires "size" in kwargs ==> Scalar(kwargs["size"])
  {
    var size :- Index(kwargs, "size");
    var contents :- Index(kwargs, "contents");
    GenBytes(helper, size, contents)
  }

  /**
   * The values `generate_code` formats as text are not lists or dicts: the
   * `valid` literal of a number type and the `size` of a bytes or string
   * type.
   */
  predicate Formattable(kwargs: Entry) {
    && (DefaultValue.TypedAs(kwargs, Types.IntTypes) || DefaultValue.TypedAs(kwargs, Types.FloatTypes) ==>
          Scalar(GetOrNone(kwargs, "valid")))
    && ("type" in kwargs && (kwargs["type"].VNone? || NamedIn(kwargs["type"], Types.StrTypes)) && "size" in kwargs ==>
          Scalar(kwargs["size"]))
  }

  /**
   * `generate_code(**kwargs)`: the expression for one attribute, chosen by
   * its `type`. `type` must be present (KeyError) and hashable (TypeError,
   * from the table lookup done first). Integer tags take `valid`, then
   * `enum`, then the range; float tags take `valid`, then the range; None
   * takes `size` and `contents`; `str`/`strz` take `size`, `encoding` and
   * `terminator`; any other str names a user type.
   */
  function GenerateCode(helper: string, kwargs: Entry): (r: Result<string>)
    requires Formattable(kwargs)
    ensures "type" !in kwargs ==> r == Err(KeyError("type"))
    ensures "type" in kwargs && !Hashable(kwargs["type"]) ==> r.Err? && r.error.TypeError?
    ensures "type" in kwargs && kwargs["type"].VStr? && !IsBaseType(kwargs["type"]) ==>
              r == Ok(GenCustomType(kwargs["type"].s))
    ensures "type" in kwargs && !kwargs["type"].VStr? && !IsBaseType(kwargs["type"]) && r.Err? ==>
              !r.error.KeyError?
  {
    var t :- Index(kwargs, "type");
    if !Hashable(t) then Err(TypeError("unhashable type"))
    else
      match KindOf(t)
      case Some(IntGen(tag)) => GenerateInt(helper, kwargs, tag)
      case Some(FloatGen(tag)) => GenerateFloat(helper, kwargs, tag)
      case Some(BytesGen) => GenerateBytes(helper, kwargs)
      case Some(StrGen) => GenerateStr(helper, kwargs, "str")
      case Some(StrzGen) => GenerateStr(helper, kwargs, "strz")
      case None => if t.VStr? then Ok(GenCustomType(t.s)) else Err(AttributeError("object has no attribute 'title'"))
  }

  /** Which branch of `generate_code` each base type takes. */
  lemma GenerateCodeBranches(helper: string, kwargs: Entry)
    requires Formattable(kwargs)
    ensures DefaultValue.TypedAs(kwargs, Types.IntTypes) ==>
              GenerateCode(helper, kwargs) == GenerateInt(helper, kwargs, kwargs["type"].s)
    ensures DefaultValue.TypedAs(kwargs, Types.FloatTypes) ==>
              GenerateCode(helper, kwargs) == GenerateFloat(helper, kwargs, kwargs["type"].s)
    ensures DefaultValue.TypedAs(kwargs, Types.StrTypes) ==>
              GenerateCode(helper, kwargs) == GenerateStr(helper, kwargs, kwargs["type"].s)
    ensures "type" in kwargs && kwargs["type"].VNone? ==>
              GenerateCode(helper, kwargs) == GenerateBytes(helper, kwargs)
  {
    if "type" in kwargs && kwargs["type"].VStr? {
      Types.CategoriesDisjoint(kwargs["type"].s);
    }
  }

  /** The attribute the defaults pass typed as an integer: no `valid`, no `enum`, no range of its own. */
  predicate PlainInt(e: Entry) {
    DefaultValue.TypedAs(e, Types.IntTypes) && GetOrNone(e, "valid").VNone? && GetOrNone(e, "enum").VNone?
    && DefaultValue.RangeMin !in e && DefaultValue.RangeMax !in e
  }

  /** With the whole range of its tag as bounds, the integer branch draws from that range. */
  lemma FullRangeInt(helper: string, d: Entry, tag: string)
    requires tag in Types.IntTypes && GetOrNone(d, "valid").VNone? && GetOrNone(d, "enum").VNone?
    requires DefaultValue.IntMinMax(tag).Ok?
    requires var (lo, hi) := DefaultValue.IntMinMax(tag).value;
             DefaultValue.RangeMin in d && d[DefaultValue.RangeMin] == VInt(lo)
             && DefaultValue.RangeMax in d && d[DefaultValue.RangeMax] == VInt(hi)
    ensures var (lo, hi) := DefaultValue.IntMinMax(tag).value;
            GenerateInt(helper, d, tag) == Ok(Call(helper, "rand_int", [IntText(lo), IntText(hi)]))
  {
    var (lo, hi) := DefaultValue.IntMinMax(tag).value;
    assert GenerateInt(helper, d, tag) == RandIntCall(helper, tag, VInt(lo), VInt(hi));
  }

  /**
   * After the defaults pass, a plain integer attribute is always accepted:
   * it draws from the whole range of its tag.
   */
  lemma DefaultedIntGenerates(helper: string, e: Entry)
    requires PlainInt(e)
    ensures DefaultValue.DefaultEntry(e).Ok? && Formattable(DefaultValue.DefaultEntry(e).value)
    ensures var (lo, hi) := DefaultValue.IntMinMax(e["type"].s).value;
            GenerateCode(helper, DefaultValue.DefaultEntry(e).value) == Ok(Call(helper, "rand_int", [IntText(lo), IntText(hi)]))
  {
    var tag := e["type"].s;
    Types.CategoriesDisjoint(tag);
    var d := DefaultValue.DefaultEntry(e).value;
    assert d["type"] == e["type"] && GetOrNone(d, "valid") == VNone && GetOrNone(d, "enum") == VNone;
    DefaultValue.SameTypeLists();
    FullRangeInt(helper, d, tag);
    GenerateCodeBranches(helper, d);
  }

  /** After the defaults pass, a float attribute without `valid` or a range of its own is always accepted. */
  lemma DefaultedFloatGenerates(helper: string, e: Entry)
    requires DefaultValue.TypedAs(e, Types.FloatTypes) && GetOrNone(e, "valid").VNone?
    requires DefaultValue.RangeMin !in e && DefaultValue.RangeMax !in e
    ensures DefaultValue.DefaultEntry(e).Ok? && Formattable(DefaultValue.DefaultEntry(e).value)
    ensures GenerateCode(helper, DefaultValue.DefaultEntry(e).value).Ok?
  {
    var tag := e["type"].s;
    Types.CategoriesDisjoint(tag);
    var d := DefaultValue.DefaultEntry(e).value;
    assert d["type"] == e["type"] && GetOrNone(d, "valid") == VNone;
    assert d[DefaultValue.RangeMin] == VInf(true) && d[DefaultValue.RangeMax] == VInf(false);
    GenerateCodeBranches(helper, d);
  }
}
