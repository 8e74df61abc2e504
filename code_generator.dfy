/**
 * The class-based Python 3 code generator
 * (src/backend/py3/code_generator.py): one generator class per schema,
 * whose `__init__` draws a random value for every attribute and whose
 * `generate` packs those values with `struct.pack`, and the `__main__`
 * block that writes the generated bytes to standard output.
 */
module CodeGenerator {
  import opened Results
  import opened Values
  import opened Text
  import opened Emit
  import Types
  import Const
  import DefaultValue
  import BaseTypeCodeGenerator
  import Sanitiser
  import ValueCodeGenerator
  import Ind = Indenter

  /** The name of the helper object that the emitted code calls. */
  const KsHelperInstance: string := "ks_helper"

  // ---------------------------------------------------------------------
  // `_ks_helper_fn_call`

  predicate IsDelimiter(c: char) {
    c == ',' || c == ' '
  }

  /**
   * Python's `s.rstrip(", ")`: the longest prefix of `s` that does not end
   * with a comma or a space.
   */
  function RStripDelims(s: string): (r: string)
    ensures |r| <= |s| && r == s[..|r|]
    ensures r == [] || !IsDelimiter(r[|r| - 1])
    ensures forall i :: |r| <= i < |s| ==> IsDelimiter(s[i])
  {
    if s == [] || !IsDelimiter(s[|s| - 1]) then s else RStripDelims(s[..|s| - 1])
  }

  /** The keyword arguments as `k=v` texts, in the order of the call. */
  function KwTexts(kwargs: seq<(string, string)>): (r: seq<string>)
    ensures |r| == |kwargs|
    ensures forall i :: 0 <= i < |kwargs| ==> r[i] == kwargs[i].0 + "=" + kwargs[i].1
  {
    if kwargs == [] then []
    else KwTexts(kwargs[..|kwargs| - 1]) + [kwargs[|kwargs| - 1].0 + "=" + kwargs[|kwargs| - 1].1]
  }

  /** Every piece followed by the delimiter `", "`. */
  function Delimited(ps: seq<string>): string {
    if ps == [] then [] else Delimited(ps[..|ps| - 1]) + ps[|ps| - 1] + ", "
  }

  function CallHead(fn: string): string {
    KsHelperInstance + "." + fn + "("
  }

  /**
   * What `_ks_helper_fn_call(fn, *args, **kwargs)` returns: the positional
   * arguments, then the keyword arguments, each followed by `", "`, with
   * every trailing comma and space stripped before the closing parenthesis.
   */
  function FnCallText(fn: string, args: seq<string>, kwargs: seq<(string, string)>): string {
    RStripDelims(CallHead(fn) + Delimited(args + KwTexts(kwargs))) + ")"
  }

  /** `_ks_helper_fn_call`: the call text built piece by piece, as its two loops do. */
  method KsHelperFnCall(fn: string, args: seq<string>, kwargs: seq<(string, string)>) returns (r: string)
    ensures r == FnCallText(fn, args, kwargs)
  {
    var call := KsHelperInstance + "." + fn;
    call := call + "(";
    for i := 0 to |args|
      invariant call == CallHead(fn) + Delimited(args[..i])
    {
      assert args[..i + 1][..i] == args[..i];
      call := call + args[i] + ", ";
    }
    assert args[..|args|] == args;
    var kws := KwTexts(kwargs);
    assert args + kws[..0] == args;
    for i := 0 to |kwargs|
      invariant call == CallHead(fn) + Delimited(args + kws[..i])
    {
      assert (args + kws[..i + 1])[..|args| + i] == args + kws[..i];
      assert (args + kws[..i + 1])[|args| + i] == kwargs[i].0 + "=" + kwargs[i].1;
      call := call + kwargs[i].0 + "=" + kwargs[i].1 + ", ";
    }
    assert kws[..|kwargs|] == kws;
    call := RStripDelims(call);
    r := call + ")";
  }

  /** A piece that the stripping cannot reach into: not empty, and not ending with a comma or a space. */
  predicate Clean(p: string) {
    |p| > 0 && !IsDelimiter(p[|p| - 1])
  }

  lemma {:induction false} JoinSnoc(ps: seq<string>, p: string)
    requires ps != []
    ensures Join(", ", ps + [p]) == Join(", ", ps) + ", " + p
    decreases |ps|
  {
    if |ps| == 1 {
      assert ps + [p] == [ps[0], p];
      assert [ps[0], p][1..] == [p];
    } else {
      assert (ps + [p])[1..] == ps[1..] + [p];
      JoinSnoc(ps[1..], p);
    }
  }

  /** With every piece delimited, the text is the `", "`-join of the pieces and one more delimiter. */
  lemma {:induction false} DelimitedJoin(ps: seq<string>)
    requires ps != []
    ensures Delimited(ps) == Join(", ", ps) + ", "
    decreases |ps|
  {
    var init, last := ps[..|ps| - 1], ps[|ps| - 1];
    if init == [] {
      assert Delimited(init) == [];
      assert ps == [last];
    } else {
      DelimitedJoin(init);
      JoinSnoc(init, last);
      assert init + [last] == ps;
    }
  }

  lemma {:induction false} JoinEndsWithLast(ps: seq<string>)
    requires ps != []
    ensures var j, last := Join(", ", ps), ps[|ps| - 1];
            |last| <= |j| && j[|j| - |last|..] == last
    decreases |ps|
  {
    if |ps| > 1 {
      JoinEndsWithLast(ps[1..]);
      var rest := Join(", ", ps[1..]);
      assert Join(", ", ps) == (ps[0] + ", ") + rest;
    }
  }

  lemma StripOneDelimiter(t: string)
    requires |t| > 0 && !IsDelimiter(t[|t| - 1])
    ensures RStripDelims(t + ", ") == t
  {
    assert (t + ", ")[..|t| + 1] == t + ",";
    assert (t + ",")[..|t|] == t;
  }

  /**
   * When the last piece is clean (or there is none), the stripped text is
   * exactly the call `ks_helper.fn(p1, p2, ...)` of the pieces.
   */
  lemma FnCallClean(fn: string, args: seq<string>, kwargs: seq<(string, string)>)
    requires var ps := args + KwTexts(kwargs); ps == [] || Clean(ps[|ps| - 1])
    ensures FnCallText(fn, args, kwargs) == Call(KsHelperInstance, fn, args + KwTexts(kwargs))
  {
    var ps := args + KwTexts(kwargs);
    if ps == [] {
      assert CallHead(fn) + Delimited(ps) == CallHead(fn);
    } else {
      DelimitedJoin(ps);
      JoinEndsWithLast(ps);
      var j, last := Join(", ", ps), ps[|ps| - 1];
      var t := CallHead(fn) + j;
      assert j[|j| - 1] == j[|j| - |last|..][|last| - 1];
      assert t[|t| - 1] == last[|last| - 1];
      StripOneDelimiter(t);
      assert CallHead(fn) + Delimited(ps) == t + ", ";
    }
  }

  /**
   * The stripping also eats what belongs to the arguments: an empty last
   * argument disappears together with the delimiter before it.
   */
  lemma FnCallDropsEmptyLast()
    ensures FnCallText("f", ["a", ""], []) == "ks_helper.f(a)"
    ensures Call(KsHelperInstance, "f", ["a", ""]) == "ks_helper.f(a, )"
  {
    var ps := ["a", ""] + KwTexts([]);
    assert ps == ["a", ""];
    DelimitedTwo("a", "");
    var t := "ks_helper.f(a";
    assert CallHead("f") + Delimited(ps) == t + ", , ";
    StripTwoDelimiters(t);
    assert Join(", ", ["a", ""]) == "a, ";
  }

  lemma DelimitedTwo(a: string, b: string)
    ensures Delimited([a, b]) == a + ", " + b + ", "
  {
    assert [a, b][..1] == [a];
    assert Delimited([a]) == a + ", ";
  }

  lemma StripTwoDelimiters(t: string)
    requires |t| > 0 && !IsDelimiter(t[|t| - 1])
    ensures RStripDelims(t + ", , ") == t
  {
    assert (t + ", , ")[..|t| + 3] == t + ", ,";
    assert (t + ", ,")[..|t| + 2] == t + ", ";
    StripOneDelimiter(t);
  }

  // ---------------------------------------------------------------------
  // The `struct` formats of `generate`

  /**
   * The `struct.pack` format that `generate` writes for a tag: the byte
   * order, then the format character. Only one-byte tags and tags with an
   * explicit `le`/`be` suffix have one.
   */
  function StructFormat(tag: string): Option<string> {
    match tag
    case "u1" => Some("B")
    case "u2le" => Some("<H")
    case "u2be" => Some(">H")
    case "u4le" => Some("<I")
    case "u4be" => Some(">I")
    case "u8le" => Some("<Q")
    case "u8be" => Some(">Q")
    case "s1" => Some("b")
    case "s2le" => Some("<h")
    case "s2be" => Some(">h")
    case "s4le" => Some("<i")
    case "s4be" => Some(">i")
    case "s8le" => Some("<q")
    case "s8be" => Some(">q")
    case "f4le" => Some("<f")
    case "f4be" => Some(">f")
    case "f8le" => Some("<d")
    case "f8be" => Some(">d")
    case _ => None
  }

  /** The byte-order character of the `struct` module that a tag's suffix asks for. */
  function OrderOf(tag: string): string {
    if |tag| == 4 && tag[2..] == "le" then "<"
    else if |tag| == 4 && tag[2..] == "be" then ">"
    else ""
  }

  /**
   * The standard size in bytes of a `struct` format character, and for the
   * integer ones whether it is signed (lower case) — as the `struct`
   * module's format table defines them.
   */
  function IntCode(c: char): Option<(bool, Const.Width)> {
    match c
    case 'B' => Some((false, Const.W1))
    case 'b' => Some((true, Const.W1))
    case 'H' => Some((false, Const.W2))
    case 'h' => Some((true, Const.W2))
    case 'I' => Some((false, Const.W4))
    case 'i' => Some((true, Const.W4))
    case 'Q' => Some((false, Const.W8))
    case 'q' => Some((true, Const.W8))
    case _ => None
  }

  function FloatCodeSize(c: char): Option<Const.Width> {
    if c == 'f' then Some(Const.W4) else if c == 'd' then Some(Const.W8) else None
  }

  /** The integers `struct.pack` accepts for an integer format character of this signedness and width. */
  function PackRange(signed: bool, w: Const.Width): (int, int) {
    var k := Const.Bytes(w);
    if signed then (-(Const.Pow2(8 * k - 1) as int), Const.Pow2(8 * k - 1) - 1) else (0, Const.Pow2(8 * k) - 1)
  }

  /** The tags that have a format: the integer and float tags of one byte or with a byte-order suffix. */
  predicate Packable(tag: string) {
    (tag in Types.IntTypes || tag in Types.FloatTypes) && (NameWidth(tag) == Some(Const.W1) || OrderOf(tag) != "")
  }

  /**
   * The format of an integer tag: the byte order of its suffix and a
   * character with the tag's width and signedness.
   */
  predicate IntFormatFits(tag: string, f: string) {
    |f| >= 1 && f[..|f| - 1] == OrderOf(tag) && NameWidth(tag).Some?
    && IntCode(f[|f| - 1]) == Some((tag[0] == 's', NameWidth(tag).value))
  }

  /** The format of a float tag: the byte order of its suffix and a character with the tag's width. */
  predicate FloatFormatFits(tag: string, f: string) {
    |f| >= 1 && f[..|f| - 1] == OrderOf(tag)
    && FloatCodeSize(f[|f| - 1]) == NameWidth(tag)
  }

  lemma StructFormatInt1(tag: string)
    requires tag in ["u1", "s1"]
    ensures tag in Types.IntTypes && Packable(tag)
    ensures StructFormat(tag).Some? && IntFormatFits(tag, StructFormat(tag).value)
  {
  }

  lemma StructFormatInt2(tag: string)
    requires tag in ["u2le", "u2be", "s2le", "s2be"]
    ensures tag in Types.IntTypes && Packable(tag)
    ensures StructFormat(tag).Some? && IntFormatFits(tag, StructFormat(tag).value)
  {
  }

  lemma StructFormatInt4(tag: string)
    requires tag in ["u4le", "u4be", "s4le", "s4be"]
    ensures tag in Types.IntTypes && Packable(tag)
    ensures StructFormat(tag).Some? && IntFormatFits(tag, StructFormat(tag).value)
  {
  }

  lemma StructFormatInt8(tag: string)
    requires tag in ["u8le", "u8be", "s8le", "s8be"]
    ensures tag in Types.IntTypes && Packable(tag)
    ensures StructFormat(tag).Some? && IntFormatFits(tag, StructFormat(tag).value)
  {
  }

  lemma StructFormatFloat(tag: string)
    requires tag in ["f4le", "f4be", "f8le", "f8be"]
    ensures tag in Types.FloatTypes && Packable(tag)
    ensures StructFormat(tag).Some? && FloatFormatFits(tag, StructFormat(tag).value)
  {
  }

  /** The tags without a format: the integer tags of 2, 4 or 8 bytes with no suffix, and the float tags with none. */
  lemma UnpackableIntTags(tag: string)
    requires tag in ["u2", "u4", "u8", "s2", "s4", "s8"]
    ensures tag in Types.IntTypes
    ensures !Packable(tag) && StructFormat(tag).None?
  {
  }

  lemma UnpackableFloatTags(tag: string)
    requires tag in ["f4", "f8"]
    ensures tag in Types.FloatTypes
    ensures !Packable(tag) && StructFormat(tag).None?
  {
  }

  /**
   * `generate` has a format for a tag exactly when the tag is a one-byte or
   * suffixed integer or float tag; the format carries the byte order of
   * the suffix and a character of the tag's width (and, for an integer,
   * its signedness).
   */
  lemma StructFormatMeaning(tag: string)
    ensures StructFormat(tag).Some? <==> Packable(tag)
    ensures tag in Types.IntTypes && StructFormat(tag).Some? ==> IntFormatFits(tag, StructFormat(tag).value)
    ensures tag in Types.FloatTypes && StructFormat(tag).Some? ==> FloatFormatFits(tag, StructFormat(tag).value)
  {
    Types.CategoriesDisjoint(tag);
    if tag in ["u1", "s1"] {
      StructFormatInt1(tag);
    } else if tag in ["u2le", "u2be", "s2le", "s2be"] {
      StructFormatInt2(tag);
    } else if tag in ["u4le", "u4be", "s4le", "s4be"] {
      StructFormatInt4(tag);
    } else if tag in ["u8le", "u8be", "s8le", "s8be"] {
      StructFormatInt8(tag);
    } else if tag in ["f4le", "f4be", "f8le", "f8be"] {
      StructFormatFloat(tag);
    } else if tag in ["u2", "u4", "u8", "s2", "s4", "s8"] {
      UnpackableIntTags(tag);
    } else if tag in ["f4", "f8"] {
      UnpackableFloatTags(tag);
    } else {
      BaseTagsCovered(tag);
    }
  }

  lemma BaseTagsCovered(tag: string)
    requires tag !in ["u1", "s1"] && tag !in ["u2le", "u2be", "s2le", "s2be"]
    requires tag !in ["u4le", "u4be", "s4le", "s4be"] && tag !in ["u8le", "u8be", "s8le", "s8be"]
    requires tag !in ["f4le", "f4be", "f8le", "f8be"]
    requires tag !in ["u2", "u4", "u8", "s2", "s4", "s8"] && tag !in ["f4", "f8"]
    ensures tag !in Types.IntTypes && tag !in Types.FloatTypes && StructFormat(tag).None?
  {
  }

  /**
   * Every integer the schema's range for a packable integer tag allows is
   * one that `struct.pack` accepts with the tag's format: the defaults
   * range of the tag and the range of its format character coincide.
   */
  lemma PackRangeIsTagRange(tag: string, f: string)
    requires tag in Types.IntTypes && StructFormat(tag) == Some(f)
    ensures |f| >= 1 && IntCode(f[|f| - 1]).Some?
    ensures var (signed, w) := IntCode(f[|f| - 1]).value;
            DefaultValue.IntMinMax(tag) == Ok(PackRange(signed, w))
  {
    StructFormatMeaning(tag);
    var (signed, w) := IntCode(f[|f| - 1]).value;
    TagsOfSignedWidth(tag, signed, w);
    PackRangeOfTags(signed, w, tag);
  }

  lemma PackRangeOfTags(signed: bool, w: Const.Width, tag: string)
    requires tag in DefaultValue.Tags(signed, w)
    ensures DefaultValue.IntMinMax(tag) == Ok(PackRange(signed, w))
  {
    DefaultValue.IntMinMaxPowers(signed, w, tag);
  }

  lemma TagsOfSignedWidth(tag: string, signed: bool, w: Const.Width)
    requires tag in Types.IntTypes && NameWidth(tag) == Some(w) && signed == (tag[0] == 's')
    ensures tag in DefaultValue.Tags(signed, w)
  {
    DefaultValue.IntTypesByCase();
  }

  // ---------------------------------------------------------------------
  // `generate_seq_entry`

  /** The attributes whose `id` the model can spell with `f"{...}"` (see `Emit.Show`). */
  predicate IdShown(e: Entry) {
    "id" in e ==> Scalar(e["id"])
  }

  /**
   * The attributes `generate_seq_entry` accepts: an `id`, an integer tag,
   * and both range keys, with the range inside the tag's bounds.
   */
  predicate Drawable(e: Entry) {
    && "id" in e && "type" in e && NamedIn(e["type"], Types.IntTypes)
    && DefaultValue.RangeMin in e && DefaultValue.RangeMax in e
    && DefaultValue.IntMinMax(e["type"].s).Ok?
    && NotBelow(e[DefaultValue.RangeMin], DefaultValue.IntMinMax(e["type"].s).value.0)
    && NotAbove(e[DefaultValue.RangeMax], DefaultValue.IntMinMax(e["type"].s).value.1)
  }

  /**
   * The one statement `generate_seq_entry` emits for an attribute, before
   * indentation. `id`, then `type` must be present (KeyError); the tag is
   * looked up first (TypeError, KeyError), then both range keys are read
   * (KeyError), then the generator is called, which accepts only integer
   * tags with a range inside the tag's bounds.
   */
  function EntryLine(e: Entry): (r: Result<string>)
    requires IdShown(e)
    ensures r.Ok? <==> Drawable(e)
    ensures "id" !in e ==> r == Err(KeyError("id"))
    ensures "id" in e && "type" !in e ==> r == Err(KeyError("type"))
    ensures "id" in e && "type" in e && LookupGen(e["type"]).Err? ==> r == Err(LookupGen(e["type"]).error)
    ensures r.Ok? ==> r.value == "self." + Show(e["id"]) + " = "
                                 + Call(KsHelperInstance, "rand_int", [Show(e[DefaultValue.RangeMin]), Show(e[DefaultValue.RangeMax])])
                                 + "  # TODO"
  {
    var id :- Index(e, "id");
    var name := Show(id);
    var t :- Index(e, "type");
    var g :- LookupGen(t);
    var start :- Index(e, DefaultValue.RangeMin);
    var end :- Index(e, DefaultValue.RangeMax);
    Types.CategoriesDisjoint(if t.VStr? then t.s else "");
    DefaultValue.SameTypeLists();
    var call :- BaseTypeCodeGenerator.GenWithRange(KsHelperInstance, t, start, end);
    Ok("self." + name + " = " + call + "  # TODO")
  }

  /** A line of generated code: four spaces per indentation level, the text, a line feed. */
  function Line(level: nat, text: string): string {
    Repeat(" ", 4 * level) + text + "\n"
  }

  /**
   * The indenter of the generator (`Indenter(add_newline=True)`, four
   * spaces a level) turns a text into its `Line`, whether or not the text
   * already ends with its line feed.
   */
  lemma IndentedLine(level: nat, text: string)
    requires !Ind.EndsWithFeed(text)
    ensures Ind.Indented(" ", 4, level, true, text) == Line(level, text)
    ensures Ind.Indented(" ", 4, level, true, text + "\n") == Line(level, text)
  {
    Ind.IndentByShape(" ", 4 * level, true, text);
    Ind.IndentByShape(" ", 4 * level, true, text + "\n");
  }

  lemma LineAtZero(text: string)
    ensures Line(0, text) == text + "\n"
  {
    assert Repeat(" ", 4 * 0) == [];
  }

  lemma EndsWith(a: string, b: string)
    requires |b| > 0 && b[|b| - 1] != '\n'
    ensures !Ind.EndsWithFeed(a + b)
  {
    assert (a + b)[|a + b| - 1] == b[|b| - 1];
  }

  /**
   * `generate_seq_entry(seq_entry)`: the statement of `EntryLine` in a
   * one-line list, put through a fresh indenter at level 0, which only
   * adds the line feed.
   */
  method GenerateSeqEntry(e: Entry) returns (r: Result<seq<string>>)
    requires IdShown(e)
    ensures r.Ok? <==> EntryLine(e).Ok?
    ensures r.Err? ==> r.error == EntryLine(e).error
    ensures r.Ok? ==> r.value == [Line(0, EntryLine(e).value)]
  {
    var line := EntryLine(e);
    if line.Err? {
      return Err(line.error);
    }
    var indenter := new Ind.Indenter(4, " ", true);
    var code := new Ind.LineList([line.value]);
    code := indenter.ApplyList(code);
    EntryLineClean(e);
    IndentedLine(0, line.value);
    return Ok(code.items);
  }

  lemma EntryLineClean(e: Entry)
    requires IdShown(e) && EntryLine(e).Ok?
    ensures !Ind.EndsWithFeed(EntryLine(e).value)
  {
    var x := "self." + Show(e["id"]) + " = "
             + Call(KsHelperInstance, "rand_int", [Show(e[DefaultValue.RangeMin]), Show(e[DefaultValue.RangeMax])]);
    assert EntryLine(e).value == x + "  # TODO";
    EndsWith(x, "  # TODO");
  }

  // ---------------------------------------------------------------------
  // `generate_class`

  /**
   * The statement `generate` writes to pack an attribute. `id` and `type`
   * must be present (KeyError); a tag without a `struct` format is
   * NotImplementedError.
   */
  function PackLine(e: Entry): (r: Result<string>)
    requires IdShown(e)
    ensures r.Ok? <==> "id" in e && "type" in e && e["type"].VStr? && StructFormat(e["type"].s).Some?
    ensures "id" !in e ==> r == Err(KeyError("id"))
    ensures "id" in e && "type" !in e ==> r == Err(KeyError("type"))
    ensures "id" in e && "type" in e && r.Err? ==> r == Err(NotImplementedError)
  {
    var id :- Index(e, "id");
    var t :- Index(e, "type");
    var format := if t.VStr? then StructFormat(t.s) else None;
    if format.None? then Err(NotImplementedError)
    else Ok("result.append(struct.pack('" + format.value + "', self." + Show(id) + "))")
  }

  /** The two passes of `generate_class` over the attributes: `__init__` and `generate`. */
  datatype Pass = Init | Generate

  function PassLine(pass: Pass, e: Entry): Result<string>
    requires IdShown(e)
  {
    match pass
    case Init => EntryLine(e)
    case Generate => PackLine(e)
  }

  /** An attribute both passes of `generate_class` accept. */
  predicate Ready(d: Entry) {
    IdShown(d) && Drawable(d) && StructFormat(d["type"].s).Some?
  }

  predicate AllShown(es: seq<Entry>) {
    forall i :: 0 <= i < |es| ==> IdShown(es[i])
  }

  /** What one pass makes of each attribute, in order. */
  function Outcomes(pass: Pass, es: seq<Entry>): (r: seq<Result<string>>)
    requires AllShown(es)
    ensures |r| == |es| && forall i :: 0 <= i < |es| ==> r[i] == PassLine(pass, es[i])
  {
    seq(|es|, i requires 0 <= i < |es| => PassLine(pass, es[i]))
  }

  /**
   * The lines of a pass, two levels deep, one per outcome in order; the
   * pass fails with the first error.
   */
  function Collect(rs: seq<Result<string>>): (r: Result<seq<string>>)
    ensures r.Ok? <==> forall i :: 0 <= i < |rs| ==> rs[i].Ok?
    ensures r.Ok? ==> |r.value| == |rs|
    ensures r.Ok? ==> forall i :: 0 <= i < |rs| ==> r.value[i] == Line(2, rs[i].value)
  {
    if rs == [] then Ok([])
    else
      var init :- Collect(rs[..|rs| - 1]);
      var l :- rs[|rs| - 1];
      Ok(init + [Line(2, l)])
  }

  /** Once a pass fails on a prefix, more outcomes do not change the error. */
  lemma {:induction false} CollectErrExtends(a: seq<Result<string>>, b: seq<Result<string>>)
    requires Collect(a).Err?
    ensures Collect(a + b) == Collect(a)
    decreases |b|
  {
    if b != [] {
      var ab := a + b;
      assert ab[..|ab| - 1] == a + b[..|b| - 1];
      CollectErrExtends(a, b[..|b| - 1]);
    } else {
      assert a + b == a;
    }
  }

  /** One more successful outcome adds its line at the end. */
  lemma CollectSnoc(a: seq<Result<string>>, x: Result<string>)
    requires Collect(a).Ok? && x.Ok?
    ensures Collect(a + [x]) == Ok(Collect(a).value + [Line(2, x.value)])
  {
    assert (a + [x])[..|a|] == a;
  }

  function PassLines(pass: Pass, es: seq<Entry>): Result<seq<string>>
    requires AllShown(es)
  {
    Collect(Outcomes(pass, es))
  }

  /** The outcomes of a longer prefix: one more at the end. */
  lemma OutcomesSnoc(pass: Pass, es: seq<Entry>, i: nat)
    requires AllShown(es) && i < |es|
    ensures AllShown(es[..i]) && AllShown(es[..i + 1])
    ensures Outcomes(pass, es[..i + 1]) == Outcomes(pass, es[..i]) + [PassLine(pass, es[i])]
  {
  }

  function Header(name: string): seq<string> {
    [Line(0, "class " + name + "():"), Line(0, "    def __init__(self) -> None:"), Line(0, "        pass")]
  }

  function Middle(): seq<string> {
    [Line(0, ""), Line(1, "def generate(self) -> bytes:"), Line(1, "    result = SeekableBuffer()")]
  }

  function Footer(): seq<string> {
    [Line(2, "result.seek(0)"), Line(2, "return result.get_data()"), Line(2, "")]
  }

  /**
   * What `generate_class(class_name, seq)` returns: the class header with
   * the sanitised name, one `__init__` statement per attribute, the
   * `generate` header, one packing statement per attribute, and the
   * closing lines.
   */
  function ClassText(className: string, es: seq<Entry>): Result<seq<string>>
    requires AllShown(es)
  {
    var inits :- PassLines(Init, es);
    var packs :- PassLines(Generate, es);
    Ok(Header(Sanitiser.ClassName(className)) + inits + Middle() + packs + Footer())
  }

  /** An indenter as `generate_class` has it while it writes a pass: four spaces, line feeds on, level 2. */
  predicate AtPassLevel(indenter: Ind.Indenter)
    reads indenter
  {
    indenter.level == 2 && indenter.indentation == 4 && indenter.indentChar == " " && indenter.addNewline
  }

  /**
   * The first loop of `generate_class`: each attribute's `generate_seq_entry`
   * list, indented two levels, extends `code`; the first failure stops it.
   */
  method InitStatements(indenter: Ind.Indenter, code: Ind.LineList, es: seq<Entry>) returns (r: Result<seq<string>>)
    requires AllShown(es) && AtPassLevel(indenter)
    modifies code
    ensures r == PassLines(Init, es)
    ensures r.Ok? ==> code.items == old(code.items) + r.value
  {
    for i := 0 to |es|
      invariant AllShown(es[..i]) && PassLines(Init, es[..i]).Ok?
      invariant code.items == old(code.items) + PassLines(Init, es[..i]).value
    {
      var lines := GenerateSeqEntry(es[i]);
      if lines.Err? {
        StopsAt(Init, es, i);
        return Err(lines.error);
      }
      var line := EntryLine(es[i]).value;
      var list := new Ind.LineList(lines.value);
      list := indenter.ApplyList(list);
      EntryLineClean(es[i]);
      IndentedLine(2, line);
      LineAtZero(line);
      assert list.items == [Line(2, line)];
      PassStep(Init, es, i);
      code.items := code.items + list.items;
    }
    assert es[..|es|] == es;
    return PassLines(Init, es);
  }

  /**
   * The second loop of `generate_class`: each attribute's packing statement
   * is appended two levels deep; a tag without a format stops it.
   */
  method PackStatements(indenter: Ind.Indenter, code: Ind.LineList, es: seq<Entry>) returns (r: Result<seq<string>>)
    requires AllShown(es) && AtPassLevel(indenter)
    modifies code
    ensures r == PassLines(Generate, es)
    ensures r.Ok? ==> code.items == old(code.items) + r.value
  {
    for i := 0 to |es|
      invariant AllShown(es[..i]) && PassLines(Generate, es[..i]).Ok?
      invariant code.items == old(code.items) + PassLines(Generate, es[..i]).value
    {
      var line := PackLine(es[i]);
      if line.Err? {
        StopsAt(Generate, es, i);
        return Err(line.error);
      }
      PackLineClean(es[i]);
      IndentedLine(2, line.value);
      PassStep(Generate, es, i);
      var _ := indenter.AppendLine(line.value, code);
    }
    assert es[..|es|] == es;
    return PassLines(Generate, es);
  }

  /**
   * The start of `generate_class`: a fresh indenter with line feeds on,
   * the class header applied at level 0, then two levels in.
   */
  method OpenClass(name: string) returns (indenter: Ind.Indenter, code: Ind.LineList)
    ensures fresh(indenter) && fresh(code)
    ensures AtPassLevel(indenter) && code.items == Header(name)
  {
    indenter := new Ind.Indenter(4, " ", true);
    code := new Ind.LineList(["class " + name + "():", "    def __init__(self) -> None:", "        pass"]);
    code := indenter.ApplyList(code);
    HeaderApplied(indenter, name);
    var _ := indenter.Indent(2);
  }

  /**
   * Between the two loops: a bare line feed, one level out for the
   * `generate` header, then back to level 2.
   */
  method OpenGenerate(indenter: Ind.Indenter, code: Ind.LineList)
    requires AtPassLevel(indenter)
    modifies indenter, code
    ensures AtPassLevel(indenter) && code.items == old(code.items) + Middle()
  {
    code.items := code.items + ["\n"];
    var _ := indenter.Unindent(1);
    var tail := new Ind.LineList(["def generate(self) -> bytes:", "    result = SeekableBuffer()"]);
    tail := indenter.ApplyList(tail);
    MiddleApplied(indenter);
    code.items := code.items + tail.items;
    var _ := indenter.Indent(1);
  }

  /** The end of `generate_class`: the closing statements and a line of indentation alone. */
  method CloseGenerate(indenter: Ind.Indenter, code: Ind.LineList)
    requires AtPassLevel(indenter)
    modifies code
    ensures code.items == old(code.items) + Footer()
  {
    var fin := new Ind.LineList(["result.seek(0)", "return result.get_data()"]);
    fin := indenter.ApplyList(fin);
    FooterApplied(indenter);
    code.items := code.items + fin.items;
    var _ := indenter.AppendLine("\n", code);
  }

  /**
   * `generate_class`: the header, the `__init__` pass, the `generate`
   * header, the `generate` pass and the closing lines, in one list; the
   * first failure of either pass is the result.
   */
  method GenerateClass(className: string, es: seq<Entry>) returns (r: Result<seq<string>>)
    requires AllShown(es)
    ensures r == ClassText(className, es)
  {
    var name := Sanitiser.SanitiseClassName(className);
    var indenter, code := OpenClass(name);
    var inits := InitStatements(indenter, code, es);
    ClassTextParts(className, es);
    if inits.Err? {
      return Err(inits.error);
    }
    OpenGenerate(indenter, code);
    var packs := PackStatements(indenter, code, es);
    if packs.Err? {
      return Err(packs.error);
    }
    CloseGenerate(indenter, code);
    return Ok(code.items);
  }

  /** A pass that succeeded on the first `i` attributes and succeeds on the next one adds its line. */
  lemma PassStep(pass: Pass, es: seq<Entry>, i: nat)
    requires AllShown(es) && i < |es|
    requires PassLines(pass, es[..i]).Ok? && PassLine(pass, es[i]).Ok?
    ensures AllShown(es[..i + 1])
    ensures PassLines(pass, es[..i + 1]) == Ok(PassLines(pass, es[..i]).value + [Line(2, PassLine(pass, es[i]).value)])
  {
    OutcomesSnoc(pass, es, i);
    CollectSnoc(Outcomes(pass, es[..i]), PassLine(pass, es[i]));
  }

  /** A pass that fails on attribute `i`, after all before it succeeded, fails with that error. */
  lemma StopsAt(pass: Pass, es: seq<Entry>, i: nat)
    requires AllShown(es) && i < |es|
    requires PassLines(pass, es[..i]).Ok? && PassLine(pass, es[i]).Err?
    ensures PassLines(pass, es) == Err(PassLine(pass, es[i]).error)
  {
    var os := Outcomes(pass, es);
    assert os[..i] == Outcomes(pass, es[..i]);
    CollectStops(os, i);
  }

  lemma CollectStops(rs: seq<Result<string>>, i: nat)
    requires i < |rs| && Collect(rs[..i]).Ok? && rs[i].Err?
    ensures Collect(rs) == Err(rs[i].error)
  {
    var a := rs[..i + 1];
    assert a[..|a| - 1] == rs[..i];
    assert a[|a| - 1] == rs[i];
    assert Collect(a) == Err(rs[i].error);
    CollectErrExtends(a, rs[i + 1..]);
    assert a + rs[i + 1..] == rs;
  }

  lemma ClassTextParts(className: string, es: seq<Entry>)
    requires AllShown(es)
    ensures PassLines(Init, es).Err? ==> ClassText(className, es) == Err(PassLines(Init, es).error)
    ensures PassLines(Init, es).Ok? && PassLines(Generate, es).Err? ==> ClassText(className, es) == Err(PassLines(Generate, es).error)
    ensures PassLines(Init, es).Ok? && PassLines(Generate, es).Ok? ==>
              ClassText(className, es)
              == Ok(Header(Sanitiser.ClassName(className)) + PassLines(Init, es).value + Middle() + PassLines(Generate, es).value + Footer())
  {
  }

  lemma HeaderApplied(indenter: Ind.Indenter, name: string)
    requires indenter.level == 0 && indenter.indentation == 4 && indenter.indentChar == " " && indenter.addNewline
    ensures indenter.Applied(["class " + name + "():", "    def __init__(self) -> None:", "        pass"]) == Header(name)
  {
    EndsWith("class " + name, "():");
    assert "class " + name + "():" == ("class " + name) + "():";
    IndentedLine(0, "class " + name + "():");
    IndentedLine(0, "    def __init__(self) -> None:");
    IndentedLine(0, "        pass");
  }

  lemma MiddleApplied(indenter: Ind.Indenter)
    requires indenter.level == 1 && indenter.indentation == 4 && indenter.indentChar == " " && indenter.addNewline
    ensures ["\n"] + indenter.Applied(["def generate(self) -> bytes:", "    result = SeekableBuffer()"]) == Middle()
  {
    LineAtZero("");
    assert "" + "\n" == "\n";
    IndentedLine(1, "def generate(self) -> bytes:");
    IndentedLine(1, "    result = SeekableBuffer()");
  }

  lemma FooterApplied(indenter: Ind.Indenter)
    requires AtPassLevel(indenter)
    ensures indenter.Applied(["result.seek(0)", "return result.get_data()"]) + [indenter.ApplyToLine("\n")] == Footer()
  {
    IndentedLine(2, "result.seek(0)");
    IndentedLine(2, "return result.get_data()");
    IndentedLine(2, "");
    assert "" + "\n" == "\n";
  }

  lemma PackLineClean(e: Entry)
    requires IdShown(e) && PackLine(e).Ok?
    ensures !Ind.EndsWithFeed(PackLine(e).value)
  {
    var t := e["type"].s;
    var x := "result.append(struct.pack('" + StructFormat(t).value + "', self." + Show(e["id"]);
    assert PackLine(e).value == x + "))";
    EndsWith(x, "))");
  }

  // ---------------------------------------------------------------------
  // What a generated class is

  /** `generate_class` accepts the attributes exactly when each is drawable and its tag has a format. */
  lemma ClassTextOk(className: string, es: seq<Entry>)
    requires AllShown(es)
    ensures ClassText(className, es).Ok?
            <==> forall i :: 0 <= i < |es| ==> Ready(es[i])
  {
    ClassTextParts(className, es);
    var inits, packs := Outcomes(Init, es), Outcomes(Generate, es);
    assert PassLines(Init, es).Ok? <==> forall i :: 0 <= i < |es| ==> inits[i].Ok?;
    assert PassLines(Generate, es).Ok? <==> forall i :: 0 <= i < |es| ==> packs[i].Ok?;
  }

  /** The attribute expression both passes use: `self.` and the `id`. */
  function Attr(e: Entry): string
    requires "id" in e && Scalar(e["id"])
  {
    "self." + Show(e["id"])
  }

  /**
   * The layout of a generated class: the header naming the sanitised
   * class, then for attribute `i` its `__init__` statement on line `3 + i`
   * and its packing statement in `generate` on line `6 + n + i`, both two
   * levels deep; `2n + 9` lines in all.
   */
  lemma ClassTextLayout(className: string, es: seq<Entry>)
    requires AllShown(es) && ClassText(className, es).Ok?
    ensures forall i :: 0 <= i < |es| ==> EntryLine(es[i]).Ok? && PackLine(es[i]).Ok?
    ensures var v, n := ClassText(className, es).value, |es|;
            && |v| == 2 * n + 9
            && v[0] == "class " + Sanitiser.ClassName(className) + "():\n"
            && forall i :: 0 <= i < n ==>
                 v[3 + i] == Line(2, EntryLine(es[i]).value) && v[6 + n + i] == Line(2, PackLine(es[i]).value)
  {
    ClassTextParts(className, es);
    var name := Sanitiser.ClassName(className);
    LineAtZero("class " + name + "():");
    var inits, packs := PassLines(Init, es).value, PassLines(Generate, es).value;
    var os, ps := Outcomes(Init, es), Outcomes(Generate, es);
    Sections(Header(name), inits, Middle(), packs, Footer());
    forall i | 0 <= i < |es|
      ensures EntryLine(es[i]).Ok? && PackLine(es[i]).Ok?
      ensures inits[i] == Line(2, EntryLine(es[i]).value) && packs[i] == Line(2, PackLine(es[i]).value)
    {
      assert os[i] == EntryLine(es[i]) && ps[i] == PackLine(es[i]);
      assert os[i].Ok? && ps[i].Ok?;
    }
  }

  lemma Sections(h: seq<string>, inits: seq<string>, m: seq<string>, packs: seq<string>, f: seq<string>)
    requires |h| == 3 && |m| == 3 && |f| == 3 && |inits| == |packs|
    ensures var v, n := h + inits + m + packs + f, |inits|;
            && |v| == 2 * n + 9 && v[0] == h[0]
            && forall i :: 0 <= i < n ==> v[3 + i] == inits[i] && v[6 + n + i] == packs[i]
  {
  }

  /** Every line ends with a line feed. */
  predicate Complete(ls: seq<string>) {
    forall j :: 0 <= j < |ls| ==> Ind.EndsWithFeed(ls[j])
  }

  lemma CollectComplete(rs: seq<Result<string>>)
    requires Collect(rs).Ok?
    ensures Complete(Collect(rs).value)
  {
    var v := Collect(rs).value;
    forall j | 0 <= j < |v|
      ensures Ind.EndsWithFeed(v[j])
    {
      LineEnds(2, rs[j].value);
    }
  }

  lemma CompleteConcat(a: seq<string>, b: seq<string>)
    requires Complete(a) && Complete(b)
    ensures Complete(a + b)
  {
    forall j | 0 <= j < |a + b|
      ensures Ind.EndsWithFeed((a + b)[j])
    {
      if j >= |a| {
        assert (a + b)[j] == b[j - |a|];
      }
    }
  }

  lemma FixedComplete(name: string)
    ensures Complete(Header(name)) && Complete(Middle()) && Complete(Footer())
  {
    HeaderComplete(name);
    MiddleComplete();
    FooterComplete();
  }

  lemma HeaderComplete(name: string)
    ensures Complete(Header(name))
  {
    LineEnds(0, "class " + name + "():");
    LineEnds(0, "    def __init__(self) -> None:");
    LineEnds(0, "        pass");
  }

  lemma MiddleComplete()
    ensures Complete(Middle())
  {
    LineEnds(0, "");
    LineEnds(1, "def generate(self) -> bytes:");
    LineEnds(1, "    result = SeekableBuffer()");
  }

  lemma FooterComplete()
    ensures Complete(Footer())
  {
    LineEnds(2, "result.seek(0)");
    LineEnds(2, "return result.get_data()");
    LineEnds(2, "");
  }

  /** Every line of a generated class ends with a line feed, so `writelines` writes whole lines. */
  lemma ClassLinesComplete(className: string, es: seq<Entry>)
    requires AllShown(es) && ClassText(className, es).Ok?
    ensures Complete(ClassText(className, es).value)
  {
    ClassTextParts(className, es);
    var name := Sanitiser.ClassName(className);
    var inits, packs := PassLines(Init, es).value, PassLines(Generate, es).value;
    CollectComplete(Outcomes(Init, es));
    CollectComplete(Outcomes(Generate, es));
    FixedComplete(name);
    CompleteConcat(Header(name), inits);
    CompleteConcat(Header(name) + inits, Middle());
    CompleteConcat(Header(name) + inits + Middle(), packs);
    CompleteConcat(Header(name) + inits + Middle() + packs, Footer());
  }

  lemma LineEnds(level: nat, t: string)
    ensures Ind.EndsWithFeed(Line(level, t))
  {
  }

  /**
   * What a generated class packs is what it drew: a drawable attribute
   * with a format has an integer tag whose format character takes exactly
   * the integers of the tag's range, so every integer between the
   * attribute's bounds packs without error.
   */
  lemma DrawnValuesPack(e: Entry, f: string)
    requires Drawable(e) && StructFormat(e["type"].s) == Some(f)
    ensures |f| >= 1 && IntCode(f[|f| - 1]).Some?
    ensures var (lo, hi) := PackRange(IntCode(f[|f| - 1]).value.0, IntCode(f[|f| - 1]).value.1);
            && (IsInt(e[DefaultValue.RangeMin]) ==> lo <= IntOf(e[DefaultValue.RangeMin]))
            && (IsInt(e[DefaultValue.RangeMax]) ==> IntOf(e[DefaultValue.RangeMax]) <= hi)
  {
    PackRangeIsTagRange(e["type"].s, f);
  }

  /** The generated float formats `<f`, `>f`, `<d`, `>d` are never written: no float attribute gets past `__init__`. */
  lemma NoFloatPacked(className: string, es: seq<Entry>)
    requires AllShown(es) && ClassText(className, es).Ok?
    ensures forall i :: 0 <= i < |es| ==> es[i]["type"].s !in Types.FloatTypes
  {
    ClassTextOk(className, es);
    forall i | 0 <= i < |es|
      ensures es[i]["type"].s !in Types.FloatTypes
    {
      Types.CategoriesDisjoint(es[i]["type"].s);
    }
  }

  // ---------------------------------------------------------------------
  // `generate_entry_point`

  /**
   * `generate_entry_point()`: the `__main__` block, at level 0 with line
   * feeds, that instantiates the sanitised entry class and writes what its
   * `generate` returns to standard output.
   */
  function EntryPointText(entryClass: string): (r: seq<string>)
    ensures |r| == 4 && forall j :: 0 <= j < 4 ==> Ind.EndsWithFeed(r[j])
    ensures r[1] == "    entry_point = " + Sanitiser.ClassName(entryClass) + "()\n"
  {
    LineAtZero("    entry_point = " + Sanitiser.ClassName(entryClass) + "()");
    [Line(0, "if \"__main__\" == __name__:"),
     Line(0, "    entry_point = " + Sanitiser.ClassName(entryClass) + "()"),
     Line(0, "    sys.stdout.buffer.write(entry_point.generate())"),
     Line(0, "    sys.stdout.flush()")]
  }

  /** The entry point instantiates the very class that `generate_class` declares for the same schema name. */
  lemma EntryPointNamesClass(name: string, es: seq<Entry>)
    requires AllShown(es) && ClassText(name, es).Ok?
    ensures var c := Sanitiser.ClassName(name);
            ClassText(name, es).value[0] == "class " + c + "():\n"
            && EntryPointText(name)[1] == "    entry_point = " + c + "()\n"
  {
    ClassTextLayout(name, es);
  }

  // ---------------------------------------------------------------------
  // From the defaults pass to the generated class

  /**
   * After the defaults pass, a plain integer attribute is always drawable:
   * its `__init__` statement draws from the whole range of its tag.
   */
  lemma DefaultedEntryLine(e: Entry)
    requires ValueCodeGenerator.PlainInt(e) && "id" in e && Scalar(e["id"])
    ensures DefaultValue.DefaultEntry(e).Ok? && IdShown(DefaultValue.DefaultEntry(e).value)
    ensures var (lo, hi) := DefaultValue.IntMinMax(e["type"].s).value;
            EntryLine(DefaultValue.DefaultEntry(e).value)
            == Ok("self." + Show(e["id"]) + " = " + Call(KsHelperInstance, "rand_int", [IntText(lo), IntText(hi)]) + "  # TODO")
  {
    var tag := e["type"].s;
    Types.CategoriesDisjoint(tag);
    DefaultValue.SameTypeLists();
    var d := DefaultValue.DefaultEntry(e).value;
    var (lo, hi) := DefaultValue.IntMinMax(tag).value;
    assert d["id"] == e["id"] && d["type"] == e["type"];
    assert d[DefaultValue.RangeMin] == VInt(lo) && d[DefaultValue.RangeMax] == VInt(hi);
  }

  /**
   * A schema whose attributes are all plain integers with a one-byte or
   * suffixed tag yields a class once the defaults pass has run.
   */
  lemma DefaultedClassGenerates(className: string, es: seq<Entry>)
    requires forall i :: 0 <= i < |es| ==> PackablePlainInt(es[i])
    ensures DefaultValue.DefaultSeq(es).Ok? && AllShown(DefaultValue.DefaultSeq(es).value)
    ensures ClassText(className, DefaultValue.DefaultSeq(es).value).Ok?
  {
    DefaultedSeqReady(es);
    ClassTextOk(className, DefaultValue.DefaultSeq(es).value);
  }

  /** A plain integer attribute with an `id` and a tag that has a `struct` format. */
  predicate PackablePlainInt(e: Entry) {
    ValueCodeGenerator.PlainInt(e) && "id" in e && Scalar(e["id"]) && StructFormat(e["type"].s).Some?
  }

  lemma DefaultedSeqReady(es: seq<Entry>)
    requires forall i :: 0 <= i < |es| ==> PackablePlainInt(es[i])
    ensures DefaultValue.DefaultSeq(es).Ok?
    ensures forall i :: 0 <= i < |es| ==> Ready(DefaultValue.DefaultSeq(es).value[i])
    ensures AllShown(DefaultValue.DefaultSeq(es).value)
  {
    forall i | 0 <= i < |es|
      ensures !DefaultValue.TypedAs(es[i], DefaultValue.StrTypes)
    {
      DefaultedReady(es[i]);
    }
    DefaultValue.DefaultSeqPointwise(es);
    forall i | 0 <= i < |es|
      ensures Ready(DefaultValue.DefaultSeq(es).value[i])
    {
      DefaultedReady(es[i]);
    }
  }

  lemma DefaultedReady(e: Entry)
    requires PackablePlainInt(e)
    ensures !DefaultValue.TypedAs(e, DefaultValue.StrTypes)
    ensures DefaultValue.DefaultEntry(e).Ok? && Ready(DefaultValue.DefaultEntry(e).value)
  {
    Types.CategoriesDisjoint(e["type"].s);
    DefaultValue.SameTypeLists();
    DefaultedEntryLine(e);
  }
}
