/**
 * The defaults pass (src/frontend/default_value.py): every integer attribute
 * of the top-level `seq` gets `-fz-range-min` / `-fz-range-max` from its
 * type's bounds unless it already has them; float attributes get the two
 * infinities; string attributes are not supported.
 */
module DefaultValue {
  import opened Results
  import opened Collections
  import opened Values
  import Const
  import Types

  /** The pass's own copy of the integer tags. */
  const IntTypes: seq<string> :=
    ["u1", "u2", "u2le", "u2be", "u4", "u4le", "u4be", "u8", "u8le",
     "u8be", "s1", "s2", "s2le", "s2be", "s4", "s4le", "s4be", "s8", "s8le", "s8be"]
  const FloatTypes: seq<string> := ["f4", "f4le", "f4be", "f8", "f8le", "f8be"]
  const StrTypes: seq<string> := ["str", "strz"]

  /** The pass's lists are the lists of the type universe. */
  lemma SameTypeLists()
    ensures IntTypes == Types.IntTypes && FloatTypes == Types.FloatTypes && StrTypes == Types.StrTypes
  {
  }

  const RangeMin: string := "-fz-range-min"
  const RangeMax: string := "-fz-range-max"

  /**
   * The inclusive range of an integer tag. The `le`/`be` variants share the
   * range of the plain tag; anything else is a ValueError.
   */
  function IntMinMax(typeKey: string): (r: Result<(int, int)>)
    ensures r.Ok? <==> typeKey in IntTypes
    ensures r.Err? ==> r.error == ValueError("Not a valid integer type")
  {
    if typeKey == "u1" then Ok((0, 255))
    else if typeKey in ["u2", "u2le", "u2be"] then Ok((0, 65535))
    else if typeKey in ["u4", "u4le", "u4be"] then Ok((0, 4294967295))
    else if typeKey in ["u8", "u8le", "u8be"] then Ok((0, 18446744073709551615))
    else if typeKey == "s1" then Ok((-128, 127))
    else if typeKey in ["s2", "s2le", "s2be"] then Ok((-32768, 32767))
    else if typeKey in ["s4", "s4le", "s4be"] then Ok((-2147483648, 2147483647))
    else if typeKey in ["s8", "s8le", "s8be"] then Ok((-9223372036854775808, 9223372036854775807))
    else Err(ValueError("Not a valid integer type"))
  }

  /** The tags that one case of the match lists: the plain tag and its `le`/`be` variants. */
  function Tags(signed: bool, w: Const.Width): seq<string> {
    match (signed, w)
    case (false, W1) => ["u1"]
    case (false, W2) => ["u2", "u2le", "u2be"]
    case (false, W4) => ["u4", "u4le", "u4be"]
    case (false, W8) => ["u8", "u8le", "u8be"]
    case (true, W1) => ["s1"]
    case (true, W2) => ["s2", "s2le", "s2be"]
    case (true, W4) => ["s4", "s4le", "s4be"]
    case (true, W8) => ["s8", "s8le", "s8be"]
  }

  /** The const.py range of a signedness and width. */
  function Range(signed: bool, w: Const.Width): (int, int) {
    if signed then (Const.SignedMin(w), Const.SignedMax(w)) else (Const.UnsignedMin(w), Const.UnsignedMax(w))
  }

  /** Every tag of a case gets the const.py range of that signedness and width. */
  lemma IntMinMaxBounds(signed: bool, w: Const.Width, typeKey: string)
    requires typeKey in Tags(signed, w)
    ensures IntMinMax(typeKey) == Ok(Range(signed, w))
  {
    match w
    case W1 => BoundsW1(signed, typeKey);
    case W2 => BoundsW2(signed, typeKey);
    case W4 => BoundsW4(signed, typeKey);
    case W8 => BoundsW8(signed, typeKey);
  }

  lemma BoundsW1(signed: bool, typeKey: string)
    requires typeKey in Tags(signed, Const.W1)
    ensures IntMinMax(typeKey) == Ok(Range(signed, Const.W1))
  {
  }

  lemma BoundsW2(signed: bool, typeKey: string)
    requires typeKey in Tags(signed, Const.W2)
    ensures IntMinMax(typeKey) == Ok(Range(signed, Const.W2))
  {
  }

  lemma BoundsW4(signed: bool, typeKey: string)
    requires typeKey in Tags(signed, Const.W4)
    ensures IntMinMax(typeKey) == Ok(Range(signed, Const.W4))
  {
  }

  lemma BoundsW8(signed: bool, typeKey: string)
    requires typeKey in Tags(signed, Const.W8)
    ensures IntMinMax(typeKey) == Ok(Range(signed, Const.W8))
  {
  }

  /** The tags of the cases, in order, are exactly the integer tags. */
  lemma IntTypesByCase()
    ensures IntTypes == Tags(false, Const.W1) + Tags(false, Const.W2) + Tags(false, Const.W4) + Tags(false, Const.W8)
                      + Tags(true, Const.W1) + Tags(true, Const.W2) + Tags(true, Const.W4) + Tags(true, Const.W8)
  {
  }

  /**
   * An unsigned k-byte tag ranges over [0, 2^(8k) - 1] and a signed one over
   * [-2^(8k-1), 2^(8k-1) - 1], whatever its endian suffix.
   */
  lemma IntMinMaxPowers(signed: bool, w: Const.Width, typeKey: string)
    requires typeKey in Tags(signed, w)
    ensures var k := Const.Bytes(w);
            IntMinMax(typeKey) ==
              if signed then Ok((-(Const.Pow2(8 * k - 1) as int), Const.Pow2(8 * k - 1) - 1))
              else Ok((0, Const.Pow2(8 * k) - 1))
  {
    IntMinMaxBounds(signed, w, typeKey);
    Const.UnsignedBoundsArePowers(w);
    Const.SignedBoundsArePowers(w);
  }

  /** Python's `dict.setdefault`, for its effect on the dict. */
  function SetDefault(e: Entry, k: string, v: Value): (r: Entry)
    ensures k in r && (k in e ==> r[k] == e[k]) && (k !in e ==> r[k] == v)
    ensures r.Keys == e.Keys + {k}
    ensures forall j :: j in e && j != k ==> r[j] == e[j]
  {
    if k in e then e else e[k := v]
  }

  /** The entry has a `type` that is one of the tags of `names`. */
  predicate TypedAs(e: Entry, names: seq<string>) {
    "type" in e && NamedIn(e["type"], names)
  }

  /** The range defaults of one attribute (`handle_seq_entry`). */
  function DefaultEntry(e: Entry): (r: Result<Entry>)
    ensures r.Err? <==> TypedAs(e, StrTypes)
    ensures r.Err? ==> r.error == NotImplementedError
    ensures r.Ok? && !TypedAs(e, IntTypes) && !TypedAs(e, FloatTypes) ==> r.value == e
    ensures r.Ok? && (TypedAs(e, IntTypes) || TypedAs(e, FloatTypes)) ==>
              r.value.Keys == e.Keys + {RangeMin, RangeMax}
    ensures r.Ok? ==> forall k :: k in e ==> k in r.value && r.value[k] == e[k]
    ensures r.Ok? && TypedAs(e, IntTypes) ==>
              var (lo, hi) := IntMinMax(e["type"].s).value;
              (RangeMin !in e ==> r.value[RangeMin] == VInt(lo)) && (RangeMax !in e ==> r.value[RangeMax] == VInt(hi))
    ensures r.Ok? && TypedAs(e, FloatTypes) ==>
              (RangeMin !in e ==> r.value[RangeMin] == VInf(true)) && (RangeMax !in e ==> r.value[RangeMax] == VInf(false))
  {
    Types.CategoriesDisjoint(if "type" in e && e["type"].VStr? then e["type"].s else "");
    if "type" !in e then Ok(e)
    else
      var t := e["type"];
      if NamedIn(t, IntTypes) then
        var (lo, hi) := IntMinMax(t.s).value;
        Ok(SetDefault(SetDefault(e, RangeMin, VInt(lo)), RangeMax, VInt(hi)))
      else if NamedIn(t, FloatTypes) then
        Ok(SetDefault(SetDefault(e, RangeMin, VInf(true)), RangeMax, VInf(false)))
      else if NamedIn(t, StrTypes) then
        Err(NotImplementedError)
      else Ok(e)
  }

  /** Defaulting an attribute twice is defaulting it once. */
  lemma DefaultEntryIdempotent(e: Entry)
    requires DefaultEntry(e).Ok?
    ensures DefaultEntry(DefaultEntry(e).value) == DefaultEntry(e)
  {
    var d := DefaultEntry(e).value;
    assert "type" in e ==> "type" in d && d["type"] == e["type"];
    if TypedAs(e, IntTypes) || TypedAs(e, FloatTypes) {
      assert RangeMin in d && RangeMax in d;
      assert DefaultEntry(d).value.Keys == d.Keys;
    }
  }

  /** The attributes in order, stopping at the first that raises (`handle_seq`). */
  function DefaultSeq(es: seq<Entry>): (r: Result<seq<Entry>>)
    ensures r.Ok? ==> |r.value| == |es|
    ensures r.Err? ==> r.error == NotImplementedError
  {
    if es == [] then Ok([])
    else
      var first :- DefaultEntry(es[0]);
      var rest :- DefaultSeq(es[1..]);
      Ok([first] + rest)
  }

  /** The pass succeeds on `seq` exactly when no attribute is a string, and then defaults each one. */
  lemma {:induction false} DefaultSeqPointwise(es: seq<Entry>)
    ensures DefaultSeq(es).Ok? <==> forall i :: 0 <= i < |es| ==> !TypedAs(es[i], StrTypes)
    ensures DefaultSeq(es).Ok? ==> forall i :: 0 <= i < |es| ==> DefaultSeq(es).value[i] == DefaultEntry(es[i]).value
    ensures DefaultSeq(es).Err? ==> DefaultSeq(es).error == NotImplementedError
  {
    if es != [] {
      DefaultSeqPointwise(es[1..]);
      if DefaultEntry(es[0]).Ok? && DefaultSeq(es[1..]).Ok? {
        forall i | 0 <= i < |es|
          ensures DefaultSeq(es).value[i] == DefaultEntry(es[i]).value
        {
          if i > 0 {
            assert es[1..][i - 1] == es[i];
          }
        }
      }
      if DefaultSeq(es).Ok? {
        forall i | 0 <= i < |es|
          ensures !TypedAs(es[i], StrTypes)
        {
          if i > 0 {
            assert es[1..][i - 1] == es[i];
          }
        }
      } else if DefaultEntry(es[0]).Ok? {
        var j :| 0 <= j < |es[1..]| && TypedAs(es[1..][j], StrTypes);
        assert es[j + 1] == es[1..][j];
      }
    }
  }

  /** The top-level keys of a scope, as Python's dict holds them. */
  function KeysOf(s: Scope): set<string> {
    (if s.meta.Some? then {"meta"} else {})
    + (if s.attrs.Some? then {"seq"} else {})
    + (if s.types.Some? then {"types"} else {})
    + (if s.enums.Some? then {"enums"} else {})
    + (if s.availableRef.Some? then {"_available_ref"} else {})
    + (if s.graph.Some? then {"_dependency_graph"} else {})
    + s.others.Keys
  }

  /** The well-known keys of a scope; `others` holds none of them. */
  const KnownKeys: set<string> := {"meta", "seq", "types", "enums", "_available_ref", "_dependency_graph"}

  /** `order` is the iteration order of the scope's dict: each key once. */
  predicate KeyOrder(s: Scope, order: seq<string>) {
    KnownKeys !! s.others.Keys && Distinct(order) && Elems(order) == KeysOf(s)
  }

  lemma KeyOrderSeq(s: Scope, order: seq<string>)
    requires KeyOrder(s, order)
    ensures "seq" in order <==> s.attrs.Some?
    ensures (exists k :: k in KeysOf(s) && k != "meta" && k != "seq") <==>
            (exists k :: k in order && k != "meta" && k != "seq")
  {
    assert forall k :: k in order <==> k in KeysOf(s);
  }

  /**
   * `populate_default`: the keys in dict order; `meta` is a no-op, `seq` is
   * defaulted, and any other key has no handler (KeyError).
   */
  function Populate(s: Scope, order: seq<string>): (r: Result<Scope>)
    requires s.attrs.Some? || "seq" !in order
    decreases |order|
  {
    if order == [] then Ok(s)
    else if order[0] == "meta" then Populate(s, order[1..])
    else if order[0] == "seq" then
      var es :- DefaultSeq(s.attrs.value);
      Populate(s.(attrs := Some(es)), order[1..])
    else Err(KeyError(order[0]))
  }

  /**
   * Any top-level key other than `meta` and `seq` makes the pass fail; when
   * it succeeds, `seq` has been defaulted entry by entry and nothing else changed.
   */
  lemma PopulateOutcome(s: Scope, order: seq<string>)
    requires KeyOrder(s, order)
    ensures s.attrs.Some? || "seq" !in order
    ensures (exists k :: k in KeysOf(s) && k != "meta" && k != "seq") ==> Populate(s, order).Err?
    ensures Populate(s, order).Ok? ==> s.attrs.None? || DefaultSeq(s.attrs.value).Ok?
    ensures Populate(s, order).Ok? ==>
              Populate(s, order).value == s.(attrs := if s.attrs.Some? then Some(DefaultSeq(s.attrs.value).value) else None)
    ensures Populate(s, order).Err? ==> Populate(s, order).error.KeyError? || Populate(s, order).error == NotImplementedError
  {
    KeyOrderSeq(s, order);
    PopulateWalk(s, order);
  }

  lemma {:induction false} PopulateWalk(s: Scope, order: seq<string>)
    requires Distinct(order) && (s.attrs.Some? || "seq" !in order)
    ensures (exists k :: k in order && k != "meta" && k != "seq") ==> Populate(s, order).Err?
    ensures Populate(s, order).Ok? && "seq" in order ==> DefaultSeq(s.attrs.value).Ok?
    ensures Populate(s, order).Ok? ==>
              Populate(s, order).value == if "seq" in order then s.(attrs := Some(DefaultSeq(s.attrs.value).value)) else s
    ensures Populate(s, order).Err? ==> Populate(s, order).error.KeyError? || Populate(s, order).error == NotImplementedError
    decreases |order|
  {
    if order != [] {
      DistinctTail(order);
      if order[0] == "meta" {
        PopulateWalk(s, order[1..]);
      } else if order[0] == "seq" {
        DefaultSeqPointwise(s.attrs.value);
        if DefaultSeq(s.attrs.value).Ok? {
          PopulateWalk(s.(attrs := Some(DefaultSeq(s.attrs.value).value)), order[1..]);
        }
      }
    }
  }

  /** The pass's object: the source dict it rewrites. */
  class DefaultValuePopulator {
    var source: Scope

    constructor(source: Scope)
      ensures this.source == source
    {
      this.source := source;
    }

    /** `handle_seq`: default every attribute in place, stopping at the first error. */
    method HandleSeq() returns (r: Result<()>)
      requires source.attrs.Some?
      modifies this
      ensures r.Ok? <==> DefaultSeq(old(source.attrs.value)).Ok?
      ensures r.Ok? ==> source == old(source).(attrs := Some(DefaultSeq(old(source.attrs.value)).value))
      ensures r.Err? ==> r.error == NotImplementedError
      ensures source == old(source).(attrs := source.attrs) && source.attrs.Some?
      ensures |source.attrs.value| == |old(source.attrs.value)|
    {
      ghost var es := source.attrs.value;
      ghost var done: seq<Entry> := [];
      assert done + es[0..] == es;
      var i, n := 0, |source.attrs.value|;
      while i < n
        invariant 0 <= i <= n == |es|
        invariant source == old(source).(attrs := Some(done + es[i..]))
        invariant DefaultSeq(es).Ok? <==> DefaultSeq(es[i..]).Ok?
        invariant DefaultSeq(es).Ok? ==> DefaultSeq(es).value == done + DefaultSeq(es[i..]).value
        invariant |done| == i
      {
        assert es[i..][1..] == es[i + 1..];
        var entry := source.attrs.value[i];
        assert entry == es[i];
        var d := DefaultEntry(entry);
        if d.Err? {
          return Err(d.error);
        }
        UpdateAfterPrefix(done, es[i..], d.value);
        source := source.(attrs := Some(source.attrs.value[i := d.value]));
        done := done + [d.value];
        i := i + 1;
      }
      assert es[n..] == [];
      assert done + es[n..] == done;
      r := Ok(());
    }

    /** `populate_default`, iterating the source's keys in `order`. */
    method PopulateDefault(order: seq<string>) returns (r: Result<()>)
      requires KeyOrder(source, order)
      modifies this
      ensures r.Ok? <==> Populate(old(source), order).Ok?
      ensures r.Ok? ==> source == Populate(old(source), order).value
      ensures r.Err? ==> r == Err(Populate(old(source), order).error)
    {
      ghost var s0 := source;
      KeyOrderSeq(source, order);
      var i := 0;
      while i < |order|
        invariant 0 <= i <= |order|
        invariant source.attrs.Some? || "seq" !in order[i..]
        invariant Populate(s0, order) == Populate(source, order[i..])
      {
        DistinctTail(order[i..]);
        assert order[i..][1..] == order[i + 1..];
        var k := order[i];
        if k == "meta" {
          // handle_meta does nothing
        } else if k == "seq" {
          var handled := HandleSeq();
          if handled.Err? {
            return Err(handled.error);
          }
        } else {
          return Err(KeyError(k));
        }
        i := i + 1;
      }
      r := Ok(());
    }
  }
}
