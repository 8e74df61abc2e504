/**
 * The endian pass (src/frontend/type_processor.py): a multi-byte type tag
 * without an endianness suffix gets the schema's `meta.endian` appended.
 * Only the top-level `seq` is visited; nested types are not.
 */
module TypeProcessor {
  import opened Results
  import opened Values
  import Collections

  /** The tags that lack an endianness suffix. */
  const EndianFree: seq<string> := ["u2", "u4", "u8", "s2", "s4", "s8", "f4", "f8"]

  /** Python's `str + x` for a non-str `x`. */
  const ConcatError: Error := TypeError("can only concatenate str to str")

  /** The rewrite of one attribute: its `type` is required; an endian-free tag gets the suffix. */
  function SuffixEntry(e: Entry, endian: Value): (r: Result<Entry>)
    ensures "type" !in e ==> r == Err(KeyError("type"))
    ensures "type" in e && NamedIn(e["type"], EndianFree) ==>
              if endian.VStr? then r == Ok(e["type" := VStr(e["type"].s + endian.s)]) else r == Err(ConcatError)
    ensures "type" in e && !NamedIn(e["type"], EndianFree) ==> r == Ok(e)
  {
    if "type" !in e then Err(KeyError("type"))
    else if NamedIn(e["type"], EndianFree) then
      if endian.VStr? then Ok(e["type" := VStr(e["type"].s + endian.s)]) else Err(ConcatError)
    else Ok(e)
  }

  /** The rewrite of a whole `seq`, in order; the first failure stops it. */
  function SuffixSeq(es: seq<Entry>, endian: Value): (r: Result<seq<Entry>>)
    ensures r.Ok? ==> |r.value| == |es|
  {
    if es == [] then Ok([])
    else
      var head :- SuffixEntry(es[0], endian);
      var tail :- SuffixSeq(es[1..], endian);
      Ok([head] + tail)
  }

  /**
   * The pass succeeds exactly when every attribute has a `type` and, if
   * some tag is endian-free, the endianness is a string; then each
   * attribute is rewritten on its own.
   */
  lemma {:induction false} SuffixSeqPointwise(es: seq<Entry>, endian: Value)
    ensures SuffixSeq(es, endian).Ok? <==>
              forall i :: 0 <= i < |es| ==> SuffixEntry(es[i], endian).Ok?
    ensures SuffixSeq(es, endian).Ok? ==>
              forall i :: 0 <= i < |es| ==> SuffixSeq(es, endian).value[i] == SuffixEntry(es[i], endian).value
  {
    if es != [] {
      SuffixSeqPointwise(es[1..], endian);
      assert forall i :: 1 <= i < |es| ==> es[i] == es[1..][i - 1];
    }
  }

  /** A suffixed tag is no longer endian-free, so a second run changes nothing. */
  lemma SuffixEntryIdempotent(e: Entry, endian: Value)
    requires SuffixEntry(e, endian).Ok?
    ensures SuffixEntry(SuffixEntry(e, endian).value, endian) == SuffixEntry(e, endian)
  {
    if "type" in e && NamedIn(e["type"], EndianFree) && endian.VStr? {
      var t := e["type"].s + endian.s;
      if endian.s != [] {
        forall i | 0 <= i < |EndianFree|
          ensures |EndianFree[i]| == 2
        {
        }
        assert t !in EndianFree;
      } else {
        assert t == e["type"].s && VStr(t) == e["type"];
        assert e["type" := VStr(t)] == e;
      }
    }
  }

  /** Running the pass on its own output gives the same output. */
  lemma SuffixSeqIdempotent(es: seq<Entry>, endian: Value)
    requires SuffixSeq(es, endian).Ok?
    ensures SuffixSeq(SuffixSeq(es, endian).value, endian) == SuffixSeq(es, endian)
  {
    var out := SuffixSeq(es, endian).value;
    SuffixSeqPointwise(es, endian);
    SuffixSeqPointwise(out, endian);
    forall i | 0 <= i < |es|
      ensures SuffixEntry(out[i], endian) == Ok(out[i])
    {
      SuffixEntryIdempotent(es[i], endian);
    }
    SuffixSeqIdentity(out, endian);
  }

  /** A `seq` that every attribute passes through unchanged is left as it is. */
  lemma {:induction false} SuffixSeqIdentity(es: seq<Entry>, endian: Value)
    requires forall i :: 0 <= i < |es| ==> SuffixEntry(es[i], endian) == Ok(es[i])
    ensures SuffixSeq(es, endian) == Ok(es)
  {
    if es != [] {
      SuffixSeqIdentity(es[1..], endian);
      assert es == [es[0]] + es[1..];
    }
  }

  /** The pass object, holding the scope and its `meta.endian`. */
  class TypeProcessor {
    var source: Scope
    var endian: Value

    constructor(source: Scope, endian: Value)
      ensures this.source == source && this.endian == endian
    {
      this.source := source;
      this.endian := endian;
    }

    /** `pre_process` does nothing. */
    method PreProcess()
    {
    }

    /** `post_process`: suffix the endian-free tags of the top-level `seq`, in place and in order. */
    method PostProcess() returns (r: Result<()>)
      modifies this
      ensures old(source).attrs.None? ==> r == Err(KeyError("seq")) && source == old(source)
      ensures old(source).attrs.Some? ==> (r.Ok? <==> SuffixSeq(old(source).attrs.value, endian).Ok?)
      ensures r.Ok? ==> source == old(source).(attrs := Some(SuffixSeq(old(source).attrs.value, endian).value))
      ensures r.Err? && old(source).attrs.Some? ==> r.error == SuffixSeq(old(source).attrs.value, endian).error
      ensures endian == old(endian)
    {
      if source.attrs.None? {
        return Err(KeyError("seq"));
      }
      ghost var es := source.attrs.value;
      ghost var done: seq<Entry> := [];
      assert done + es[0..] == es;
      var i, n := 0, |source.attrs.value|;
      while i < n
        invariant 0 <= i <= n == |es| && |done| == i && endian == old(endian)
        invariant source == old(source).(attrs := Some(done + es[i..]))
        invariant SuffixSeq(es, endian).Ok? <==> SuffixSeq(es[i..], endian).Ok?
        invariant SuffixSeq(es, endian).Ok? ==> SuffixSeq(es, endian).value == done + SuffixSeq(es[i..], endian).value
        invariant SuffixSeq(es, endian).Err? ==> SuffixSeq(es, endian).error == SuffixSeq(es[i..], endian).error
      {
        assert es[i..][1..] == es[i + 1..];
        var entry := source.attrs.value[i];
        assert entry == es[i];
        var d := SuffixEntry(entry, endian);
        if d.Err? {
          return Err(d.error);
        }
        Collections.UpdateAfterPrefix(done, es[i..], d.value);
        source := source.(attrs := Some(source.attrs.value[i := d.value]));
        done := done + [d.value];
        i := i + 1;
      }
      assert es[n..] == [];
      assert done + es[n..] == done;
      r := Ok(());
    }
  }

  /** The constructor's lookup of `meta.endian`, whose absence raises KeyError. */
  method NewTypeProcessor(source: Scope) returns (r: Result<TypeProcessor>)
    ensures source.meta.None? ==> r.Err? && r.error == KeyError("meta")
    ensures source.meta.Some? && "endian" !in source.meta.value ==> r.Err? && r.error == KeyError("endian")
    ensures r.Ok? <==> source.meta.Some? && "endian" in source.meta.value
    ensures r.Ok? ==> fresh(r.value) && r.value.source == source && r.value.endian == source.meta.value["endian"]
  {
    if source.meta.None? {
      return Err(KeyError("meta"));
    }
    if "endian" !in source.meta.value {
      return Err(KeyError("endian"));
    }
    var p := new TypeProcessor(source, source.meta.value["endian"]);
    r := Ok(p);
  }
}
