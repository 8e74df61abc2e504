/**
 * The `valid` pass (src/frontend/valid_processor.py): a dict-valued `valid`
 * on an attribute becomes the attribute's `-fz-range-min` / `-fz-range-max`
 * and is then removed; the pass repeats on every nested type.
 */
module ValidProcessor {
  import opened Results
  import opened Values
  import Collections

  const RangeMin: string := "-fz-range-min"
  const RangeMax: string := "-fz-range-max"

  /** Python's `d.get(k)`: the value, or `None` when the key is missing. */
  function Get(d: map<Key, Value>, k: string): Value {
    if KStr(k) in d then d[KStr(k)] else VNone
  }

  /** The rewrite of one attribute. */
  function ValidEntry(e: Entry): (r: Entry)
    ensures "valid" in e && e["valid"].VDict? ==>
              && r.Keys == (e.Keys - {"valid"})
                            + (if Get(e["valid"].fields, "min") != VNone then {RangeMin} else {})
                            + (if Get(e["valid"].fields, "max") != VNone then {RangeMax} else {})
              && (Get(e["valid"].fields, "min") != VNone ==> r[RangeMin] == Get(e["valid"].fields, "min"))
              && (Get(e["valid"].fields, "max") != VNone ==> r[RangeMax] == Get(e["valid"].fields, "max"))
              && (forall k :: k in e && k != "valid" && k != RangeMin && k != RangeMax ==> r[k] == e[k])
              && (Get(e["valid"].fields, "min") == VNone && RangeMin in e ==> r[RangeMin] == e[RangeMin])
              && (Get(e["valid"].fields, "max") == VNone && RangeMax in e ==> r[RangeMax] == e[RangeMax])
    ensures !("valid" in e && e["valid"].VDict?) ==> r == e
  {
    if "valid" in e && e["valid"].VDict? then
      var minVal := Get(e["valid"].fields, "min");
      var maxVal := Get(e["valid"].fields, "max");
      var withMin := if minVal != VNone then e[RangeMin := minVal] else e;
      var withMax := if maxVal != VNone then withMin[RangeMax := maxVal] else withMin;
      withMax - {"valid"}
    else e
  }

  /** After the rewrite no attribute carries a dict-valued `valid`, so a second rewrite changes nothing. */
  lemma ValidEntryIdempotent(e: Entry)
    ensures !("valid" in ValidEntry(e) && ValidEntry(e)["valid"].VDict?)
    ensures ValidEntry(ValidEntry(e)) == ValidEntry(e)
  {
  }

  function ValidEntries(es: seq<Entry>): (r: seq<Entry>)
    ensures |r| == |es| && forall i :: 0 <= i < |es| ==> r[i] == ValidEntry(es[i])
  {
    seq(|es|, i requires 0 <= i < |es| => ValidEntry(es[i]))
  }

  /** The pass on one scope: `seq` must be present; then every nested type, in order. */
  function ValidScope(s: Scope): (r: Result<Scope>)
    decreases s, 1, 0
  {
    if s.attrs.None? then Err(KeyError("seq"))
    else if s.types.None? then Ok(s.(attrs := Some(ValidEntries(s.attrs.value))))
    else
      var defs :- ValidDefs(s, 0);
      Ok(s.(attrs := Some(ValidEntries(s.attrs.value)), types := Some(TypeTable(defs))))
  }

  /** The nested types of `s` from index `i` on, each processed by its own pass. */
  function ValidDefs(s: Scope, i: nat): (r: Result<seq<TypeDef>>)
    requires s.types.Some? && i <= |s.types.value.defs|
    ensures r.Ok? ==> |r.value| == |s.types.value.defs| - i
    decreases s, 0, |s.types.value.defs| - i
  {
    var defs := s.types.value.defs;
    if i == |defs| then Ok([])
    else
      var body :- ValidScope(defs[i].body);
      var rest :- ValidDefs(s, i + 1);
      Ok([TypeDef(defs[i].name, body)] + rest)
  }

  /** Every scope of the tree has `seq`, and no attribute anywhere holds a dict-valued `valid`. */
  predicate Settled(s: Scope)
    decreases s, 1
  {
    && s.attrs.Some?
    && (forall e: Entry :: e in s.attrs.value ==> !("valid" in e && e["valid"].VDict?))
    && (s.types.Some? ==> SettledDefs(s, 0))
  }

  predicate SettledDefs(s: Scope, i: nat)
    requires s.types.Some? && i <= |s.types.value.defs|
    decreases s, 0, |s.types.value.defs| - i
  {
    i < |s.types.value.defs| ==> Settled(s.types.value.defs[i].body) && SettledDefs(s, i + 1)
  }

  /**
   * The pass succeeds exactly when every scope of the tree has `seq`, and
   * its result is settled and left unchanged by a second run.
   */
  lemma {:induction false} ValidScopeSettles(s: Scope)
    ensures ValidScope(s).Ok? ==> Settled(ValidScope(s).value)
    ensures ValidScope(s).Ok? ==> ValidScope(ValidScope(s).value) == ValidScope(s)
    ensures ValidScope(s).Err? ==> ValidScope(s).error == KeyError("seq")
    decreases s, 1, 0
  {
    if s.attrs.Some? {
      ValidEntriesSettle(s.attrs.value);
      if s.types.Some? {
        ValidDefsSettle(s, 0);
        if ValidScope(s).Ok? {
          var t := ValidScope(s).value;
          var defs := s.types.value.defs;
          assert t.types.value.defs == ValidDefs(s, 0).value;
          forall j | 0 <= j < |defs|
            ensures ValidScope(defs[j].body).Ok?
            ensures t.types.value.defs[j] == TypeDef(defs[j].name, ValidScope(defs[j].body).value)
          {
            assert ValidDefs(s, 0).value[j - 0] == t.types.value.defs[j];
          }
          ValidDefsAgain(s, t, 0);
          assert t.types.value.defs[0..] == t.types.value.defs;
        }
      }
    }
  }

  /** The attribute rewrite leaves no dict-valued `valid` and is idempotent on a whole `seq`. */
  lemma ValidEntriesSettle(es: seq<Entry>)
    ensures forall e: Entry :: e in ValidEntries(es) ==> !("valid" in e && e["valid"].VDict?)
    ensures ValidEntries(ValidEntries(es)) == ValidEntries(es)
  {
    forall i | 0 <= i < |es|
      ensures ValidEntry(ValidEntries(es)[i]) == ValidEntries(es)[i]
    {
      ValidEntryIdempotent(es[i]);
    }
    forall e: Entry | e in ValidEntries(es)
      ensures !("valid" in e && e["valid"].VDict?)
    {
      var i :| 0 <= i < |es| && ValidEntries(es)[i] == e;
      ValidEntryIdempotent(es[i]);
    }
  }

  lemma {:induction false} ValidDefsSettle(s: Scope, i: nat)
    requires s.types.Some? && i <= |s.types.value.defs|
    ensures ValidDefs(s, i).Ok? ==>
              forall j :: i <= j < |s.types.value.defs| ==>
                && ValidScope(s.types.value.defs[j].body).Ok?
                && ValidDefs(s, i).value[j - i]
                   == TypeDef(s.types.value.defs[j].name, ValidScope(s.types.value.defs[j].body).value)
    ensures ValidDefs(s, i).Err? ==> ValidDefs(s, i).error == KeyError("seq")
    decreases s, 0, |s.types.value.defs| - i
  {
    var defs := s.types.value.defs;
    if i < |defs| {
      ValidScopeSettles(defs[i].body);
      ValidDefsSettle(s, i + 1);
    }
  }

  /** One step of the walk over the nested types. */
  lemma ValidDefsStep(s: Scope, i: nat)
    requires s.types.Some? && i < |s.types.value.defs|
    ensures ValidScope(s.types.value.defs[i].body).Err? ==> ValidDefs(s, i).Err?
    ensures ValidScope(s.types.value.defs[i].body).Ok? ==>
              && (ValidDefs(s, i).Ok? <==> ValidDefs(s, i + 1).Ok?)
              && (ValidDefs(s, i).Ok? ==>
                    ValidDefs(s, i).value
                    == [TypeDef(s.types.value.defs[i].name, ValidScope(s.types.value.defs[i].body).value)]
                       + ValidDefs(s, i + 1).value)
  {
  }

  /** Running the nested passes on their own output gives the same output, and every result is settled. */
  lemma {:induction false} ValidDefsAgain(s: Scope, t: Scope, i: nat)
    requires s.types.Some? && t.types.Some? && i <= |s.types.value.defs|
    requires |t.types.value.defs| == |s.types.value.defs|
    requires forall j :: 0 <= j < |s.types.value.defs| ==>
               && ValidScope(s.types.value.defs[j].body).Ok?
               && t.types.value.defs[j]
                  == TypeDef(s.types.value.defs[j].name, ValidScope(s.types.value.defs[j].body).value)
    ensures ValidDefs(t, i) == Ok(t.types.value.defs[i..])
    ensures SettledDefs(t, i)
    decreases s, 0, |s.types.value.defs| - i
  {
    var defs := s.types.value.defs;
    if i < |defs| {
      var d := defs[i];
      assert t.types.value.defs[i] == TypeDef(d.name, ValidScope(d.body).value);
      ValidScopeSettles(d.body);
      ValidDefsAgain(s, t, i + 1);
      assert t.types.value.defs[i..] == [t.types.value.defs[i]] + t.types.value.defs[i + 1..];
    } else {
      assert t.types.value.defs[i..] == [];
    }
  }

  /** The pass object over one scope. */
  class ValidProcessor {
    var source: Scope

    constructor(source: Scope)
      ensures this.source == source
    {
      this.source := source;
    }

    /** `pre_process`: rewrite the attributes, then run a new pass on every nested type. */
    method PreProcess() returns (r: Result<()>)
      modifies this
      ensures r.Ok? <==> ValidScope(old(source)).Ok?
      ensures r.Ok? ==> source == ValidScope(old(source)).value
      ensures r.Err? ==> r.error == KeyError("seq")
      decreases source, 1
    {
      ghost var s0 := source;
      if source.attrs.None? {
        return Err(KeyError("seq"));
      }
      ProcessSeq();
      if source.types.None? {
        return Ok(());
      }
      r := ProcessTypes(s0);
    }

    /** The loop over `types`: a new pass on each body, written back in place; the first failure stops it. */
    method ProcessTypes(ghost s0: Scope) returns (r: Result<()>)
      requires s0.types.Some? && source.types == s0.types
      modifies this
      ensures r.Ok? <==> ValidDefs(s0, 0).Ok?
      ensures r.Ok? ==> source == old(source).(types := Some(TypeTable(ValidDefs(s0, 0).value)))
      ensures r.Err? ==> r.error == KeyError("seq")
      decreases s0, 0
    {
      var defs := source.types.value.defs;
      var done: seq<TypeDef> := [];
      var i := 0;
      while i < |defs|
        invariant 0 <= i <= |defs| && defs == s0.types.value.defs && |done| == i
        invariant source == old(source)
        invariant ValidDefs(s0, 0).Ok? <==> ValidDefs(s0, i).Ok?
        invariant ValidDefs(s0, 0).Ok? ==> ValidDefs(s0, 0).value == done + ValidDefs(s0, i).value
      {
        var nested := new ValidProcessor(defs[i].body);
        var res := nested.PreProcess();
        ValidDefsStep(s0, i);
        if res.Err? {
          source := source.(types := Some(TypeTable(done + defs[i..])));
          return Err(res.error);
        }
        done := done + [TypeDef(defs[i].name, nested.source)];
        i := i + 1;
      }
      assert ValidDefs(s0, i) == Ok([]) && done + [] == done;
      source := source.(types := Some(TypeTable(done)));
      r := Ok(());
    }

    /** The loop over `seq`, rewriting each attribute in place. */
    method ProcessSeq()
      requires source.attrs.Some?
      modifies this
      ensures source == old(source).(attrs := Some(ValidEntries(old(source.attrs.value))))
    {
      ghost var es := source.attrs.value;
      var i, n := 0, |source.attrs.value|;
      assert ValidEntries(es[..0]) + es[0..] == es;
      while i < n
        invariant 0 <= i <= n == |es|
        invariant source == old(source).(attrs := Some(ValidEntries(es[..i]) + es[i..]))
      {
        Collections.UpdateAfterPrefix(ValidEntries(es[..i]), es[i..], ValidEntry(es[i]));
        assert es[i..][1..] == es[i + 1..];
        assert ValidEntries(es[..i]) + [ValidEntry(es[i])] == ValidEntries(es[..i + 1]);
        source := source.(attrs := Some(source.attrs.value[i := ValidEntry(source.attrs.value[i])]));
        i := i + 1;
      }
      assert es[..n] == es && es[n..] == [];
      assert ValidEntries(es[..n]) + es[n..] == ValidEntries(es);
    }

    /** `post_process` does nothing. */
    method PostProcess()
    {
    }
  }
}
