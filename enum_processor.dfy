/**
 * The enum pass (src/frontend/enum_processor.py): every shorthand enum
 * value (a bare name) becomes the verbose form `{"id": name}`; the pass
 * repeats on every nested type.
 */
module EnumProcessor {
  import opened Results
  import opened Values
  import Collections

  /** The verbose form of one enum value. */
  function Verbose(v: Value): Value {
    if v.VStr? then VDict(map[KStr("id") := v]) else v
  }

  /** The verbose form of one enum class: same keys, every bare name wrapped. */
  function VerboseClass(c: EnumClass): (r: EnumClass)
    ensures r.Keys == c.Keys
    ensures forall k :: k in c && c[k].VStr? ==> r[k] == VDict(map[KStr("id") := c[k]])
    ensures forall k :: k in c && !c[k].VStr? ==> r[k] == c[k]
  {
    map k | k in c :: Verbose(c[k])
  }

  /** The verbose form of every class of an `enums` table: same class names. */
  function VerboseEnums(m: map<string, EnumClass>): (r: map<string, EnumClass>)
    ensures r.Keys == m.Keys
    ensures forall n :: n in m ==> r[n] == VerboseClass(m[n])
  {
    map n | n in m :: VerboseClass(m[n])
  }

  /** No enum value of the table is a bare name. */
  predicate AllVerbose(m: map<string, EnumClass>) {
    forall n, k :: n in m && k in m[n] ==> !m[n][k].VStr?
  }

  /**
   * The table after the pass holds no bare name, and a second pass leaves
   * it as it is; the name of each wrapped value stays under `id`.
   */
  lemma VerboseEnumsSettles(m: map<string, EnumClass>)
    ensures AllVerbose(VerboseEnums(m))
    ensures VerboseEnums(VerboseEnums(m)) == VerboseEnums(m)
    ensures forall n, k :: n in m && k in m[n] && m[n][k].VStr? ==>
              VerboseEnums(m)[n][k].fields[KStr("id")] == m[n][k]
  {
    forall n | n in m
      ensures VerboseClass(VerboseClass(m[n])) == VerboseClass(m[n])
    {
    }
  }

  /** A table that holds no bare name is left as it is. */
  lemma VerboseEnumsFixed(m: map<string, EnumClass>)
    requires AllVerbose(m)
    ensures VerboseEnums(m) == m
  {
    forall n | n in m
      ensures VerboseClass(m[n]) == m[n]
    {
    }
  }

  /** The pass on one scope: its own `enums`, then every nested type in order. */
  function EnumScope(s: Scope): (r: Scope)
    ensures r.meta == s.meta && r.attrs == s.attrs && r.others == s.others
    ensures r.availableRef == s.availableRef && r.graph == s.graph
    ensures r.enums == if s.enums.Some? then Some(VerboseEnums(s.enums.value)) else None
    ensures r.types.Some? <==> s.types.Some?
    decreases s, 1, 0
  {
    var withEnums := if s.enums.Some? then s.(enums := Some(VerboseEnums(s.enums.value))) else s;
    if s.types.None? then withEnums
    else withEnums.(types := Some(TypeTable(EnumDefs(s, 0))))
  }

  /** The nested types of `s` from index `i` on, each with its own pass applied: same names, same order. */
  function EnumDefs(s: Scope, i: nat): (r: seq<TypeDef>)
    requires s.types.Some? && i <= |s.types.value.defs|
    ensures |r| == |s.types.value.defs| - i
    ensures forall j :: 0 <= j < |r| ==> r[j].name == s.types.value.defs[i + j].name
    decreases s, 0, |s.types.value.defs| - i
  {
    var defs := s.types.value.defs;
    if i == |defs| then []
    else [TypeDef(defs[i].name, EnumScope(defs[i].body))] + EnumDefs(s, i + 1)
  }

  /** Every `enums` table of the tree holds no bare name. */
  predicate Settled(s: Scope)
    decreases s, 1
  {
    && (s.enums.Some? ==> AllVerbose(s.enums.value))
    && (s.types.Some? ==> SettledDefs(s, 0))
  }

  predicate SettledDefs(s: Scope, i: nat)
    requires s.types.Some? && i <= |s.types.value.defs|
    decreases s, 0, |s.types.value.defs| - i
  {
    i < |s.types.value.defs| ==> Settled(s.types.value.defs[i].body) && SettledDefs(s, i + 1)
  }

  /** A settled tree is a fixed point of the pass. */
  lemma {:induction false} SettledIsFixed(s: Scope)
    requires Settled(s)
    ensures EnumScope(s) == s
    decreases s, 1, 0
  {
    if s.enums.Some? {
      VerboseEnumsFixed(s.enums.value);
    }
    if s.types.Some? {
      SettledDefsFixed(s, 0);
      assert s.types.value.defs[0..] == s.types.value.defs;
    }
  }

  lemma {:induction false} SettledDefsFixed(s: Scope, i: nat)
    requires s.types.Some? && i <= |s.types.value.defs| && SettledDefs(s, i)
    ensures EnumDefs(s, i) == s.types.value.defs[i..]
    decreases s, 0, |s.types.value.defs| - i
  {
    var defs := s.types.value.defs;
    if i < |defs| {
      var d := defs[i];
      SettledIsFixed(d.body);
      SettledDefsFixed(s, i + 1);
      assert EnumDefs(s, i) == [TypeDef(d.name, EnumScope(d.body))] + EnumDefs(s, i + 1);
      assert defs[i..] == [d] + defs[i + 1..];
    }
  }

  /** The pass settles the whole tree, so running it twice is the same as running it once. */
  lemma {:induction false} EnumScopeSettles(s: Scope)
    ensures Settled(EnumScope(s))
    ensures EnumScope(EnumScope(s)) == EnumScope(s)
    decreases s, 1, 0
  {
    if s.enums.Some? {
      VerboseEnumsSettles(s.enums.value);
    }
    if s.types.Some? {
      EnumDefsSettle(s, EnumScope(s), 0);
    }
    SettledIsFixed(EnumScope(s));
  }

  lemma {:induction false} EnumDefsSettle(s: Scope, t: Scope, i: nat)
    requires s.types.Some? && i <= |s.types.value.defs|
    requires t.types == Some(TypeTable(EnumDefs(s, 0)))
    ensures SettledDefs(t, i)
    decreases s, 0, |s.types.value.defs| - i
  {
    var defs := s.types.value.defs;
    if i < |defs| {
      EnumDefsAt(s, 0, i);
      EnumScopeSettles(defs[i].body);
      EnumDefsSettle(s, t, i + 1);
    }
  }

  /** Entry `j` of the processed list is the `j`-th nested type with its own pass applied. */
  lemma {:induction false} EnumDefsAt(s: Scope, i: nat, j: nat)
    requires s.types.Some? && i <= j < |s.types.value.defs|
    ensures EnumDefs(s, i)[j - i] == TypeDef(s.types.value.defs[j].name, EnumScope(s.types.value.defs[j].body))
    decreases j - i
  {
    if i < j {
      EnumDefsAt(s, i + 1, j);
    }
  }

  /** The pass object over one scope. */
  class EnumProcessor {
    var source: Scope

    constructor(source: Scope)
      ensures this.source == source
    {
      this.source := source;
    }

    /** `pre_process`: make the enums of this scope verbose, then run a new pass on every nested type. */
    method PreProcess()
      modifies this
      ensures source == EnumScope(old(source))
      decreases source, 1
    {
      ghost var s0 := source;
      if source.enums.Some? {
        ProcessEnums();
      }
      if source.types.Some? {
        ProcessTypes(s0);
      }
    }

    /** The loop over the enum classes, replacing each class in place. */
    method ProcessEnums()
      requires source.enums.Some?
      modifies this
      ensures source == old(source).(enums := Some(VerboseEnums(old(source).enums.value)))
    {
      ghost var m := source.enums.value;
      var todo := source.enums.value.Keys;
      while todo != {}
        invariant todo <= m.Keys
        invariant source.enums.Some? && source.enums.value.Keys == m.Keys
        invariant forall n :: n in m ==> source.enums.value[n] == if n in todo then m[n] else VerboseClass(m[n])
        invariant source == old(source).(enums := source.enums)
        decreases todo
      {
        var n :| n in todo;
        var items := VerboseItems(source.enums.value[n]);
        source := source.(enums := Some(source.enums.value[n := items]));
        todo := todo - {n};
      }
      assert source.enums.value == VerboseEnums(m);
    }

    /** The loop over `types`: a new pass on each body, in order; the processed bodies replace the old ones. */
    method ProcessTypes(ghost s0: Scope)
      requires s0.types.Some? && source.types == s0.types
      modifies this
      ensures source == old(source).(types := Some(TypeTable(EnumDefs(s0, 0))))
      decreases s0, 0
    {
      var defs := source.types.value.defs;
      var done: seq<TypeDef> := [];
      var i := 0;
      while i < |defs|
        invariant 0 <= i <= |defs| && defs == s0.types.value.defs
        invariant source == old(source)
        invariant done + EnumDefs(s0, i) == EnumDefs(s0, 0)
      {
        var nested := new EnumProcessor(defs[i].body);
        nested.PreProcess();
        assert EnumDefs(s0, i) == [TypeDef(defs[i].name, nested.source)] + EnumDefs(s0, i + 1);
        done := done + [TypeDef(defs[i].name, nested.source)];
        i := i + 1;
      }
      assert done == done + EnumDefs(s0, i);
      source := source.(types := Some(TypeTable(done)));
    }

    /** `post_process` does nothing. */
    method PostProcess()
    {
    }
  }

  /** The loop over one class: each bare name is replaced by its verbose form. */
  method VerboseItems(items: EnumClass) returns (r: EnumClass)
    ensures r == VerboseClass(items)
  {
    r := items;
    var todo := items.Keys;
    while todo != {}
      invariant todo <= items.Keys && r.Keys == items.Keys
      invariant forall k :: k in items ==> r[k] == if k in todo then items[k] else Verbose(items[k])
      decreases todo
    {
      var k :| k in todo;
      if r[k].VStr? {
        r := r[k := VDict(map[KStr("id") := r[k]])];
      }
      todo := todo - {k};
    }
  }
}
