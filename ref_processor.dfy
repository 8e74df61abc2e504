/**
 * The reference pass (src/frontend/ref_processor.py). For every scope it
 * records the list of `seq` ids, and builds a dependency graph with one node
 * per distinct id and an edge "A depends on B" whenever B's id is a
 * whitespace-separated token of a string under one of the reference keys of
 * entry A. Then it repeats on every nested type.
 *
 * The source also runs `replace(op, " ")` for every operator but drops the
 * result, so the tokens are those of the plain `split()`.
 */
module RefProcessor {
  import opened Results
  import opened Values
  import opened Collections
  import opened DependencyGraph
  import opened Tokens

  /** The keys whose string values may name other attributes, in the order the source visits them. */
  const RefKeys: seq<string> :=
    ["-fz-attr-len", "size", "-fz-process-crc32", "-fz-process-md5", "-fz-process-sha1",
     "-fz-process-sha224", "-fz-process-sha256", "-fz-process-sha384", "-fz-process-sha512",
     "-fz-process-sha-3-224", "-fz-process-sha-3-256", "-fz-process-sha-3-384", "-fz-process-sha-3-512"]

  const Unhashable: Error := TypeError("unhashable type")

  predicate AllHaveId(es: seq<Entry>) {
    forall i :: 0 <= i < |es| ==> "id" in es[i]
  }

  predicate AllTyped(es: seq<Entry>) {
    forall i :: 0 <= i < |es| ==> "type" in es[i]
  }

  predicate AllHashable(es: seq<Entry>)
    requires AllHaveId(es)
  {
    forall i :: 0 <= i < |es| ==> Hashable(es[i]["id"])
  }

  /** The ids of `seq`, in `seq` order. */
  function IdsOf(es: seq<Entry>): (r: seq<Value>)
    requires AllHaveId(es)
    ensures |r| == |es| && forall i :: 0 <= i < |es| ==> r[i] == es[i]["id"]
  {
    seq(|es|, i requires 0 <= i < |es| => es[i]["id"])
  }

  function IdSet(es: seq<Entry>): set<Value>
    requires AllHaveId(es)
  {
    Elems(IdsOf(es))
  }

  /** An attribute whose type is not a base type: its `size` names no dependency. */
  predicate Custom(e: Entry)
    requires "type" in e
  {
    !IsBaseType(e["type"])
  }

  /** The tokens of the value under key `k`: none unless it is a string the source reads. */
  function KeyTokens(e: Entry, k: string): seq<string>
    requires "type" in e
  {
    if (k == "size" && Custom(e)) || k !in e || !e[k].VStr? then [] else Split(e[k].s)
  }

  /** "`id` depends on t" for every token t that names an attribute of `ids`. */
  function TokenEdges(id: Value, toks: seq<string>, ids: set<Value>): set<(Value, Value)> {
    set t | t in toks && VStr(t) in ids :: (id, VStr(t))
  }

  /** The edges of one attribute from the reference keys `keys`. */
  function KeysEdges(e: Entry, keys: seq<string>, ids: set<Value>): set<(Value, Value)>
    requires "id" in e && "type" in e
  {
    if keys == [] then {}
    else KeysEdges(e, keys[..|keys| - 1], ids) + TokenEdges(e["id"], KeyTokens(e, keys[|keys| - 1]), ids)
  }

  /** The edges of a whole `seq`. */
  function RefEdges(es: seq<Entry>, ids: set<Value>): set<(Value, Value)>
    requires AllHaveId(es) && AllTyped(es)
  {
    if es == [] then {}
    else RefEdges(es[..|es| - 1], ids) + KeysEdges(es[|es| - 1], RefKeys, ids)
  }

  lemma {:induction false} KeysEdgesSound(e: Entry, keys: seq<string>, ids: set<Value>, p: (Value, Value))
    requires "id" in e && "type" in e && p in KeysEdges(e, keys, ids)
    ensures p.0 == e["id"] && p.1 in ids && p.1.VStr?
    ensures exists k :: k in keys && p.1.s in KeyTokens(e, k)
  {
    if keys != [] {
      var last := keys[|keys| - 1];
      if p in KeysEdges(e, keys[..|keys| - 1], ids) {
        KeysEdgesSound(e, keys[..|keys| - 1], ids, p);
        var k :| k in keys[..|keys| - 1] && p.1.s in KeyTokens(e, k);
        assert k in keys;
      } else {
        assert last in keys;
      }
    }
  }

  lemma {:induction false} KeysEdgesComplete(e: Entry, keys: seq<string>, ids: set<Value>, k: string, t: string)
    requires "id" in e && "type" in e && k in keys && t in KeyTokens(e, k) && VStr(t) in ids
    ensures (e["id"], VStr(t)) in KeysEdges(e, keys, ids)
  {
    if keys[|keys| - 1] != k {
      assert k in keys[..|keys| - 1] by {
        var j :| 0 <= j < |keys| && keys[j] == k;
        assert keys[..|keys| - 1][j] == k;
      }
      KeysEdgesComplete(e, keys[..|keys| - 1], ids, k, t);
    }
  }

  /**
   * An edge "a depends on b" is in the graph exactly when some attribute has
   * id `a` and one of its reference keys holds a string one of whose tokens
   * is `b`'s name, and `b` is the id of some attribute.
   */
  lemma {:induction false} RefEdgesSound(es: seq<Entry>, ids: set<Value>, p: (Value, Value))
    requires AllHaveId(es) && AllTyped(es) && p in RefEdges(es, ids)
    ensures p.1 in ids && p.1.VStr?
    ensures exists i :: 0 <= i < |es| && p.0 == es[i]["id"] && exists k :: k in RefKeys && p.1.s in KeyTokens(es[i], k)
  {
    var n := |es| - 1;
    if p in RefEdges(es[..n], ids) {
      RefEdgesSound(es[..n], ids, p);
      var i :| 0 <= i < n && p.0 == es[..n][i]["id"] && exists k :: k in RefKeys && p.1.s in KeyTokens(es[..n][i], k);
      assert es[..n][i] == es[i];
    } else {
      KeysEdgesSound(es[n], RefKeys, ids, p);
    }
  }

  lemma {:induction false} RefEdgesComplete(es: seq<Entry>, ids: set<Value>, i: nat, k: string, t: string)
    requires AllHaveId(es) && AllTyped(es) && i < |es|
    requires k in RefKeys && t in KeyTokens(es[i], k) && VStr(t) in ids
    ensures (es[i]["id"], VStr(t)) in RefEdges(es, ids)
  {
    var n := |es| - 1;
    if i == n {
      KeysEdgesComplete(es[n], RefKeys, ids, k, t);
    } else {
      assert es[..n][i] == es[i];
      RefEdgesComplete(es[..n], ids, i, k, t);
    }
  }

  /**
   * The error the graph construction meets first: a missing id while the id
   * list is built, then an id that cannot be a dict key, then a missing type
   * while the edges are linked.
   */
  function RefCheck(es: seq<Entry>): (r: Result<()>)
    ensures r.Ok? <==> AllHaveId(es) && AllHashable(es) && AllTyped(es)
  {
    if !AllHaveId(es) then Err(KeyError("id"))
    else if !AllHashable(es) then Err(Unhashable)
    else if !AllTyped(es) then Err(KeyError("type"))
    else Ok(())
  }

  /**
   * The pass on a scope tree, leaving out the graphs: every scope gets its
   * id list and no graph; the first failure, in visiting order, is the result.
   */
  function RefScope(s: Scope): (r: Result<Scope>)
    decreases s, 1, 0
  {
    if s.attrs.None? then Err(KeyError("seq"))
    else
      var _ :- RefCheck(s.attrs.value);
      var t := s.(availableRef := Some(IdsOf(s.attrs.value)), graph := None);
      if s.types.None? then Ok(t)
      else
        var defs :- RefDefs(s, 0);
        Ok(t.(types := Some(TypeTable(defs))))
  }

  function RefDefs(s: Scope, i: nat): (r: Result<seq<TypeDef>>)
    requires s.types.Some? && i <= |s.types.value.defs|
    decreases s, 0, |s.types.value.defs| - i
  {
    var defs := s.types.value.defs;
    if i == |defs| then Ok([])
    else
      var body :- RefScope(defs[i].body);
      var rest :- RefDefs(s, i + 1);
      Ok([TypeDef(defs[i].name, body)] + rest)
  }

  /** A scope tree with every graph dropped. */
  function Strip(s: Scope): Scope
    decreases s, 1
  {
    var t := s.(graph := None);
    if s.types.None? then t else t.(types := Some(TypeTable(StripDefs(s, 0))))
  }

  function StripDefs(s: Scope, i: nat): seq<TypeDef>
    requires s.types.Some? && i <= |s.types.value.defs|
    decreases s, 0, |s.types.value.defs| - i
  {
    var defs := s.types.value.defs;
    if i == |defs| then [] else [TypeDef(defs[i].name, Strip(defs[i].body))] + StripDefs(s, i + 1)
  }

  /** The graph built for the attributes `es`. */
  ghost predicate GraphOk(g: DependencyGraph<Value>, es: seq<Entry>)
    requires AllHaveId(es) && AllTyped(es)
    reads g, g.nodes
  {
    && Data(g.nodes) == IdSet(es)
    && DistinctData(g.nodes)
    && g.numNodes == |g.nodes|
    && DataEdges(g.nodes) == RefEdges(es, IdSet(es))
    && Closed(g.nodes) && Mirrored(g.nodes) && !Dangling(g.nodes)
  }

  /** `g` is the graph built for the attributes `es`. */
  ghost predicate Built(g: DependencyGraph<Value>, es: seq<Entry>)
    reads g, g.nodes
  {
    AllHaveId(es) && AllTyped(es) && GraphOk(g, es)
  }

  /** Every scope of the tree has attributes that pass `RefCheck` and a graph. */
  predicate Shaped(s: Scope)
    decreases s
  {
    && s.attrs.Some? && RefCheck(s.attrs.value).Ok? && s.graph.Some?
    && (s.types.Some? ==> forall j :: 0 <= j < |s.types.value.defs| ==> Shaped(s.types.value.defs[j].body))
  }

  /** Each scope's graph paired with that scope's attributes. */
  function Pairs(s: Scope): set<(DependencyGraph<Value>, seq<Entry>)>
    decreases s, 1
  {
    (if s.graph.Some? && s.attrs.Some? then {(s.graph.value, s.attrs.value)} else {})
    + (if s.types.None? then {} else DefsPairs(s))
  }

  /** The pairs of the nested types of `s`. */
  function DefsPairs(s: Scope): set<(DependencyGraph<Value>, seq<Entry>)>
    requires s.types.Some?
    decreases s, 0
  {
    set j, p | 0 <= j < |s.types.value.defs| && p in Pairs(s.types.value.defs[j].body) :: p
  }

  ghost function PairGraphs(ps: set<(DependencyGraph<Value>, seq<Entry>)>): set<DependencyGraph<Value>> {
    set p | p in ps :: p.0
  }

  ghost function PairNodes(ps: set<(DependencyGraph<Value>, seq<Entry>)>): set<DependencyGraphNode<Value>>
    reads PairGraphs(ps)
  {
    set p, n | p in ps && n in p.0.nodes :: n
  }

  ghost predicate AllBuilt(ps: set<(DependencyGraph<Value>, seq<Entry>)>)
    reads PairGraphs(ps), PairNodes(ps)
  {
    forall p :: p in ps ==> Built(p.0, p.1)
  }

  /** Every scope of the tree holds the graph built for its own attributes. */
  ghost predicate GraphsOk(s: Scope)
    reads PairGraphs(Pairs(s)), PairNodes(Pairs(s))
  {
    Shaped(s) && AllBuilt(Pairs(s))
  }

  lemma TokenEdgesStep(id: Value, toks: seq<string>, j: nat, ids: set<Value>)
    requires j < |toks|
    ensures TokenEdges(id, toks[..j + 1], ids)
            == TokenEdges(id, toks[..j], ids) + (if VStr(toks[j]) in ids then {(id, VStr(toks[j]))} else {})
  {
    assert toks[..j + 1] == toks[..j] + [toks[j]];
  }

  /** One step of the nested passes: the `i`-th body's result decides whether the rest is looked at. */
  lemma RefDefsStep(s: Scope, i: nat)
    requires s.types.Some? && i < |s.types.value.defs|
    ensures RefScope(s.types.value.defs[i].body).Err? ==>
              RefDefs(s, i) == Err(RefScope(s.types.value.defs[i].body).error)
    ensures RefScope(s.types.value.defs[i].body).Ok? ==>
              && (RefDefs(s, i).Ok? <==> RefDefs(s, i + 1).Ok?)
              && (RefDefs(s, i).Err? ==> RefDefs(s, i).error == RefDefs(s, i + 1).error)
              && (RefDefs(s, i).Ok? ==>
                    RefDefs(s, i).value
                    == [TypeDef(s.types.value.defs[i].name, RefScope(s.types.value.defs[i].body).value)]
                       + RefDefs(s, i + 1).value)
  {
  }

  /** `StripDefs` strips each nested body on its own, keeping names and order. */
  lemma {:induction false} StripDefsPointwise(s: Scope, i: nat)
    requires s.types.Some? && i <= |s.types.value.defs|
    ensures |StripDefs(s, i)| == |s.types.value.defs| - i
    ensures forall j :: i <= j < |s.types.value.defs| ==>
              StripDefs(s, i)[j - i] == TypeDef(s.types.value.defs[j].name, Strip(s.types.value.defs[j].body))
    decreases |s.types.value.defs| - i
  {
    if i < |s.types.value.defs| {
      StripDefsPointwise(s, i + 1);
    }
  }

  /** A list of processed types with every body stripped. */
  function StripList(ds: seq<TypeDef>): (r: seq<TypeDef>)
    ensures |r| == |ds|
  {
    if ds == [] then [] else StripList(ds[..|ds| - 1]) + [TypeDef(ds[|ds| - 1].name, Strip(ds[|ds| - 1].body))]
  }

  /** Every body of a list of processed types is `Shaped`. */
  predicate ShapedList(ds: seq<TypeDef>) {
    ds == [] || (ShapedList(ds[..|ds| - 1]) && Shaped(ds[|ds| - 1].body))
  }

  /** The pairs of all bodies of a list of processed types. */
  function ListPairs(ds: seq<TypeDef>): set<(DependencyGraph<Value>, seq<Entry>)> {
    if ds == [] then {} else ListPairs(ds[..|ds| - 1]) + Pairs(ds[|ds| - 1].body)
  }

  lemma {:induction false} StripListPointwise(ds: seq<TypeDef>)
    ensures forall j :: 0 <= j < |ds| ==> StripList(ds)[j] == TypeDef(ds[j].name, Strip(ds[j].body))
  {
    if ds != [] {
      StripListPointwise(ds[..|ds| - 1]);
    }
  }

  lemma {:induction false} ShapedListPointwise(ds: seq<TypeDef>)
    requires ShapedList(ds)
    ensures forall j :: 0 <= j < |ds| ==> Shaped(ds[j].body)
  {
    if ds != [] {
      ShapedListPointwise(ds[..|ds| - 1]);
    }
  }

  lemma {:induction false} ListPairsCover(ds: seq<TypeDef>)
    ensures forall j, p :: 0 <= j < |ds| && p in Pairs(ds[j].body) ==> p in ListPairs(ds)
  {
    if ds != [] {
      ListPairsCover(ds[..|ds| - 1]);
    }
  }

  /** `r` with `p` put in front of its list, if it has one. */
  function Prefixed(p: seq<TypeDef>, r: Result<seq<TypeDef>>): Result<seq<TypeDef>> {
    if r.Ok? then Ok(p + r.value) else r
  }

  /** After a nested pass that succeeds, its stripped result moves from the pending part to the prefix. */
  lemma ProgressOk(s: Scope, i: nat, done: seq<TypeDef>, body: Scope)
    requires s.types.Some? && i < |s.types.value.defs|
    requires RefScope(s.types.value.defs[i].body).Ok? && Strip(body) == RefScope(s.types.value.defs[i].body).value
    ensures Prefixed(StripList(done), RefDefs(s, i))
            == Prefixed(StripList(done + [TypeDef(s.types.value.defs[i].name, body)]), RefDefs(s, i + 1))
  {
    RefDefsStep(s, i);
    var d := done + [TypeDef(s.types.value.defs[i].name, body)];
    assert d[..|d| - 1] == done;
    if RefDefs(s, i + 1).Ok? {
      var x := TypeDef(s.types.value.defs[i].name, Strip(body));
      assert StripList(done) + ([x] + RefDefs(s, i + 1).value) == (StripList(done) + [x]) + RefDefs(s, i + 1).value;
    }
  }

  /** A nested pass that fails decides the result of the whole list. */
  lemma ProgressErr(s: Scope, i: nat, done: seq<TypeDef>)
    requires s.types.Some? && i < |s.types.value.defs|
    requires RefScope(s.types.value.defs[i].body).Err?
    ensures Prefixed(StripList(done), RefDefs(s, i)) == Err(RefScope(s.types.value.defs[i].body).error)
  {
    RefDefsStep(s, i);
  }

  /** The processed list `done`, stored as the type table of `t`, satisfies what the nested passes promise. */
  lemma ProcessedTable(t: Scope, done: seq<TypeDef>)
    requires t.types == Some(TypeTable(done)) && ShapedList(done)
    ensures StripDefs(t, 0) == StripList(done)
    ensures forall j :: 0 <= j < |done| ==> Shaped(done[j].body)
    ensures DefsPairs(t) <= ListPairs(done)
  {
    StripDefsPointwise(t, 0);
    StripListPointwise(done);
    ShapedListPointwise(done);
    ListPairsCover(done);
  }

  /**
   * The loop over `types` after `|done|` nested passes: the processed
   * bodies strip to the first results of `RefDefs`, are shaped, and their
   * pairs are `ps`.
   */
  ghost predicate Progress(s0: Scope, done: seq<TypeDef>, ps: set<(DependencyGraph<Value>, seq<Entry>)>)
    requires s0.types.Some?
  {
    && |done| <= |s0.types.value.defs|
    && RefDefs(s0, 0) == Prefixed(StripList(done), RefDefs(s0, |done|))
    && ShapedList(done) && ListPairs(done) == ps
  }

  lemma ProgressStart(s0: Scope)
    requires s0.types.Some?
    ensures Progress(s0, [], {})
  {
    assert StripList([]) == [];
    if RefDefs(s0, 0).Ok? {
      assert [] + RefDefs(s0, 0).value == RefDefs(s0, 0).value;
    }
  }

  lemma ProgressNext(s0: Scope, done: seq<TypeDef>, ps: set<(DependencyGraph<Value>, seq<Entry>)>, body: Scope)
    requires s0.types.Some? && Progress(s0, done, ps) && |done| < |s0.types.value.defs|
    requires RefScope(s0.types.value.defs[|done|].body).Ok?
    requires Strip(body) == RefScope(s0.types.value.defs[|done|].body).value && Shaped(body)
    ensures Progress(s0, done + [TypeDef(s0.types.value.defs[|done|].name, body)], ps + Pairs(body))
  {
    var d := done + [TypeDef(s0.types.value.defs[|done|].name, body)];
    assert d[..|d| - 1] == done;
    ProgressOk(s0, |done|, done, body);
  }

  lemma ProgressFail(s0: Scope, done: seq<TypeDef>, ps: set<(DependencyGraph<Value>, seq<Entry>)>)
    requires s0.types.Some? && Progress(s0, done, ps) && |done| < |s0.types.value.defs|
    requires RefScope(s0.types.value.defs[|done|].body).Err?
    ensures RefDefs(s0, 0) == Err(RefScope(s0.types.value.defs[|done|].body).error)
  {
    ProgressErr(s0, |done|, done);
  }

  lemma ProgressDone(s0: Scope, done: seq<TypeDef>, ps: set<(DependencyGraph<Value>, seq<Entry>)>, t: Scope)
    requires s0.types.Some? && Progress(s0, done, ps) && |done| == |s0.types.value.defs|
    requires t.types == Some(TypeTable(done))
    ensures RefDefs(s0, 0).Ok? && StripDefs(t, 0) == RefDefs(s0, 0).value
    ensures forall j :: 0 <= j < |done| ==> Shaped(done[j].body)
    ensures DefsPairs(t) <= ps
  {
    assert RefDefs(s0, |done|) == Ok([]) && StripList(done) + [] == StripList(done);
    ProcessedTable(t, done);
  }

  /**
   * The first loop of `_construct_dependency_graph`: a fresh node per id,
   * in a dict keyed by id, so a repeated id replaces the earlier node.
   * `keys` is the dict's insertion order. An id that is a list or a dict
   * cannot be a key.
   */
  method CreateNodes(es: seq<Entry>) returns (ok: bool, nodes: map<Value, DependencyGraphNode<Value>>, keys: seq<Value>)
    requires AllHaveId(es)
    ensures ok <==> AllHashable(es)
    ensures ok ==> nodes.Keys == IdSet(es) && Elems(keys) == nodes.Keys && Distinct(keys)
    ensures ok ==> forall k :: k in nodes ==>
              fresh(nodes[k]) && nodes[k].data == k && nodes[k].dependents == {} && nodes[k].dependees == {}
  {
    nodes, keys := map[], [];
    ghost var ids := IdsOf(es);
    for i := 0 to |es|
      invariant nodes.Keys == Elems(ids[..i]) == Elems(keys) && Distinct(keys)
      invariant forall j :: 0 <= j < i ==> Hashable(es[j]["id"])
      invariant forall k :: k in nodes ==>
                  fresh(nodes[k]) && nodes[k].data == k && nodes[k].dependents == {} && nodes[k].dependees == {}
    {
      var id := es[i]["id"];
      if !Hashable(id) {
        return false, nodes, keys;
      }
      var node := new DependencyGraphNode(id);
      assert ids[..i + 1] == ids[..i] + [id];
      ElemsAppend(ids[..i], id);
      if id !in nodes {
        ElemsAppend(keys, id);
        DistinctConcat(keys, [id]);
        keys := keys + [id];
      }
      nodes := nodes[id := node];
    }
    assert ids[..|es|] == ids;
    ok := true;
  }

  /** The recorded edges of the nodes in `gn` are kept in step with the heap and with `linked`. */
  ghost predicate Linking(gn: set<DependencyGraphNode<Value>>,
                          outs: map<DependencyGraphNode<Value>, set<DependencyGraphNode<Value>>>,
                          ins: map<DependencyGraphNode<Value>, set<DependencyGraphNode<Value>>>,
                          nodes: map<Value, DependencyGraphNode<Value>>, linked: set<(Value, Value)>)
    reads gn
  {
    && (forall k :: k in nodes ==> nodes[k] in gn && nodes[k].data == k)
    && Abstracts(gn, outs, ins) && WellLinked(gn, outs, ins) && LinksMatch(gn, outs, nodes, linked)
  }

  /** `nodes[x].depends_on(nodes[y])`. */
  method LinkOne(x: Value, y: Value, nodes: map<Value, DependencyGraphNode<Value>>,
                 ghost gn: set<DependencyGraphNode<Value>>,
                 ghost outs: map<DependencyGraphNode<Value>, set<DependencyGraphNode<Value>>>,
                 ghost ins: map<DependencyGraphNode<Value>, set<DependencyGraphNode<Value>>>,
                 ghost linked: set<(Value, Value)>)
    returns (ghost outs': map<DependencyGraphNode<Value>, set<DependencyGraphNode<Value>>>,
             ghost ins': map<DependencyGraphNode<Value>, set<DependencyGraphNode<Value>>>)
    requires x in nodes && y in nodes && Linking(gn, outs, ins, nodes, linked)
    modifies gn
    ensures Linking(gn, outs', ins', nodes, linked + {(x, y)})
  {
    LinkStep(gn, outs, ins, nodes, linked, x, y);
    outs', ins' := DependencyGraph<Value>.LinkRecorded(nodes[x], nodes[y], gn, outs, ins);
  }

  /** The innermost loop: `id` depends on every token that names an attribute. */
  method LinkTokens(id: Value, toks: seq<string>, nodes: map<Value, DependencyGraphNode<Value>>,
                    ghost gn: set<DependencyGraphNode<Value>>,
                    ghost outs: map<DependencyGraphNode<Value>, set<DependencyGraphNode<Value>>>,
                    ghost ins: map<DependencyGraphNode<Value>, set<DependencyGraphNode<Value>>>,
                    ghost linked: set<(Value, Value)>)
    returns (ghost outs': map<DependencyGraphNode<Value>, set<DependencyGraphNode<Value>>>,
             ghost ins': map<DependencyGraphNode<Value>, set<DependencyGraphNode<Value>>>,
             ghost linked': set<(Value, Value)>)
    requires id in nodes && Linking(gn, outs, ins, nodes, linked)
    modifies gn
    ensures Linking(gn, outs', ins', nodes, linked')
    ensures linked' == linked + TokenEdges(id, toks, nodes.Keys)
  {
    outs', ins', linked' := outs, ins, linked;
    for j := 0 to |toks|
      invariant Linking(gn, outs', ins', nodes, linked')
      invariant linked' == linked + TokenEdges(id, toks[..j], nodes.Keys)
    {
      var target := VStr(toks[j]);
      TokenEdgesStep(id, toks, j, nodes.Keys);
      if target in nodes {
        outs', ins' := LinkOne(id, target, nodes, gn, outs', ins', linked');
        linked' := linked' + {(id, target)};
      }
    }
    assert toks[..|toks|] == toks;
  }

  lemma KeysEdgesStep(e: Entry, keys: seq<string>, ki: nat, ids: set<Value>)
    requires "id" in e && "type" in e && ki < |keys|
    ensures KeysEdges(e, keys[..ki + 1], ids) == KeysEdges(e, keys[..ki], ids) + TokenEdges(e["id"], KeyTokens(e, keys[ki]), ids)
  {
    assert keys[..ki + 1][..ki] == keys[..ki];
  }

  lemma RefEdgesStep(es: seq<Entry>, i: nat, ids: set<Value>)
    requires i < |es| && AllHaveId(es) && AllTyped(es[..i]) && "type" in es[i]
    ensures AllHaveId(es[..i + 1]) && AllTyped(es[..i + 1])
    ensures RefEdges(es[..i + 1], ids) == RefEdges(es[..i], ids) + KeysEdges(es[i], RefKeys, ids)
  {
    assert es[..i + 1][..i] == es[..i];
    assert es[..i + 1][i] == es[i];
  }

  /** The loop over the reference keys of one attribute; `size` is skipped for a custom type. */
  method LinkKeys(e: Entry, keys: seq<string>, nodes: map<Value, DependencyGraphNode<Value>>,
                  ghost gn: set<DependencyGraphNode<Value>>,
                  ghost outs: map<DependencyGraphNode<Value>, set<DependencyGraphNode<Value>>>,
                  ghost ins: map<DependencyGraphNode<Value>, set<DependencyGraphNode<Value>>>,
                  ghost linked: set<(Value, Value)>)
    returns (ghost outs': map<DependencyGraphNode<Value>, set<DependencyGraphNode<Value>>>,
             ghost ins': map<DependencyGraphNode<Value>, set<DependencyGraphNode<Value>>>,
             ghost linked': set<(Value, Value)>)
    requires "id" in e && "type" in e && e["id"] in nodes && Linking(gn, outs, ins, nodes, linked)
    modifies gn
    ensures Linking(gn, outs', ins', nodes, linked')
    ensures linked' == linked + KeysEdges(e, keys, nodes.Keys)
  {
    outs', ins', linked' := outs, ins, linked;
    var id := e["id"];
    var isCustom := !IsBaseType(e["type"]);
    for ki := 0 to |keys|
      invariant Linking(gn, outs', ins', nodes, linked')
      invariant linked' == linked + KeysEdges(e, keys[..ki], nodes.Keys)
    {
      var key := keys[ki];
      KeysEdgesStep(e, keys, ki, nodes.Keys);
      ghost var before := linked';
      if (isCustom && key == "size") || key !in e || !e[key].VStr? {
        assert KeyTokens(e, key) == [];
        assert TokenEdges(id, [], nodes.Keys) == {};
      } else {
        outs', ins', linked' := LinkTokens(id, Split(e[key].s), nodes, gn, outs', ins', linked');
      }
      assert linked' == before + TokenEdges(id, KeyTokens(e, key), nodes.Keys);
    }
    assert keys[..|keys|] == keys;
  }

  /**
   * The second loop of `_construct_dependency_graph`: links every attribute;
   * an attribute without a `type` stops it. On success the graph holds
   * exactly the reference edges of the `seq`.
   */
  method LinkAll(es: seq<Entry>, nodes: map<Value, DependencyGraphNode<Value>>, ghost gn: set<DependencyGraphNode<Value>>)
    returns (ok: bool)
    requires AllHaveId(es) && nodes.Keys == IdSet(es)
    requires forall k :: k in nodes ==> nodes[k] in gn && nodes[k].data == k
    requires Unlinked(gn)
    modifies gn
    ensures ok <==> AllTyped(es)
    ensures ok ==> Closed(gn) && Mirrored(gn) && DataEdges(gn) == RefEdges(es, IdSet(es))
  {
    ghost var outs: map<DependencyGraphNode<Value>, set<DependencyGraphNode<Value>>> := map n | n in gn :: {};
    ghost var ins: map<DependencyGraphNode<Value>, set<DependencyGraphNode<Value>>> := map n | n in gn :: {};
    ghost var linked: set<(Value, Value)> := {};
    ghost var ids := IdSet(es);
    for i := 0 to |es|
      invariant AllTyped(es[..i])
      invariant Linking(gn, outs, ins, nodes, linked)
      invariant linked == RefEdges(es[..i], ids)
    {
      var e := es[i];
      if "type" !in e {
        return false;
      }
      assert e["id"] in nodes by {
        assert IdsOf(es)[i] == e["id"];
      }
      assert es[..i + 1][i] == e;
      RefEdgesStep(es, i, ids);
      outs, ins, linked := LinkKeys(e, RefKeys, nodes, gn, outs, ins, linked);
    }
    assert es[..|es|] == es;
    WellLinkedHeap(gn, outs, ins);
    LinksMatchEdges(gn, outs, ins, nodes, linked);
    ok := true;
  }

  /** The node list handed to `add_nodes`: one node per key, each key's node. */
  lemma NodeList(nodes: map<Value, DependencyGraphNode<Value>>, keys: seq<Value>, vals: seq<DependencyGraphNode<Value>>)
    requires Elems(keys) == nodes.Keys && Distinct(keys)
    requires forall k :: k in nodes ==> nodes[k].data == k
    requires |vals| == |keys| && forall i :: 0 <= i < |keys| ==> vals[i] == nodes[keys[i]]
    ensures forall k :: k in nodes ==> nodes[k] in Elems(vals)
    ensures forall n :: n in Elems(vals) ==> n.data in nodes && nodes[n.data] == n
    ensures |Elems(vals)| == |keys|
  {
    forall k | k in nodes
      ensures nodes[k] in Elems(vals)
    {
      var i :| 0 <= i < |keys| && keys[i] == k;
      assert vals[i] == nodes[k];
    }
    assert Distinct(vals) by {
      forall a, b | 0 <= a < b < |vals|
        ensures vals[a] != vals[b]
      {
        assert vals[a].data == keys[a] && vals[b].data == keys[b];
      }
    }
    DistinctCard(vals);
  }

  /** A graph whose nodes are those of `nodes`, linked with the reference edges, is the one built for `es`. */
  lemma GraphBuilt(g: DependencyGraph<Value>, es: seq<Entry>, nodes: map<Value, DependencyGraphNode<Value>>)
    requires AllHaveId(es) && AllTyped(es) && nodes.Keys == IdSet(es)
    requires forall k :: k in nodes ==> nodes[k] in g.nodes && nodes[k].data == k
    requires forall n :: n in g.nodes ==> n.data in nodes && nodes[n.data] == n
    requires g.numNodes == |g.nodes|
    requires Closed(g.nodes) && Mirrored(g.nodes) && DataEdges(g.nodes) == RefEdges(es, IdSet(es))
    ensures Built(g, es)
  {
    assert Data(g.nodes) == nodes.Keys;
  }

  /** The pass object over one scope. */
  class RefProcessor {
    var source: Scope

    constructor(source: Scope)
      ensures this.source == source
    {
      this.source := source;
    }

    /** `pre_process` does nothing. */
    method PreProcess()
    {
    }

    /**
     * `post_process`: the id list, then the graph, then a new pass on every
     * nested type. The result, graphs aside, is `RefScope`, and every scope
     * of the tree holds the graph of its own `seq`.
     */
    method PostProcess() returns (r: Result<()>)
      modifies this
      ensures r.Ok? <==> RefScope(old(source)).Ok?
      ensures r.Err? ==> r.error == RefScope(old(source)).error
      ensures r.Ok? ==> Strip(source) == RefScope(old(source)).value && GraphsOk(source)
      decreases source, 1
    {
      ghost var s0 := source;
      r := ConstructAvailableRef();
      if r.Err? {
        return;
      }
      r := ConstructDependencyGraph();
      if r.Err? {
        return;
      }
      if source.types.Some? {
        r := ProcessTypes(s0);
      }
    }

    /** `_construct_available_ref`: the list of ids, in `seq` order. */
    method ConstructAvailableRef() returns (r: Result<()>)
      modifies this
      ensures old(source).attrs.None? ==> r == Err(KeyError("seq"))
      ensures old(source).attrs.Some? ==> r == if AllHaveId(old(source).attrs.value) then Ok(()) else Err(KeyError("id"))
      ensures r.Ok? ==> source == old(source).(availableRef := Some(IdsOf(old(source).attrs.value)))
    {
      source := source.(availableRef := Some([]));
      if source.attrs.None? {
        return Err(KeyError("seq"));
      }
      var es := source.attrs.value;
      for i := 0 to |es|
        invariant source == old(source).(availableRef := source.availableRef)
        invariant source.availableRef.Some? && |source.availableRef.value| == i
        invariant forall j :: 0 <= j < i ==> "id" in es[j] && source.availableRef.value[j] == es[j]["id"]
      {
        if "id" !in es[i] {
          return Err(KeyError("id"));
        }
        source := source.(availableRef := Some(source.availableRef.value + [es[i]["id"]]));
      }
      assert source.availableRef.value == IdsOf(es);
      r := Ok(());
    }

    /**
     * `_construct_dependency_graph`: a new graph is stored first; then the
     * nodes, one per distinct id, and the edges. The result is the first
     * failure `RefCheck` names.
     */
    method ConstructDependencyGraph() returns (r: Result<()>)
      requires source.attrs.Some? && AllHaveId(source.attrs.value)
      modifies this
      ensures r == RefCheck(old(source).attrs.value)
      ensures source == old(source).(graph := source.graph) && source.graph.Some? && fresh(source.graph.value)
      ensures r.Ok? ==> Built(source.graph.value, source.attrs.value)
    {
      var g := new DependencyGraph<Value>();
      source := source.(graph := Some(g));
      r := Populate(g, source.attrs.value);
    }

    /** The body of `_construct_dependency_graph` after the empty graph is stored. */
    static method Populate(g: DependencyGraph<Value>, es: seq<Entry>) returns (r: Result<()>)
      requires AllHaveId(es) && g.nodes == {} && g.numNodes == 0
      modifies g
      ensures r == RefCheck(es)
      ensures r.Ok? ==> Built(g, es)
    {
      var ok, nodes, keys := CreateNodes(es);
      if !ok {
        return Err(Unhashable);
      }
      var vals := seq(|keys|, i requires 0 <= i < |keys| => nodes[keys[i]]);
      NodeList(nodes, keys, vals);
      g.AddNodes(vals);
      ghost var gn := g.nodes;
      assert g.numNodes == |gn|;
      ok := LinkAll(es, nodes, gn);
      if !ok {
        return Err(KeyError("type"));
      }
      assert g.nodes == gn && g.numNodes == |gn|;
      GraphBuilt(g, es, nodes);
      r := Ok(());
    }

    /**
     * `RefProcessor(custom_type_src).post_process()` on one nested body;
     * the graphs built so far, in `ps`, are left as they are.
     */
    static method RunNested(body: Scope, ghost ps: set<(DependencyGraph<Value>, seq<Entry>)>)
      returns (r: Result<()>, out: Scope)
      requires AllBuilt(ps)
      ensures r.Ok? <==> RefScope(body).Ok?
      ensures r.Err? ==> r.error == RefScope(body).error
      ensures r.Ok? ==> Strip(out) == RefScope(body).value && Shaped(out)
      ensures AllBuilt(ps)
      ensures r.Ok? ==> AllBuilt(ps + Pairs(out))
      decreases body, 2
    {
      var nested := new RefProcessor(body);
      r := nested.PostProcess();
      out := nested.source;
    }

    /** The loop over `types`: a new pass on each body, in order. */
    method ProcessTypes(ghost s0: Scope) returns (r: Result<()>)
      requires s0.types.Some? && source.types == s0.types
      modifies this
      ensures r.Ok? <==> RefDefs(s0, 0).Ok?
      ensures r.Err? ==> r.error == RefDefs(s0, 0).error
      ensures r.Ok? ==> source == old(source).(types := source.types) && source.types.Some?
      ensures r.Ok? ==> StripDefs(source, 0) == RefDefs(s0, 0).value
      ensures r.Ok? ==> forall j :: 0 <= j < |source.types.value.defs| ==> Shaped(source.types.value.defs[j].body)
      ensures r.Ok? ==> AllBuilt(DefsPairs(source))
      decreases s0, 0
    {
      var defs := source.types.value.defs;
      var done: seq<TypeDef> := [];
      ghost var ps: set<(DependencyGraph<Value>, seq<Entry>)> := {};
      ProgressStart(s0);
      var i := 0;
      while i < |defs|
        invariant 0 <= i <= |defs| && defs == s0.types.value.defs && |done| == i
        invariant source == old(source)
        invariant Progress(s0, done, ps) && AllBuilt(ps)
      {
        var res, body := RunNested(defs[i].body, ps);
        if res.Err? {
          ProgressFail(s0, done, ps);
          source := source.(types := Some(TypeTable(done + [TypeDef(defs[i].name, body)] + defs[i + 1..])));
          return Err(res.error);
        }
        ProgressNext(s0, done, ps, body);
        done := done + [TypeDef(defs[i].name, body)];
        ps := ps + Pairs(body);
        i := i + 1;
      }
      var t := source.(types := Some(TypeTable(done)));
      ProgressDone(s0, done, ps, t);
      source := t;
      r := Ok(());
    }
  }
}
