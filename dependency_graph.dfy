/**
 * Model of src/datastructure/dependency_graph.py: a directed graph whose
 * nodes keep mirrored edge sets, and Kahn's algorithm run on a copy of it.
 *
 * "A depends on B" is stored twice: B is in A.dependents and A is in
 * B.dependees.
 */
module DependencyGraph {
  import opened Results
  import opened Collections

  class DependencyGraphNode<T(==)> {
    const data: T
    /** Nodes that depend on this node. */
    var dependees: set<DependencyGraphNode<T>>
    /** Nodes this node depends on. */
    var dependents: set<DependencyGraphNode<T>>

    constructor (data: T)
      ensures this.data == data
      ensures dependees == {} && dependents == {}
    {
      this.data := data;
      dependees := {};
      dependents := {};
    }

    /** Records "this depends on node" on both sides of the edge. */
    method DependsOn(node: DependencyGraphNode<T>)
      modifies this, node
      ensures dependents == old(dependents) + {node}
      ensures node.dependees == old(node.dependees) + {this}
      ensures node != this ==> dependees == old(dependees) && node.dependents == old(node.dependents)
    {
      dependents := dependents + {node};
      node.dependees := node.dependees + {this};
    }

    /**
     * Removes the edge "this depends on node" from both sides and returns
     * `node`; returns None and changes nothing when there is no such edge.
     * When only this side records the edge, the second removal fails with a
     * KeyError after the first one has happened.
     */
    method RemoveDependent(node: DependencyGraphNode<T>) returns (r: Result<Option<DependencyGraphNode<T>>>)
      modifies this, node
      ensures node !in old(dependents) ==>
                r == Ok(None) && dependents == old(dependents) && dependees == old(dependees) &&
                node.dependents == old(node.dependents) && node.dependees == old(node.dependees)
      ensures node in old(dependents) ==> dependents == old(dependents) - {node}
      ensures node in old(dependents) && this in old(node.dependees) ==>
                r == Ok(Some(node)) && node.dependees == old(node.dependees) - {this}
      ensures node in old(dependents) && this !in old(node.dependees) ==>
                r == Err(KeyError("")) && node.dependees == old(node.dependees)
      ensures node != this ==> dependees == old(dependees) && node.dependents == old(node.dependents)
    {
      if node in dependents {
        dependents := dependents - {node};
        if this !in node.dependees {
          return Err(KeyError(""));
        }
        node.dependees := node.dependees - {this};
        r := Ok(Some(node));
      } else {
        r := Ok(None);
      }
    }

    function NumDependents(): (n: nat)
      reads this
      ensures n == 0 <==> dependents == {}
    {
      |dependents|
    }

    predicate HasDependents()
      reads this
      ensures HasDependents() <==> NumDependents() > 0
    {
      dependents != {}
    }
  }

  /** The data carried by a set of nodes. */
  ghost function Data<T>(s: set<DependencyGraphNode<T>>): set<T> {
    set n | n in s :: n.data
  }

  /** No two nodes of `s` carry the same data. */
  ghost predicate DistinctData<T>(s: set<DependencyGraphNode<T>>) {
    forall a, b :: a in s && b in s && a.data == b.data ==> a == b
  }

  lemma DataAdd<T>(s: set<DependencyGraphNode<T>>, n: DependencyGraphNode<T>)
    ensures Data(s + {n}) == Data(s) + {n.data}
  {
  }

  /** No node of `s` has an edge yet. */
  ghost predicate Unlinked<T>(s: set<DependencyGraphNode<T>>)
    reads s
  {
    forall n :: n in s ==> n.dependents == {} && n.dependees == {}
  }

  /** The bookkeeping of the copy's first loop after one more node. */
  ghost predicate CreatedFor<T>(nodes: set<DependencyGraphNode<T>>, todo: set<DependencyGraphNode<T>>,
                                newNodes: map<T, DependencyGraphNode<T>>, made: set<DependencyGraphNode<T>>) {
    && todo <= nodes
    && newNodes.Keys == Data(nodes - todo)
    && (forall k :: k in newNodes ==> newNodes[k] in made && newNodes[k].data == k)
    && Data(made) == Data(nodes - todo)
    && |made| == |nodes - todo|
    && (DistinctData(nodes) ==> DistinctData(made))
  }

  lemma CreatedForStep<T>(nodes: set<DependencyGraphNode<T>>, todo: set<DependencyGraphNode<T>>,
                          newNodes: map<T, DependencyGraphNode<T>>, made: set<DependencyGraphNode<T>>,
                          n: DependencyGraphNode<T>, m: DependencyGraphNode<T>)
    requires CreatedFor(nodes, todo, newNodes, made)
    requires n in todo && m !in made && m.data == n.data
    ensures CreatedFor(nodes, todo - {n}, newNodes[n.data := m], made + {m})
  {
    var done := nodes - todo;
    var newMap := newNodes[n.data := m];
    assert nodes - (todo - {n}) == done + {n};
    DataAdd(done, n);
    DataAdd(made, m);
    assert newMap.Keys == Data(done + {n});
    forall k | k in newMap
      ensures newMap[k] in made + {m} && newMap[k].data == k
    {
    }
    assert |done + {n}| == |done| + 1 && |made + {m}| == |made| + 1;
    if DistinctData(nodes) {
      NewDataNotDone(nodes, done, n);
      DistinctDataAdd(made, m);
    }
  }

  lemma NewDataNotDone<T>(nodes: set<DependencyGraphNode<T>>, done: set<DependencyGraphNode<T>>,
                          n: DependencyGraphNode<T>)
    requires DistinctData(nodes) && done <= nodes && n in nodes - done
    ensures n.data !in Data(done)
  {
    forall x | x in done
      ensures x.data != n.data
    {
      assert x != n;
    }
  }

  lemma DistinctDataAdd<T>(s: set<DependencyGraphNode<T>>, m: DependencyGraphNode<T>)
    requires DistinctData(s) && m.data !in Data(s)
    ensures DistinctData(s + {m})
  {
    forall a | a in s
      ensures a.data != m.data
    {
      assert a.data in Data(s);
    }
  }

  lemma CreatedForDone<T>(nodes: set<DependencyGraphNode<T>>, newNodes: map<T, DependencyGraphNode<T>>,
                          made: set<DependencyGraphNode<T>>)
    requires CreatedFor(nodes, {}, newNodes, made)
    ensures newNodes.Keys == Data(nodes) && Data(made) == Data(nodes) && |made| == |nodes|
    ensures forall k :: k in newNodes ==> newNodes[k] in made && newNodes[k].data == k
    ensures DistinctData(nodes) ==> DistinctData(made)
  {
    assert nodes - {} == nodes;
  }

  /** The depends-on relation of `s`, stated on node data. */
  ghost function DataEdges<T>(s: set<DependencyGraphNode<T>>): set<(T, T)>
    reads s
  {
    set a, b | a in s && b in a.dependents :: (a.data, b.data)
  }

  /** Every edge of a node of `s` leads to a node of `s`. */
  ghost predicate Closed<T>(s: set<DependencyGraphNode<T>>)
    reads s
  {
    forall n :: n in s ==> n.dependents <= s && n.dependees <= s
  }

  /** The two edge sets of `s` describe the same relation. */
  ghost predicate Mirrored<T>(s: set<DependencyGraphNode<T>>)
    reads s
  {
    forall a, b :: a in s && b in s ==> (b in a.dependents <==> a in b.dependees)
  }

  /** Some node's dependency data names no node of `s`. */
  ghost predicate Dangling<T>(s: set<DependencyGraphNode<T>>)
    reads s
  {
    exists a, b :: a in s && b in a.dependents && b.data !in Data(s)
  }

  /**
   * `c` is a nonempty part of `d` in which every element depends on an
   * element of `c`: what a cycle (a self-dependency included) leaves behind
   * when Kahn's algorithm stops.
   */
  ghost predicate IsCore<T>(c: set<T>, d: set<T>, e: set<(T, T)>) {
    c <= d && c != {} && forall x {:trigger DependsWithin(x, c, e)} :: x in c ==> DependsWithin(x, c, e)
  }

  /** No part of `d` is a core: the relation `e` has no cycle within `d`. */
  ghost predicate Acyclic<T>(d: set<T>, e: set<(T, T)>) {
    forall c :: c <= d ==> !IsCore(c, d, e)
  }

  /** `x` depends on some element of `c`. */
  ghost predicate DependsWithin<T>(x: T, c: set<T>, e: set<(T, T)>) {
    exists y :: y in c && (x, y) in e
  }

  /** Node `n` still depends, according to `deps`, on some node of `s`. */
  ghost predicate StuckIn<T>(n: DependencyGraphNode<T>,
                             deps: map<DependencyGraphNode<T>, set<DependencyGraphNode<T>>>,
                             s: set<DependencyGraphNode<T>>) {
    n in deps && exists m :: m in deps[n] && m in s
  }

  /** Every element comes after everything it depends on. */
  ghost predicate TopologicalOrder<T>(xs: seq<T>, e: set<(T, T)>) {
    forall i, j :: 0 <= i < |xs| && 0 <= j < |xs| && (xs[i], xs[j]) in e ==> j < i
  }

  function DataOf<T>(ns: seq<DependencyGraphNode<T>>): (ds: seq<T>)
    ensures |ds| == |ns|
    ensures forall i :: 0 <= i < |ns| ==> ds[i] == ns[i].data
  {
    if ns == [] then [] else [ns[0].data] + DataOf(ns[1..])
  }


  /** Each element's dependencies occur strictly before it. */
  ghost predicate DepsEarlier<T>(xs: seq<T>, e: set<(T, T)>) {
    forall i, p :: 0 <= i < |xs| && p in e && p.0 == xs[i] ==> p.1 in xs[..i]
  }

  /** The depends-on relation recorded in `deps`, restricted to `s`, on data. */
  ghost function EdgesOf<T>(deps: map<DependencyGraphNode<T>, set<DependencyGraphNode<T>>>,
                            s: set<DependencyGraphNode<T>>): set<(T, T)> {
    set a, b | a in s && a in deps && b in deps[a] :: (a.data, b.data)
  }

  /**
   * In a sequence where each element's dependencies come strictly earlier,
   * no prefix meets a core: an element of the core would need a core
   * element before it, and the first one cannot have one.
   */
  lemma {:induction false} OrderedPrefixAvoidsCore<T>(xs: seq<T>, e: set<(T, T)>, c: set<T>, k: nat)
    requires k <= |xs|
    requires DepsEarlier(xs, e)
    requires forall x {:trigger DependsWithin(x, c, e)} :: x in c ==> DependsWithin(x, c, e)
    ensures forall x :: x in xs[..k] ==> x !in c
  {
    if k > 0 {
      OrderedPrefixAvoidsCore(xs, e, c, k - 1);
      var x := xs[k - 1];
      forall y | (x, y) in e
        ensures y !in c
      {
        assert (x, y).1 in xs[..k - 1];
      }
      assert !DependsWithin(x, c, e);
      assert xs[..k] == xs[..k - 1] + [x];
    }
  }

  /** No core fits inside the elements of such a sequence. */
  lemma NoCoreInOrder<T>(xs: seq<T>, e: set<(T, T)>)
    requires DepsEarlier(xs, e)
    ensures Acyclic(Elems(xs), e)
  {
    forall c | IsCore(c, Elems(xs), e)
      ensures false
    {
      assert xs[..|xs|] == xs;
      OrderedPrefixAvoidsCore(xs, e, c, |xs|);
    }
  }

  /** "Dependencies come earlier" and distinct elements give a topological order. */
  lemma DepsEarlierIsTopological<T>(xs: seq<T>, e: set<(T, T)>)
    requires DepsEarlier(xs, e) && Distinct(xs)
    ensures TopologicalOrder(xs, e)
  {
    forall i, j | 0 <= i < |xs| && 0 <= j < |xs| && (xs[i], xs[j]) in e
      ensures j < i
    {
      assert (xs[i], xs[j]).1 in xs[..i];
      var k :| 0 <= k < i && xs[..i][k] == xs[j];
      assert xs[k] == xs[j];
    }
  }

  /** Node order with dependencies first carries over to the nodes' data. */
  lemma NodeOrderToDataOrder<T>(g: set<DependencyGraphNode<T>>,
                                deps: map<DependencyGraphNode<T>, set<DependencyGraphNode<T>>>,
                                result: seq<DependencyGraphNode<T>>)
    requires DistinctData(g)
    requires Elems(result) <= g && Distinct(result)
    requires forall n :: n in g ==> n in deps
    requires forall i :: 0 <= i < |result| ==> deps[result[i]] <= Elems(result[..i])
    ensures DepsEarlier(DataOf(result), EdgesOf(deps, g))
    ensures Distinct(DataOf(result))
    ensures Elems(DataOf(result)) == Data(Elems(result))
  {
    DataOrderDepsEarlier(g, deps, result);
    DataOrderDistinct(g, result);
    DataOrderElems(result);
  }

  lemma DataOrderDepsEarlier<T>(g: set<DependencyGraphNode<T>>,
                                deps: map<DependencyGraphNode<T>, set<DependencyGraphNode<T>>>,
                                result: seq<DependencyGraphNode<T>>)
    requires DistinctData(g)
    requires Elems(result) <= g
    requires forall n :: n in g ==> n in deps
    requires forall i :: 0 <= i < |result| ==> deps[result[i]] <= Elems(result[..i])
    ensures DepsEarlier(DataOf(result), EdgesOf(deps, g))
  {
    var xs := DataOf(result);
    forall i, p | 0 <= i < |xs| && p in EdgesOf(deps, g) && p.0 == xs[i]
      ensures p.1 in xs[..i]
    {
      var a: DependencyGraphNode<T>, b: DependencyGraphNode<T> :|
        a in g && a in deps && b in deps[a] && (a.data, b.data) == p;
      EdgeTargetEarlier(g, deps, result, i, a, b);
    }
  }

  /** The target of an edge out of the i-th node has its data among the first i. */
  lemma EdgeTargetEarlier<T>(g: set<DependencyGraphNode<T>>,
                             deps: map<DependencyGraphNode<T>, set<DependencyGraphNode<T>>>,
                             result: seq<DependencyGraphNode<T>>, i: nat,
                             a: DependencyGraphNode<T>, b: DependencyGraphNode<T>)
    requires DistinctData(g) && Elems(result) <= g && i < |result|
    requires a in g && a in deps && b in deps[a] && a.data == result[i].data
    requires result[i] in deps && deps[result[i]] <= Elems(result[..i])
    ensures b.data in DataOf(result)[..i]
  {
    assert result[i] in Elems(result);
    assert a == result[i];
    assert b in Elems(result[..i]);
    var k :| 0 <= k < i && result[..i][k] == b;
    assert DataOf(result)[..i][k] == b.data;
  }

  lemma DataOrderDistinct<T>(g: set<DependencyGraphNode<T>>, result: seq<DependencyGraphNode<T>>)
    requires DistinctData(g)
    requires Elems(result) <= g && Distinct(result)
    ensures Distinct(DataOf(result))
  {
    var xs := DataOf(result);
    forall i, j | 0 <= i < j < |xs|
      ensures xs[i] != xs[j]
    {
      assert result[i] in Elems(result) && result[j] in Elems(result);
    }
  }

  lemma DataOrderElems<T>(result: seq<DependencyGraphNode<T>>)
    ensures Elems(DataOf(result)) == Data(Elems(result))
  {
    var xs := DataOf(result);
    forall y | y in Data(Elems(result))
      ensures y in Elems(xs)
    {
      var n :| n in Elems(result) && n.data == y;
      var i :| 0 <= i < |result| && result[i] == n;
      assert xs[i] == y;
    }
  }

  /** What Kahn's algorithm leaves unextracted forms a core of the data relation. */
  lemma LeftoverIsCore<T>(g: set<DependencyGraphNode<T>>,
                          deps: map<DependencyGraphNode<T>, set<DependencyGraphNode<T>>>,
                          left: set<DependencyGraphNode<T>>)
    requires left <= g && left != {}
    requires forall n :: n in g ==> n in deps
    requires forall n {:trigger StuckIn(n, deps, left)} :: n in left ==> StuckIn(n, deps, left)
    ensures IsCore(Data(left), Data(g), EdgesOf(deps, g))
  {
    forall x | x in Data(left)
      ensures DependsWithin(x, Data(left), EdgesOf(deps, g))
    {
      var n :| n in left && n.data == x;
      assert StuckIn(n, deps, left);
      var m :| m in deps[n] && m in left;
      assert m.data in Data(left);
      assert (x, m.data) in EdgesOf(deps, g);
    }
    var n :| n in left;
    assert n.data in Data(left);
  }

  /** `outs`/`ins` record the dependents/dependees of every node of `g`. */
  ghost predicate Abstracts<T>(g: set<DependencyGraphNode<T>>,
                               outs: map<DependencyGraphNode<T>, set<DependencyGraphNode<T>>>,
                               ins: map<DependencyGraphNode<T>, set<DependencyGraphNode<T>>>)
    reads g
  {
    forall n :: n in g ==> n in outs && n in ins && n.dependents == outs[n] && n.dependees == ins[n]
  }

  /** Closed and Mirrored, stated on recorded edge sets. */
  ghost predicate WellLinked<T>(g: set<DependencyGraphNode<T>>,
                                outs: map<DependencyGraphNode<T>, set<DependencyGraphNode<T>>>,
                                ins: map<DependencyGraphNode<T>, set<DependencyGraphNode<T>>>) {
    && (forall n :: n in g ==> n in outs && n in ins && outs[n] <= g && ins[n] <= g)
    && (forall a, b :: a in g && b in g ==> (b in outs[a] <==> a in ins[b]))
  }

  lemma WellLinkedHeap<T>(g: set<DependencyGraphNode<T>>,
                          outs: map<DependencyGraphNode<T>, set<DependencyGraphNode<T>>>,
                          ins: map<DependencyGraphNode<T>, set<DependencyGraphNode<T>>>)
    requires Abstracts(g, outs, ins) && WellLinked(g, outs, ins)
    ensures Closed(g) && Mirrored(g)
  {
  }

  /** The recorded edges of `g` are exactly `linked`, read through `newNodes`. */
  ghost predicate LinksMatch<T>(g: set<DependencyGraphNode<T>>,
                                outs: map<DependencyGraphNode<T>, set<DependencyGraphNode<T>>>,
                                newNodes: map<T, DependencyGraphNode<T>>, linked: set<(T, T)>) {
    && (forall m, p :: m in g && m in outs && p in outs[m] ==> (m.data, p.data) in linked)
    && (forall e :: e in linked ==> e.0 in newNodes && e.1 in newNodes &&
                                    newNodes[e.0] in outs && newNodes[e.1] in outs[newNodes[e.0]])
  }

  /** One DependsOn call, on the recorded edge sets. */
  lemma LinkStep<T>(g: set<DependencyGraphNode<T>>,
                    outs: map<DependencyGraphNode<T>, set<DependencyGraphNode<T>>>,
                    ins: map<DependencyGraphNode<T>, set<DependencyGraphNode<T>>>,
                    newNodes: map<T, DependencyGraphNode<T>>, linked: set<(T, T)>, x: T, y: T)
    requires WellLinked(g, outs, ins) && LinksMatch(g, outs, newNodes, linked)
    requires forall k :: k in newNodes ==> newNodes[k] in g && newNodes[k].data == k
    requires x in newNodes && y in newNodes
    ensures var a, b := newNodes[x], newNodes[y];
            var outs' := outs[a := outs[a] + {b}];
            var ins' := ins[b := ins[b] + {a}];
            WellLinked(g, outs', ins') && LinksMatch(g, outs', newNodes, linked + {(x, y)})
  {
  }

  lemma LinksMatchEdges<T>(g: set<DependencyGraphNode<T>>,
                           outs: map<DependencyGraphNode<T>, set<DependencyGraphNode<T>>>,
                           ins: map<DependencyGraphNode<T>, set<DependencyGraphNode<T>>>,
                           newNodes: map<T, DependencyGraphNode<T>>, linked: set<(T, T)>)
    requires Abstracts(g, outs, ins) && WellLinked(g, outs, ins) && LinksMatch(g, outs, newNodes, linked)
    requires forall k :: k in newNodes ==> newNodes[k] in g && newNodes[k].data == k
    ensures DataEdges(g) == linked
  {
    forall e | e in linked
      ensures e in DataEdges(g)
    {
      var a, b := newNodes[e.0], newNodes[e.1];
      assert b in a.dependents;
    }
  }

  /** Every edge recorded in `src` from a node of `done` has been linked. */
  ghost predicate LinkedFrom<T>(src: map<DependencyGraphNode<T>, set<DependencyGraphNode<T>>>,
                                done: set<DependencyGraphNode<T>>, linked: set<(T, T)>) {
    forall a, b :: a in done && a in src && b in src[a] ==> (a.data, b.data) in linked
  }

  /** Once every node's edges are linked, the links are the edges and none dangles. */
  lemma AllLinked<T>(nodes: set<DependencyGraphNode<T>>,
                     src: map<DependencyGraphNode<T>, set<DependencyGraphNode<T>>>,
                     newNodes: map<T, DependencyGraphNode<T>>, linked: set<(T, T)>)
    requires forall n :: n in nodes ==> n in src && src[n] == n.dependents
    requires newNodes.Keys == Data(nodes)
    requires forall e :: e in linked ==> e.1 in newNodes
    requires linked <= EdgesOf(src, nodes) && LinkedFrom(src, nodes, linked)
    ensures linked == DataEdges(nodes) && !Dangling(nodes)
  {
    assert DataEdges(nodes) == EdgesOf(src, nodes);
  }

  /** Closed and Mirrored heap edges are well linked once recorded. */
  lemma HeapWellLinked<T>(g: set<DependencyGraphNode<T>>,
                          outs: map<DependencyGraphNode<T>, set<DependencyGraphNode<T>>>,
                          ins: map<DependencyGraphNode<T>, set<DependencyGraphNode<T>>>)
    requires Abstracts(g, outs, ins) && Closed(g) && Mirrored(g)
    ensures WellLinked(g, outs, ins)
  {
  }

  /**
   * Part-way through releasing `curr`: the edges between `curr` and the
   * dependees it no longer lists in `todo` are gone, nothing else changed.
   */
  ghost predicate ReleasedSoFar<T>(g: set<DependencyGraphNode<T>>, curr: DependencyGraphNode<T>,
                                   outs: map<DependencyGraphNode<T>, set<DependencyGraphNode<T>>>,
                                   ins: map<DependencyGraphNode<T>, set<DependencyGraphNode<T>>>,
                                   outs': map<DependencyGraphNode<T>, set<DependencyGraphNode<T>>>,
                                   ins': map<DependencyGraphNode<T>, set<DependencyGraphNode<T>>>,
                                   todo: set<DependencyGraphNode<T>>) {
    && curr in g && curr in ins && curr in ins' && curr in outs && outs[curr] == {}
    && WellLinked(g, outs, ins) && ins'[curr] == todo
    && (forall n :: n in g && n != curr ==> n in ins' && ins'[n] == ins[n])
    && (forall n :: n in g ==>
          n in outs' && outs'[n] == (if n in ins[curr] - todo then outs[n] - {curr} else outs[n]))
  }

  /** Releasing `curr` removed exactly its edges to its dependees. */
  ghost predicate Released<T>(g: set<DependencyGraphNode<T>>, curr: DependencyGraphNode<T>,
                              outs: map<DependencyGraphNode<T>, set<DependencyGraphNode<T>>>,
                              ins: map<DependencyGraphNode<T>, set<DependencyGraphNode<T>>>,
                              outs': map<DependencyGraphNode<T>, set<DependencyGraphNode<T>>>,
                              ins': map<DependencyGraphNode<T>, set<DependencyGraphNode<T>>>) {
    && curr in g && curr in ins && WellLinked(g, outs', ins')
    && (forall n :: n in g ==> n in outs && n in outs' && outs'[n] == outs[n] - {curr})
    && ins[curr] <= g
  }

  lemma ReleaseStep<T>(g: set<DependencyGraphNode<T>>, curr: DependencyGraphNode<T>,
                       outs: map<DependencyGraphNode<T>, set<DependencyGraphNode<T>>>,
                       ins: map<DependencyGraphNode<T>, set<DependencyGraphNode<T>>>,
                       outs1: map<DependencyGraphNode<T>, set<DependencyGraphNode<T>>>,
                       ins1: map<DependencyGraphNode<T>, set<DependencyGraphNode<T>>>,
                       todo: set<DependencyGraphNode<T>>, d: DependencyGraphNode<T>)
    requires ReleasedSoFar(g, curr, outs, ins, outs1, ins1, todo) && d in todo && todo <= ins[curr]
    ensures d in g && d in outs1 && curr in outs1[d] && curr in ins1 && d in ins1[curr]
    ensures var outs2 := outs1[d := outs1[d] - {curr}];
            var ins2 := ins1[curr := ins1[curr] - {d}];
            ReleasedSoFar(g, curr, outs, ins, outs2, ins2, todo - {d})
  {
    assert d in g;
    assert d in outs1 && outs1[d] == outs[d];
  }

  /** The dependees released so far: those of `ds - todo` left with no dependency. */
  ghost predicate ReleasedList<T>(released: seq<DependencyGraphNode<T>>, ds: set<DependencyGraphNode<T>>,
                                  todo: set<DependencyGraphNode<T>>,
                                  outs: map<DependencyGraphNode<T>, set<DependencyGraphNode<T>>>) {
    && todo <= ds && (forall n :: n in ds ==> n in outs)
    && Elems(released) == (set n | n in ds - todo && outs[n] == {})
    && Distinct(released) && Elems(released) !! todo
  }

  lemma ReleasedListStep<T>(released: seq<DependencyGraphNode<T>>, ds: set<DependencyGraphNode<T>>,
                            todo: set<DependencyGraphNode<T>>,
                            outs: map<DependencyGraphNode<T>, set<DependencyGraphNode<T>>>,
                            d: DependencyGraphNode<T>, x: DependencyGraphNode<T>)
    requires ReleasedList(released, ds, todo, outs) && d in todo
    ensures var outs' := outs[d := outs[d] - {x}];
            ReleasedList(if outs'[d] == {} then released + [d] else released, ds, todo - {d}, outs')
  {
    var outs' := outs[d := outs[d] - {x}];
    assert (set n | n in ds - todo && outs[n] == {}) == (set n | n in ds - todo && outs'[n] == {});
    if outs'[d] == {} {
      ElemsAppend(released, d);
      DistinctConcat(released, [d]);
    }
  }

  lemma ReleaseDone<T>(g: set<DependencyGraphNode<T>>, curr: DependencyGraphNode<T>,
                       outs: map<DependencyGraphNode<T>, set<DependencyGraphNode<T>>>,
                       ins: map<DependencyGraphNode<T>, set<DependencyGraphNode<T>>>,
                       outs': map<DependencyGraphNode<T>, set<DependencyGraphNode<T>>>,
                       ins': map<DependencyGraphNode<T>, set<DependencyGraphNode<T>>>)
    requires ReleasedSoFar(g, curr, outs, ins, outs', ins', {})
    ensures Released(g, curr, outs, ins, outs', ins')
  {
    forall n | n in g
      ensures outs'[n] == outs[n] - {curr}
    {
      if n !in ins[curr] {
        assert curr !in outs[n];
      }
    }
  }

  /** The state Kahn's algorithm keeps between two extractions. */
  ghost predicate KahnInv<T>(g: set<DependencyGraphNode<T>>,
                             outs0: map<DependencyGraphNode<T>, set<DependencyGraphNode<T>>>,
                             outs: map<DependencyGraphNode<T>, set<DependencyGraphNode<T>>>,
                             ins: map<DependencyGraphNode<T>, set<DependencyGraphNode<T>>>,
                             result: seq<DependencyGraphNode<T>>, queue: seq<DependencyGraphNode<T>>) {
    && WellLinked(g, outs, ins)
    && (forall n :: n in g ==> n in outs0 && outs0[n] <= g && n in outs && outs[n] == outs0[n] - Elems(result))
    && Elems(result) <= g && Distinct(result) && Distinct(queue)
    && Elems(queue) == (set n | n in g && n !in Elems(result) && outs[n] == {})
    && (forall i :: 0 <= i < |result| ==> outs0[result[i]] <= Elems(result[..i]))
    && (forall n :: n in Elems(result) ==> outs0[n] <= Elems(result))
  }

  /** One extraction keeps KahnInv and makes the result longer. */
  lemma KahnStep<T>(g: set<DependencyGraphNode<T>>,
                    outs0: map<DependencyGraphNode<T>, set<DependencyGraphNode<T>>>,
                    outs: map<DependencyGraphNode<T>, set<DependencyGraphNode<T>>>,
                    ins: map<DependencyGraphNode<T>, set<DependencyGraphNode<T>>>,
                    outs': map<DependencyGraphNode<T>, set<DependencyGraphNode<T>>>,
                    ins': map<DependencyGraphNode<T>, set<DependencyGraphNode<T>>>,
                    result: seq<DependencyGraphNode<T>>, queue: seq<DependencyGraphNode<T>>,
                    released: seq<DependencyGraphNode<T>>)
    requires |queue| > 0 && KahnInv(g, outs0, outs, ins, result, queue)
    requires Released(g, queue[0], outs, ins, outs', ins')
    requires Elems(released) == (set n | n in ins[queue[0]] && outs'[n] == {})
    requires Distinct(released)
    ensures |result| < |g|
    ensures KahnInv(g, outs0, outs', ins', result + [queue[0]], queue[1..] + released)
  {
    var curr := queue[0];
    KahnResultStep(g, outs0, outs, ins, result, queue);
    KahnQueueStep(g, outs0, outs, ins, outs', ins', result, queue, released);
    ElemsAppend(result, curr);
    assert (set n | n in g && n !in Elems(result) + {curr} && outs'[n] == {}) ==
           (set n | n in g && n !in Elems(result + [curr]) && outs'[n] == {});
  }

  /** Appending the queue front keeps the result's ordering facts. */
  lemma KahnResultStep<T>(g: set<DependencyGraphNode<T>>,
                          outs0: map<DependencyGraphNode<T>, set<DependencyGraphNode<T>>>,
                          outs: map<DependencyGraphNode<T>, set<DependencyGraphNode<T>>>,
                          ins: map<DependencyGraphNode<T>, set<DependencyGraphNode<T>>>,
                          result: seq<DependencyGraphNode<T>>, queue: seq<DependencyGraphNode<T>>)
    requires |queue| > 0 && KahnInv(g, outs0, outs, ins, result, queue)
    ensures queue[0] in g && queue[0] !in Elems(result) && outs[queue[0]] == {}
    ensures |result| < |g|
    ensures var r := result + [queue[0]];
            && Elems(r) <= g && Distinct(r)
            && (forall i :: 0 <= i < |r| ==> outs0[r[i]] <= Elems(r[..i]))
            && (forall n :: n in Elems(r) ==> outs0[n] <= Elems(r))
  {
    var curr := queue[0];
    assert curr in Elems(queue);
    var r := result + [curr];
    ElemsAppend(result, curr);
    DistinctConcat(result, [curr]);
    DistinctCard(r);
    CardMono(Elems(r), g);
    AppendKeepsOrder(outs0, result, curr);
  }

  /** Appending a node whose dependencies all precede it keeps both ordering facts. */
  lemma AppendKeepsOrder<T>(outs0: map<DependencyGraphNode<T>, set<DependencyGraphNode<T>>>,
                            result: seq<DependencyGraphNode<T>>, curr: DependencyGraphNode<T>)
    requires forall n :: n in Elems(result) + {curr} ==> n in outs0
    requires forall i :: 0 <= i < |result| ==> outs0[result[i]] <= Elems(result[..i])
    requires forall n :: n in Elems(result) ==> outs0[n] <= Elems(result)
    requires outs0[curr] <= Elems(result)
    ensures var r := result + [curr];
            && (forall i :: 0 <= i < |r| ==> outs0[r[i]] <= Elems(r[..i]))
            && (forall n :: n in Elems(r) ==> outs0[n] <= Elems(r))
  {
    var r := result + [curr];
    ElemsAppend(result, curr);
    forall i | 0 <= i < |result|
      ensures r[..i] == result[..i]
    {
    }
    assert r[..|result|] == result;
  }

  /** The rest of the queue plus the released nodes is the new queue. */
  lemma KahnQueueStep<T>(g: set<DependencyGraphNode<T>>,
                         outs0: map<DependencyGraphNode<T>, set<DependencyGraphNode<T>>>,
                         outs: map<DependencyGraphNode<T>, set<DependencyGraphNode<T>>>,
                         ins: map<DependencyGraphNode<T>, set<DependencyGraphNode<T>>>,
                         outs': map<DependencyGraphNode<T>, set<DependencyGraphNode<T>>>,
                         ins': map<DependencyGraphNode<T>, set<DependencyGraphNode<T>>>,
                         result: seq<DependencyGraphNode<T>>, queue: seq<DependencyGraphNode<T>>,
                         released: seq<DependencyGraphNode<T>>)
    requires |queue| > 0 && KahnInv(g, outs0, outs, ins, result, queue)
    requires Released(g, queue[0], outs, ins, outs', ins')
    requires Elems(released) == (set n | n in ins[queue[0]] && outs'[n] == {})
    requires Distinct(released)
    ensures Distinct(queue[1..] + released)
    ensures Elems(queue[1..] + released) ==
            (set n | n in g && n !in Elems(result) + {queue[0]} && outs'[n] == {})
  {
    var curr := queue[0];
    var rest := queue[1..];
    var done := Elems(result);
    assert queue == [curr] + rest;
    ElemsConcat([curr], rest);
    assert curr in Elems(queue);
    forall n | n in ins[curr]
      ensures n !in done && n != curr && n !in Elems(rest) && curr in outs[n]
    {
      assert curr in outs[n];
    }
    ElemsConcat(rest, released);
    DistinctConcat(rest, released);
    forall n | n in g && n !in done + {curr} && outs'[n] == {}
      ensures n in Elems(rest + released)
    {
      if n !in ins[curr] {
        assert curr !in outs[n];
        assert n in Elems(queue);
      }
    }
  }

  /**
   * What the extraction order says about the graph: it lists distinct nodes
   * of `g`, each after its dependencies; it lists them all exactly when the
   * data relation has no core (no cycle).
   */
  lemma KahnOutcome<T>(g: set<DependencyGraphNode<T>>,
                       deps: map<DependencyGraphNode<T>, set<DependencyGraphNode<T>>>,
                       result: seq<DependencyGraphNode<T>>)
    requires forall n :: n in g ==> n in deps
    requires Elems(result) <= g && Distinct(result)
    requires forall i :: 0 <= i < |result| ==> deps[result[i]] <= Elems(result[..i])
    requires forall n {:trigger StuckIn(n, deps, g - Elems(result))} :: n in g - Elems(result) ==> StuckIn(n, deps, g - Elems(result))
    ensures |result| <= |g|
    ensures |result| == |g| ==> Elems(result) == g
    ensures DistinctData(g) ==> TopologicalOrder(DataOf(result), EdgesOf(deps, g))
    ensures DistinctData(g) ==> (|result| == |g| <==> Acyclic(Data(g), EdgesOf(deps, g)))
  {
    DistinctCard(result);
    CardMono(Elems(result), g);
    if DistinctData(g) {
      NodeOrderToDataOrder(g, deps, result);
      DepsEarlierIsTopological(DataOf(result), EdgesOf(deps, g));
      if |result| == |g| {
        NoCoreInOrder(DataOf(result), EdgesOf(deps, g));
      } else {
        LeftoverIsCore(g, deps, g - Elems(result));
      }
    }
  }

  /** When the queue runs dry, every node left depends on another node left. */
  lemma KahnDone<T>(g: set<DependencyGraphNode<T>>,
                    outs0: map<DependencyGraphNode<T>, set<DependencyGraphNode<T>>>,
                    outs: map<DependencyGraphNode<T>, set<DependencyGraphNode<T>>>,
                    ins: map<DependencyGraphNode<T>, set<DependencyGraphNode<T>>>,
                    result: seq<DependencyGraphNode<T>>)
    requires KahnInv(g, outs0, outs, ins, result, [])
    ensures forall n {:trigger StuckIn(n, outs0, g - Elems(result))} :: n in g - Elems(result) ==> StuckIn(n, outs0, g - Elems(result))
  {
    forall n | n in g - Elems(result)
      ensures StuckIn(n, outs0, g - Elems(result))
    {
      assert n !in Elems([]);
      var m :| m in outs[n];
      assert m in outs0[n] && m in g - Elems(result);
    }
  }

  class DependencyGraph<T(==)> {
    var nodes: set<DependencyGraphNode<T>>
    /** Counts calls of AddNode, not distinct nodes. */
    var numNodes: int

    constructor ()
      ensures nodes == {} && numNodes == 0
    {
      nodes := {};
      numNodes := 0;
    }

    method AddNode(node: DependencyGraphNode<T>)
      modifies this
      ensures nodes == old(nodes) + {node}
      ensures numNodes == old(numNodes) + 1
    {
      nodes := nodes + {node};
      numNodes := numNodes + 1;
    }

    method AddNodes(ns: seq<DependencyGraphNode<T>>)
      modifies this
      ensures nodes == old(nodes) + Elems(ns)
      ensures numNodes == old(numNodes) + |ns|
    {
      for i := 0 to |ns|
        invariant nodes == old(nodes) + Elems(ns[..i])
        invariant numNodes == old(numNodes) + i
      {
        assert Elems(ns[..i + 1]) == Elems(ns[..i]) + {ns[i]} by {
          assert ns[..i + 1] == ns[..i] + [ns[i]];
        }
        AddNode(ns[i]);
      }
      assert ns[..|ns|] == ns;
    }


    /**
     * A new graph with one fresh node per node of this graph, linked by
     * data: the copy's node for A depends on the copy's node for B's data
     * whenever A depends on B. Fails with a KeyError when a dependency's
     * data carries no node of this graph.
     */
    method Copy() returns (r: Result<DependencyGraph<T>>)
      ensures r.Err? <==> Dangling(nodes)
      ensures r.Err? ==> r.error == KeyError("")
      ensures r.Ok? ==> fresh(r.value) && fresh(r.value.nodes)
      ensures r.Ok? ==> r.value.numNodes == |r.value.nodes| == |nodes|
      ensures r.Ok? ==> Data(r.value.nodes) == Data(nodes)
      ensures r.Ok? ==> DataEdges(r.value.nodes) == DataEdges(nodes)
      ensures r.Ok? ==> Closed(r.value.nodes) && Mirrored(r.value.nodes)
      ensures r.Ok? && DistinctData(nodes) ==> DistinctData(r.value.nodes)
    {
      var g, newNodes := CreateNodes(nodes);
      assert g.nodes !! nodes;
      var linked := LinkNodes(nodes, g.nodes, newNodes);
      if !linked {
        return Err(KeyError(""));
      }
      return Ok(g);
    }

    /** The first loop of the copy: unlinked fresh nodes, indexed by data. */
    static method CreateNodes(nodes: set<DependencyGraphNode<T>>)
      returns (g: DependencyGraph<T>, newNodes: map<T, DependencyGraphNode<T>>)
      ensures fresh(g) && fresh(g.nodes)
      ensures newNodes.Keys == Data(nodes)
      ensures forall k :: k in newNodes ==> newNodes[k] in g.nodes && newNodes[k].data == k
      ensures Unlinked(g.nodes)
      ensures Data(g.nodes) == Data(nodes)
      ensures g.numNodes == |g.nodes| == |nodes|
      ensures DistinctData(nodes) ==> DistinctData(g.nodes)
    {
      g := new DependencyGraph<T>();
      newNodes := map[];
      var todo := nodes;
      while todo != {}
        invariant fresh(g) && fresh(g.nodes)
        invariant CreatedFor(nodes, todo, newNodes, g.nodes)
        invariant Unlinked(g.nodes)
        invariant g.numNodes == |g.nodes|
        decreases |todo|
      {
        var old_node :| old_node in todo;
        ghost var made := g.nodes;
        var new_node := AddFreshNode(g, old_node.data);
        CreatedForStep(nodes, todo, newNodes, made, old_node, new_node);
        newNodes := newNodes[old_node.data := new_node];
        todo := todo - {old_node};
      }
      CreatedForDone(nodes, newNodes, g.nodes);
    }

    /** A new unlinked node for `data`, added to `g`. */
    static method AddFreshNode(g: DependencyGraph<T>, data: T) returns (n: DependencyGraphNode<T>)
      requires Unlinked(g.nodes) && g.numNodes == |g.nodes|
      modifies g
      ensures fresh(n) && n.data == data && n !in old(g.nodes)
      ensures g.nodes == old(g.nodes) + {n} && Unlinked(g.nodes) && g.numNodes == |g.nodes|
    {
      n := new DependencyGraphNode(data);
      g.AddNode(n);
    }

    /**
     * The second loop of the copy: links the new node for each old node to
     * the new nodes for the data of its dependencies. Answers false when a
     * dependency's data has no new node.
     */
    static method LinkNodes(nodes: set<DependencyGraphNode<T>>, g: set<DependencyGraphNode<T>>,
                            newNodes: map<T, DependencyGraphNode<T>>) returns (linkedAll: bool)
      requires g !! nodes
      requires newNodes.Keys == Data(nodes)
      requires forall k :: k in newNodes ==> newNodes[k] in g && newNodes[k].data == k
      requires forall n :: n in g ==> n.dependents == {} && n.dependees == {}
      modifies g
      ensures linkedAll <==> !Dangling(nodes)
      ensures linkedAll ==> Closed(g) && Mirrored(g) && DataEdges(g) == DataEdges(nodes)
    {
      ghost var src: map<DependencyGraphNode<T>, set<DependencyGraphNode<T>>> := map n | n in nodes :: n.dependents;
      ghost var outs: map<DependencyGraphNode<T>, set<DependencyGraphNode<T>>> := map n | n in g :: n.dependents;
      ghost var ins: map<DependencyGraphNode<T>, set<DependencyGraphNode<T>>> := map n | n in g :: n.dependees;
      ghost var linked: set<(T, T)> := {};
      var todo := nodes;
      while todo != {}
        invariant todo <= nodes
        invariant forall n :: n in nodes ==> n in src && src[n] == n.dependents
        invariant Abstracts(g, outs, ins) && WellLinked(g, outs, ins) && LinksMatch(g, outs, newNodes, linked)
        invariant linked <= EdgesOf(src, nodes)
        invariant LinkedFrom(src, nodes - todo, linked)
        decreases |todo|
      {
        var old_node :| old_node in todo;
        var ok;
        ok, outs, ins, linked := LinkDependencies(old_node, newNodes, g, nodes, src, outs, ins, linked);
        if !ok {
          assert Dangling(nodes);
          return false;
        }
        todo := todo - {old_node};
      }
      AllLinked(nodes, src, newNodes, linked);
      WellLinkedHeap(g, outs, ins);
      LinksMatchEdges(g, outs, ins, newNodes, linked);
      return true;
    }

    /**
     * The inner loop of the copy's second loop: links the new node for
     * `old_node` to the new node for each of its dependencies' data.
     */
    static method LinkDependencies(old_node: DependencyGraphNode<T>, newNodes: map<T, DependencyGraphNode<T>>,
                                   ghost g: set<DependencyGraphNode<T>>, ghost nodes: set<DependencyGraphNode<T>>,
                                   ghost src: map<DependencyGraphNode<T>, set<DependencyGraphNode<T>>>,
                                   ghost outs: map<DependencyGraphNode<T>, set<DependencyGraphNode<T>>>,
                                   ghost ins: map<DependencyGraphNode<T>, set<DependencyGraphNode<T>>>,
                                   ghost linked: set<(T, T)>)
      returns (ok: bool,
               ghost outs': map<DependencyGraphNode<T>, set<DependencyGraphNode<T>>>,
               ghost ins': map<DependencyGraphNode<T>, set<DependencyGraphNode<T>>>,
               ghost linked': set<(T, T)>)
      requires old_node in nodes && g !! nodes
      requires forall n :: n in nodes ==> n in src && src[n] == n.dependents
      requires newNodes.Keys == Data(nodes)
      requires forall k :: k in newNodes ==> newNodes[k] in g && newNodes[k].data == k
      requires Abstracts(g, outs, ins) && WellLinked(g, outs, ins) && LinksMatch(g, outs, newNodes, linked)
      requires linked <= EdgesOf(src, nodes)
      modifies g
      ensures Abstracts(g, outs', ins') && WellLinked(g, outs', ins') && LinksMatch(g, outs', newNodes, linked')
      ensures linked <= linked' <= EdgesOf(src, nodes)
      ensures ok ==> forall b :: b in src[old_node] ==> (old_node.data, b.data) in linked'
      ensures !ok ==> exists b :: b in src[old_node] && b.data !in Data(nodes)
    {
      outs', ins', linked' := outs, ins, linked;
      var new_node := newNodes[old_node.data];
      var deps := old_node.dependents;
      while deps != {}
        invariant deps <= src[old_node]
        invariant Abstracts(g, outs', ins') && WellLinked(g, outs', ins') && LinksMatch(g, outs', newNodes, linked')
        invariant linked <= linked' <= EdgesOf(src, nodes)
        invariant forall b :: b in src[old_node] - deps ==> (old_node.data, b.data) in linked'
        decreases |deps|
      {
        var old_dep :| old_dep in deps;
        if old_dep.data !in newNodes {
          return false, outs', ins', linked';
        }
        var target := newNodes[old_dep.data];
        LinkStep(g, outs', ins', newNodes, linked', old_node.data, old_dep.data);
        outs', ins' := LinkRecorded(new_node, target, g, outs', ins');
        linked' := linked' + {(old_node.data, old_dep.data)};
        deps := deps - {old_dep};
      }
      return true, outs', ins', linked';
    }

    /** DependsOn, with the recorded edge sets of `g` kept in step. */
    static method LinkRecorded(a: DependencyGraphNode<T>, b: DependencyGraphNode<T>, ghost g: set<DependencyGraphNode<T>>,
                               ghost outs: map<DependencyGraphNode<T>, set<DependencyGraphNode<T>>>,
                               ghost ins: map<DependencyGraphNode<T>, set<DependencyGraphNode<T>>>)
      returns (ghost outs': map<DependencyGraphNode<T>, set<DependencyGraphNode<T>>>,
               ghost ins': map<DependencyGraphNode<T>, set<DependencyGraphNode<T>>>)
      requires a in g && b in g && Abstracts(g, outs, ins)
      modifies a, b
      ensures outs' == outs[a := outs[a] + {b}] && ins' == ins[b := ins[b] + {a}]
      ensures Abstracts(g, outs', ins')
    {
      a.DependsOn(b);
      outs' := outs[a := outs[a] + {b}];
      ins' := ins[b := ins[b] + {a}];
    }

    /**
     * Kahn's algorithm on a copy of the graph. The result lists copies of
     * the nodes, each after everything it depends on; the call fails with
     * an AssertionError when fewer nodes than `numNodes` were extracted,
     * which is what a cycle causes. The graph itself is left unchanged.
     */
    method LineariseGraph() returns (r: Result<seq<DependencyGraphNode<T>>>)
      ensures Dangling(nodes) ==> r == Err(KeyError(""))
      ensures r.Ok? ==> |r.value| == numNodes && Distinct(r.value)
      ensures r.Ok? ==> Data(Elems(r.value)) <= Data(nodes)
      ensures r.Ok? && DistinctData(nodes) ==> TopologicalOrder(DataOf(r.value), DataEdges(nodes))
      ensures !Dangling(nodes) && r.Err? ==> r.error.AssertionError?
      ensures !Dangling(nodes) && DistinctData(nodes) && numNodes == |nodes| ==>
                (r.Ok? <==> Acyclic(Data(nodes), DataEdges(nodes)))
      ensures r.Ok? && numNodes == |nodes| ==> Data(Elems(r.value)) == Data(nodes)
    {
      r := Linearise(DataEdges(nodes), Data(nodes), DistinctData(nodes), Dangling(nodes));
    }

    method Linearise(ghost edges: set<(T, T)>, ghost data: set<T>, ghost distinct: bool, ghost dangling: bool)
      returns (r: Result<seq<DependencyGraphNode<T>>>)
      requires edges == DataEdges(nodes) && data == Data(nodes)
      requires distinct == DistinctData(nodes) && dangling == Dangling(nodes)
      ensures dangling ==> r == Err(KeyError(""))
      ensures r.Ok? ==> |r.value| == numNodes && Distinct(r.value)
      ensures r.Ok? ==> Data(Elems(r.value)) <= data
      ensures r.Ok? && distinct ==> TopologicalOrder(DataOf(r.value), edges)
      ensures !dangling && r.Err? ==> r.error.AssertionError?
      ensures !dangling && distinct && numNodes == |nodes| ==> (r.Ok? <==> Acyclic(data, edges))
      ensures r.Ok? && numNodes == |nodes| ==> Data(Elems(r.value)) == data
    {
      var copied := Copy();
      if copied.Err? {
        return Err(copied.error);
      }
      var g := copied.value.nodes;
      var result := ExtractOrder(g, edges, data, distinct);
      if |result| != numNodes {
        return Err(AssertionError("Length of result does not match the number of dependencies. Do you have a circular reference?"));
      }
      r := Ok(result);
    }

    /** The queue seeding and extraction loop of Kahn's algorithm, on the copy `g`. */
    static method ExtractOrder(g: set<DependencyGraphNode<T>>, ghost edges: set<(T, T)>, ghost data: set<T>,
                               ghost distinct: bool)
      returns (result: seq<DependencyGraphNode<T>>)
      requires Closed(g) && Mirrored(g) && DataEdges(g) == edges && Data(g) == data
      requires distinct ==> DistinctData(g)
      modifies g
      ensures Distinct(result) && |result| <= |g|
      ensures Data(Elems(result)) <= data
      ensures |result| == |g| ==> Data(Elems(result)) == data
      ensures distinct ==> TopologicalOrder(DataOf(result), edges)
      ensures distinct ==> (|result| == |g| <==> Acyclic(data, edges))
    {
      ghost var deps0: map<DependencyGraphNode<T>, set<DependencyGraphNode<T>>> := map n | n in g :: n.dependents;
      ghost var ins0: map<DependencyGraphNode<T>, set<DependencyGraphNode<T>>> := map n | n in g :: n.dependees;
      assert DataEdges(g) == EdgesOf(deps0, g);
      HeapWellLinked(g, deps0, ins0);
      var queue := SeedQueue(g);
      result := Kahn(g, queue, deps0, ins0);
      KahnOutcome(g, deps0, result);
    }

    /** The queue starts with exactly the nodes that depend on nothing. */
    /** The nodes of `s` that depend on nothing. */
    static ghost function Roots(s: set<DependencyGraphNode<T>>): set<DependencyGraphNode<T>>
      reads s
    {
      set n | n in s && n.dependents == {}
    }

    static lemma RootsAdd(s: set<DependencyGraphNode<T>>, x: DependencyGraphNode<T>)
      ensures Roots(s + {x}) == Roots(s) + (if x.dependents == {} then {x} else {})
    {
    }

    static method SeedQueue(g: set<DependencyGraphNode<T>>) returns (queue: seq<DependencyGraphNode<T>>)
      ensures Elems(queue) == set n | n in g && n.dependents == {}
      ensures Distinct(queue)
    {
      queue := [];
      var todo := g;
      while todo != {}
        invariant todo <= g
        invariant Elems(queue) == Roots(g - todo)
        invariant Elems(queue) !! todo
        invariant Distinct(queue)
        decreases |todo|
      {
        var node :| node in todo;
        if !node.HasDependents() {
          ElemsAppend(queue, node);
          DistinctConcat(queue, [node]);
          queue := queue + [node];
        }
        RootsAdd(g - todo, node);
        assert g - (todo - {node}) == (g - todo) + {node};
        todo := todo - {node};
      }
      assert g - todo == g;
    }

    /**
     * The extraction loop: pops the queue front, releases the popped node's
     * dependees and queues those left with no dependency. Each node comes
     * after all its dependencies, and every node never extracted still
     * depends on another node never extracted.
     */
    static method Kahn(g: set<DependencyGraphNode<T>>, queue0: seq<DependencyGraphNode<T>>,
                       ghost outs0: map<DependencyGraphNode<T>, set<DependencyGraphNode<T>>>,
                       ghost ins0: map<DependencyGraphNode<T>, set<DependencyGraphNode<T>>>)
      returns (result: seq<DependencyGraphNode<T>>)
      requires Abstracts(g, outs0, ins0) && WellLinked(g, outs0, ins0)
      requires Elems(queue0) == set n | n in g && n.dependents == {}
      requires Distinct(queue0)
      modifies g
      ensures Elems(result) <= g && Distinct(result)
      ensures forall i :: 0 <= i < |result| ==> outs0[result[i]] <= Elems(result[..i])
      ensures forall n {:trigger StuckIn(n, outs0, g - Elems(result))} :: n in g - Elems(result) ==> StuckIn(n, outs0, g - Elems(result))
    {
      var queue := queue0;
      result := [];
      ghost var outs, ins := outs0, ins0;
      assert Elems(queue) == set n | n in g && n !in Elems(result) && outs[n] == {};
      while |queue| > 0
        invariant Abstracts(g, outs, ins)
        invariant KahnInv(g, outs0, outs, ins, result, queue)
        decreases |g| - |result|
      {
        var curr := queue[0];
        assert curr in Elems(queue);
        ghost var outs1, ins1 := outs, ins;
        var released;
        released, outs, ins := ReleaseDependees(curr, g, outs, ins);
        KahnStep(g, outs0, outs1, ins1, outs, ins, result, queue, released);
        queue := queue[1..] + released;
        result := result + [curr];
      }
      KahnDone(g, outs0, outs, ins, result);
    }

    /**
     * Removes the popped node from the dependencies of each of its dependees
     * and returns, in visiting order, those dependees left with none. The
     * dependency sets are given, and returned, as `outs`/`ins`.
     */
    static method ReleaseDependees(curr: DependencyGraphNode<T>, g: set<DependencyGraphNode<T>>,
                                   ghost outs: map<DependencyGraphNode<T>, set<DependencyGraphNode<T>>>,
                                   ghost ins: map<DependencyGraphNode<T>, set<DependencyGraphNode<T>>>)
      returns (released: seq<DependencyGraphNode<T>>,
               ghost outs': map<DependencyGraphNode<T>, set<DependencyGraphNode<T>>>,
               ghost ins': map<DependencyGraphNode<T>, set<DependencyGraphNode<T>>>)
      requires curr in g && Abstracts(g, outs, ins) && WellLinked(g, outs, ins)
      requires outs[curr] == {}
      modifies g
      ensures Abstracts(g, outs', ins') && Released(g, curr, outs, ins, outs', ins')
      ensures Elems(released) == set n | n in ins[curr] && outs'[n] == {}
      ensures Distinct(released)
    {
      released := [];
      outs', ins' := outs, ins;
      var todo := curr.dependees;
      ghost var ds := ins[curr];
      while todo != {}
        invariant Abstracts(g, outs', ins')
        invariant ReleasedSoFar(g, curr, outs, ins, outs', ins', todo)
        invariant ReleasedList(released, ds, todo, outs')
        decreases |todo|
      {
        var dependee :| dependee in todo;
        ReleaseStep(g, curr, outs, ins, outs', ins', todo, dependee);
        ReleasedListStep(released, ds, todo, outs', dependee, curr);
        outs', ins' := UnlinkRecorded(dependee, curr, g, outs', ins');
        if !dependee.HasDependents() {
          released := released + [dependee];
        }
        todo := todo - {dependee};
      }
      ReleaseDone(g, curr, outs, ins, outs', ins');
    }

    /** RemoveDependent on an edge both sides record, with `outs`/`ins` kept in step. */
    static method UnlinkRecorded(a: DependencyGraphNode<T>, b: DependencyGraphNode<T>, ghost g: set<DependencyGraphNode<T>>,
                                 ghost outs: map<DependencyGraphNode<T>, set<DependencyGraphNode<T>>>,
                                 ghost ins: map<DependencyGraphNode<T>, set<DependencyGraphNode<T>>>)
      returns (ghost outs': map<DependencyGraphNode<T>, set<DependencyGraphNode<T>>>,
               ghost ins': map<DependencyGraphNode<T>, set<DependencyGraphNode<T>>>)
      requires a in g && b in g && Abstracts(g, outs, ins)
      requires b in outs[a] && a in ins[b]
      modifies a, b
      ensures outs' == outs[a := outs[a] - {b}] && ins' == ins[b := ins[b] - {a}]
      ensures Abstracts(g, outs', ins')
    {
      var removed := a.RemoveDependent(b);
      if removed.Err? {
        assert false;
      }
      outs' := outs[a := outs[a] - {b}];
      ins' := ins[b := ins[b] - {a}];
    }
  }

  /** Adding one node twice counts it twice although the node set holds it once. */
  method AddSameNodeTwice<T(==)>(data: T) returns (g: DependencyGraph<T>)
    ensures |g.nodes| == 1 && g.numNodes == 2
  {
    g := new DependencyGraph<T>();
    var node := new DependencyGraphNode(data);
    g.AddNode(node);
    g.AddNode(node);
  }
}
