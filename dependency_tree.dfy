/**
 * The dependency tree (src/datastructure/dependency_tree.py): a node holds
 * its data and a collection of child subtrees. A tree is modelled as a
 * value; `children` lists the child subtrees in the order the source's set
 * iterates them.
 */
module DependencyTree {
  import opened Results

  datatype Tree<T> = Node(data: T, children: seq<Tree<T>>)

  /** The number of nodes of a tree, the root included. */
  function Size<T>(t: Tree<T>): (r: nat)
    ensures r >= 1
  {
    1 + SizeList(t.children)
  }

  function SizeList<T>(cs: seq<Tree<T>>): (r: nat)
    ensures r >= |cs|
  {
    if cs == [] then 0 else Size(cs[0]) + SizeList(cs[1..])
  }

  /** `n` is a subtree hanging somewhere below the root of `t`. */
  predicate Below<T(==,!new)>(t: Tree<T>, n: Tree<T>) {
    BelowList(t.children, n)
  }

  predicate BelowList<T(==,!new)>(cs: seq<Tree<T>>, n: Tree<T>) {
    cs != [] && (cs[0] == n || Below(cs[0], n) || BelowList(cs[1..], n))
  }

  /** Some node below the root of `t` carries `d`. */
  predicate Carries<T(==,!new)>(t: Tree<T>, d: T) {
    CarriesList(t.children, d)
  }

  predicate CarriesList<T(==,!new)>(cs: seq<Tree<T>>, d: T) {
    cs != [] && (cs[0].data == d || Carries(cs[0], d) || CarriesList(cs[1..], d))
  }

  /** `Carries` is "some subtree below the root has `d` as its data". */
  lemma {:induction false} CarriesMeansBelow<T(!new)>(t: Tree<T>, d: T)
    ensures Carries(t, d) <==> exists n :: Below(t, n) && n.data == d
  {
    CarriesListMeansBelow(t.children, d);
  }

  lemma {:induction false} CarriesListMeansBelow<T(!new)>(cs: seq<Tree<T>>, d: T)
    ensures CarriesList(cs, d) <==> exists n :: BelowList(cs, n) && n.data == d
  {
    if cs != [] {
      CarriesMeansBelow(cs[0], d);
      CarriesListMeansBelow(cs[1..], d);
      if CarriesList(cs, d) {
        if cs[0].data == d {
          assert BelowList(cs, cs[0]);
        } else if Carries(cs[0], d) {
          var n :| Below(cs[0], n) && n.data == d;
          assert BelowList(cs, n);
        } else {
          var n :| BelowList(cs[1..], n) && n.data == d;
          assert BelowList(cs, n);
        }
      }
    }
  }

  /** `DependencyTreeNode(data)`: a node with no children. */
  function NewNode<T(==,!new)>(data: T): (r: Tree<T>)
    ensures r.data == data && Len(r) == 0
    ensures forall n :: !Below(r, n)
  {
    Node(data, [])
  }

  /** `add_child`: the children form a set, so a subtree already there is not added again. */
  function AddChild<T(==,!new)>(t: Tree<T>, c: Tree<T>): (r: Tree<T>)
    ensures r.data == t.data && c in r.children
    ensures forall x :: x in r.children <==> x in t.children || x == c
    ensures c !in t.children ==> Len(r) == Len(t) + Size(c)
    ensures c in t.children ==> r == t
  {
    if c in t.children then t
    else
      SizeListAppend(t.children, c);
      Node(t.data, t.children + [c])
  }

  lemma {:induction false} SizeListAppend<T>(cs: seq<Tree<T>>, c: Tree<T>)
    ensures SizeList(cs + [c]) == SizeList(cs) + Size(c)
  {
    if cs != [] {
      assert (cs + [c])[1..] == cs[1..] + [c];
      SizeListAppend(cs[1..], c);
    }
  }

  /**
   * `get_dependencies`: the children, then every child's own dependencies.
   * The list holds exactly the subtrees below the root, one entry per node.
   */
  function Dependencies<T(==,!new)>(t: Tree<T>): (r: seq<Tree<T>>)
    ensures forall n :: n in r <==> Below(t, n)
    ensures |r| == Size(t) - 1
  {
    t.children + DependenciesList(t.children)
  }

  function DependenciesList<T(==,!new)>(cs: seq<Tree<T>>): (r: seq<Tree<T>>)
    ensures forall n :: n in cs || n in r <==> BelowList(cs, n)
    ensures |r| == SizeList(cs) - |cs|
  {
    if cs == [] then []
    else Dependencies(cs[0]) + DependenciesList(cs[1..])
  }

  /** `__len__`: the number of nodes below the root. */
  function Len<T(==,!new)>(t: Tree<T>): (r: nat)
    ensures r == Size(t) - 1
  {
    |Dependencies(t)|
  }

  /** `find_immediate_child`: the first child carrying `d`, or None when no child does. */
  function FindImmediateChild<T(==,!new)>(t: Tree<T>, d: T): (r: Option<Tree<T>>)
    ensures r.Some? ==> r.value.data == d
    ensures r.Some? ==> exists i :: 0 <= i < |t.children| && t.children[i] == r.value &&
                                    forall j :: 0 <= j < i ==> t.children[j].data != d
    ensures r.None? <==> forall c :: c in t.children ==> c.data != d
  {
    FirstWith(t.children, d)
  }

  function FirstWith<T(==,!new)>(cs: seq<Tree<T>>, d: T): (r: Option<Tree<T>>)
    ensures r.Some? ==> r.value.data == d
    ensures r.Some? ==> exists i :: 0 <= i < |cs| && cs[i] == r.value &&
                                    forall j :: 0 <= j < i ==> cs[j].data != d
    ensures r.None? <==> forall c :: c in cs ==> c.data != d
  {
    if cs == [] then None
    else if cs[0].data == d then
      Some(cs[0])
    else
      var r := FirstWith(cs[1..], d);
      if r.Some? then
        var i :| 0 <= i < |cs[1..]| && cs[1..][i] == r.value && forall j :: 0 <= j < i ==> cs[1..][j].data != d;
        assert cs[i + 1] == r.value && forall j :: 0 <= j < i + 1 ==> cs[j].data != d;
        r
      else r
  }

  /**
   * `find_child` as written: every child that does not itself carry `d` is
   * searched recursively, and its answer overwrites the previous one; a
   * child carrying `d` stops the loop. The answer is always a subtree below
   * the root carrying `d`, and it is the first such child when there is one.
   */
  function FindChild<T(==,!new)>(t: Tree<T>, d: T): (r: Option<Tree<T>>)
    ensures r.Some? ==> r.value.data == d && Below(t, r.value)
    ensures FindImmediateChild(t, d).Some? ==> r == FindImmediateChild(t, d)
    ensures !Carries(t, d) ==> r.None?
  {
    CarriesMeansBelow(t, d);
    FindList(t.children, d, None)
  }

  /** The loop of `find_child` over the children still to visit, with the answer so far. */
  function FindList<T(==,!new)>(cs: seq<Tree<T>>, d: T, acc: Option<Tree<T>>): (r: Option<Tree<T>>)
    ensures r.Some? ==> r == acc || (r.value.data == d && BelowList(cs, r.value))
    ensures FirstWith(cs, d).Some? ==> r == FirstWith(cs, d)
    ensures cs == [] ==> r == acc
  {
    if cs == [] then acc
    else if cs[0].data == d then Some(cs[0])
    else FindList(cs[1..], d, FindChild(cs[0], d))
  }

  /**
   * The overwrite loses a deep hit: below `0` the node `3` hangs under the
   * first child, but the search of the second child answers None last.
   */
  lemma FindChildLosesDeepHit()
    ensures var t := Node(0, [Node(1, [Node(3, [])]), Node(2, [])]);
            Carries(t, 3) && FindChild(t, 3).None?
  {
    var t := Node(0, [Node(1, [Node(3, [])]), Node(2, [])]);
    assert t.children[1..] == [Node(2, [])];
    assert Carries(t.children[0], 3);
  }

  /**
   * The search `find_child` is documented to perform: it stops at the first
   * hit, deep or immediate, as `remove_child_from_tree` does. It finds a
   * subtree carrying `d` exactly when one exists.
   */
  function FindDescendant<T(==,!new)>(t: Tree<T>, d: T): (r: Option<Tree<T>>)
    ensures r.Some? <==> Carries(t, d)
    ensures r.Some? ==> r.value.data == d && Below(t, r.value)
  {
    SearchList(t.children, d)
  }

  function SearchList<T(==,!new)>(cs: seq<Tree<T>>, d: T): (r: Option<Tree<T>>)
    ensures r.Some? <==> CarriesList(cs, d)
    ensures r.Some? ==> r.value.data == d && BelowList(cs, r.value)
  {
    if cs == [] then None
    else if cs[0].data == d then Some(cs[0])
    else
      var r := FindDescendant(cs[0], d);
      if r.Some? then r else SearchList(cs[1..], d)
  }

  /**
   * The first child that carries `d` itself or has a node carrying `d`
   * below it: the child at which `remove_child_from_tree` stops.
   */
  function HitIndex<T(==,!new)>(cs: seq<Tree<T>>, d: T): (k: nat)
    requires CarriesList(cs, d)
    ensures k < |cs| && (cs[k].data == d || Carries(cs[k], d))
    ensures forall j :: 0 <= j < k ==> cs[j].data != d && !Carries(cs[j], d)
  {
    if cs[0].data == d || Carries(cs[0], d) then 0 else 1 + HitIndex(cs[1..], d)
  }

  /**
   * `remove_child_from_tree`: the first subtree carrying `d` (a child, or
   * found by searching a child) is detached with everything below it and
   * returned; when none exists the tree is unchanged and None is returned.
   */
  function RemoveChildFromTree<T(==,!new)>(t: Tree<T>, d: T): (r: (Tree<T>, Option<Tree<T>>))
    ensures r.0.data == t.data
    ensures r.1.None? <==> !Carries(t, d)
    ensures r.1.None? ==> r.0 == t
    ensures r.1.Some? ==> r.1.value.data == d && Below(t, r.1.value)
    ensures r.1.Some? ==> Size(r.0) == Size(t) - Size(r.1.value)
    ensures r.1.Some? ==> Len(r.0) == Len(t) - Size(r.1.value)
  {
    var (cs, n) := RemoveList(t.children, d);
    (Node(t.data, cs), n)
  }

  function RemoveList<T(==,!new)>(cs: seq<Tree<T>>, d: T): (r: (seq<Tree<T>>, Option<Tree<T>>))
    ensures r.1.None? <==> !CarriesList(cs, d)
    ensures r.1.None? ==> r.0 == cs
    ensures r.1.Some? ==> r.1.value.data == d && BelowList(cs, r.1.value)
    ensures r.1.Some? ==> SizeList(r.0) == SizeList(cs) - Size(r.1.value)
  {
    if cs == [] then (cs, None)
    else if cs[0].data == d then (cs[1..], Some(cs[0]))
    else
      var (c, n) := RemoveChildFromTree(cs[0], d);
      if n.Some? then
        assert ([c] + cs[1..])[1..] == cs[1..];
        ([c] + cs[1..], n)
      else
        var (rest, m) := RemoveList(cs[1..], d);
        assert ([cs[0]] + rest)[1..] == rest;
        assert m.None? ==> [cs[0]] + rest == cs;
        ([cs[0]] + rest, m)
  }

  /**
   * What takes the place of the child at the hit: nothing when the child
   * carries `d` itself, and otherwise the child with the subtree removed.
   */
  function Replacement<T(==,!new)>(c: Tree<T>, d: T): (r: seq<Tree<T>>)
    ensures c.data == d ==> r == []
    ensures c.data != d ==> |r| == 1 && r[0].data == c.data
  {
    if c.data == d then [] else [RemoveChildFromTree(c, d).0]
  }

  /**
   * Removal changes only the child at the hit: it is replaced by its
   * `Replacement` and every other child stays, in place; a child carrying
   * `d` itself is what is returned.
   */
  lemma RemoveChildShape<T(!new)>(t: Tree<T>, d: T)
    requires Carries(t, d)
    ensures var cs, k := t.children, HitIndex(t.children, d);
            && RemoveChildFromTree(t, d).0.children == cs[..k] + Replacement(cs[k], d) + cs[k + 1..]
            && (cs[k].data == d ==> RemoveChildFromTree(t, d).1 == Some(cs[k]))
  {
    RemoveListShape(t.children, d);
  }

  lemma {:induction false} RemoveListShape<T(!new)>(cs: seq<Tree<T>>, d: T)
    requires CarriesList(cs, d)
    ensures var k := HitIndex(cs, d);
            && RemoveList(cs, d).0 == cs[..k] + Replacement(cs[k], d) + cs[k + 1..]
            && (cs[k].data == d ==> RemoveList(cs, d).1 == Some(cs[k]))
  {
    if cs[0].data == d {
      assert cs[..0] + [] + cs[1..] == cs[1..];
    } else if Carries(cs[0], d) {
      RemoveListDescends(cs, d);
    } else {
      RemoveListShape(cs[1..], d);
      RemoveListShapeStep(cs, d);
    }
  }

  /** The shape after a first child that is passed over follows from the shape of the rest. */
  lemma RemoveListShapeStep<T(!new)>(cs: seq<Tree<T>>, d: T)
    requires CarriesList(cs, d) && cs[0].data != d && !Carries(cs[0], d)
    requires var tail, k := cs[1..], HitIndex(cs[1..], d);
             RemoveList(tail, d).0 == tail[..k] + Replacement(tail[k], d) + tail[k + 1..]
    ensures var k := HitIndex(cs, d);
            RemoveList(cs, d).0 == cs[..k] + Replacement(cs[k], d) + cs[k + 1..]
  {
    var tail := cs[1..];
    RemoveListPasses(cs, d);
    var k := HitIndex(tail, d);
    assert cs == [cs[0]] + tail;
    ConsSplice(cs[0], tail, k, Replacement(tail[k], d));
  }

  /** Putting `x` in front of a splice of `tail` splices `[x] + tail` one place later. */
  lemma ConsSplice<T>(x: T, tail: seq<T>, k: nat, mid: seq<T>)
    requires k < |tail|
    ensures [x] + (tail[..k] + mid + tail[k + 1..]) == ([x] + tail)[..k + 1] + mid + ([x] + tail)[k + 2..]
  {
    var cs := [x] + tail;
    assert cs[..k + 1] == [x] + tail[..k];
    assert cs[k + 2..] == tail[k + 1..];
  }

  /** A first child with `d` below it is replaced by itself with the subtree removed. */
  lemma RemoveListDescends<T(!new)>(cs: seq<Tree<T>>, d: T)
    requires cs != [] && cs[0].data != d && Carries(cs[0], d)
    ensures HitIndex(cs, d) == 0
    ensures RemoveList(cs, d).0 == cs[..0] + Replacement(cs[0], d) + cs[1..]
  {
    var c := RemoveChildFromTree(cs[0], d).0;
    assert cs[..0] + [c] + cs[1..] == [c] + cs[1..];
  }

  /** A first child that neither carries `d` nor has it below is kept, and the search moves on. */
  lemma RemoveListPasses<T(!new)>(cs: seq<Tree<T>>, d: T)
    requires CarriesList(cs, d) && cs[0].data != d && !Carries(cs[0], d)
    ensures RemoveList(cs, d) == ([cs[0]] + RemoveList(cs[1..], d).0, RemoveList(cs[1..], d).1)
    ensures HitIndex(cs, d) == HitIndex(cs[1..], d) + 1
  {
  }

  /** The subtree removed is the one the documented search finds. */
  lemma {:induction false} RemoveTakesFound<T(!new)>(t: Tree<T>, d: T)
    ensures RemoveChildFromTree(t, d).1 == FindDescendant(t, d)
  {
    RemoveListTakesFound(t.children, d);
  }

  lemma {:induction false} RemoveListTakesFound<T(!new)>(cs: seq<Tree<T>>, d: T)
    ensures RemoveList(cs, d).1 == SearchList(cs, d)
  {
    if cs != [] && cs[0].data != d {
      RemoveTakesFound(cs[0], d);
      RemoveListTakesFound(cs[1..], d);
    }
  }
}
