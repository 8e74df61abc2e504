/**
 * The schema as the frontend sees it: a YAML document loaded into Python
 * dicts and lists. A scope (the top level, or the body of an entry of
 * `types`) has its well-known keys as `Option` fields; every other key is
 * kept, untouched, in `others`.
 */
module Values {
  import opened Results
  import opened DependencyGraph
  import Types

  /** A key of a YAML mapping below the top level of a scope. */
  datatype Key = KInt(i: int) | KStr(s: string)

  /** A YAML value. `VInf` is the float infinity that the defaults pass writes. */
  datatype Value =
    | VNone
    | VBool(b: bool)
    | VInt(i: int)
    | VInf(negative: bool)
    | VStr(s: string)
    | VList(items: seq<Value>)
    | VDict(fields: map<Key, Value>)

  /** One attribute of `seq`: a dict from key names to values. */
  type Entry = map<string, Value>

  /** An enum class: integer (or other) keys to a name or a verbose dict. */
  type EnumClass = map<Key, Value>

  datatype Scope = Scope(
    meta: Option<Entry>,
    attrs: Option<seq<Entry>>,
    types: Option<TypeTable>,
    enums: Option<map<string, EnumClass>>,
    availableRef: Option<seq<Value>>,
    graph: Option<DependencyGraph<Value>>,
    others: map<string, Value>)

  /** The `types` dict, in its insertion order. */
  datatype TypeTable = TypeTable(defs: seq<TypeDef>)

  datatype TypeDef = TypeDef(name: string, body: Scope)

  /** Python's `v in names` for a list of strings: only a str can be equal to one. */
  predicate NamedIn(v: Value, names: seq<string>) {
    v.VStr? && v.s in names
  }

  /** Python's `v in VALID_BASE_TYPE_VAL`: `None` or a named base tag. */
  predicate IsBaseType(v: Value) {
    v.VNone? || NamedIn(v, Types.IntTypes) || NamedIn(v, Types.FloatTypes) || NamedIn(v, Types.StrTypes)
  }

  /** `IsBaseType` is list membership in the base list of the type universe. */
  lemma IsBaseTypeMeansListed(v: Value)
    requires v.VNone? || v.VStr?
    ensures IsBaseType(v) <==> (if v.VNone? then None else Some(v.s)) in Types.BaseTypes
  {
    Types.BaseTypeMembership(if v.VNone? then None else Some(v.s));
  }

  /** Values that Python can use as a dict key. */
  predicate Hashable(v: Value) {
    !v.VList? && !v.VDict?
  }

  /** The value a key stands for when a dict is iterated: Python yields the keys themselves. */
  function KeyValue(k: Key): (r: Value)
    ensures k.KInt? ==> r == VInt(k.i)
    ensures k.KStr? ==> r == VStr(k.s)
  {
    match k
    case KInt(i) => VInt(i)
    case KStr(s) => VStr(s)
  }

  /** Code-point order on strings: a prefix comes first. */
  predicate TextLe(a: string, b: string)
    decreases |a|
  {
    a == [] || (b != [] && (a[0] < b[0] || (a[0] == b[0] && TextLe(a[1..], b[1..]))))
  }

  /**
   * The order in which the model visits the keys of a dict (a `map` keeps
   * no insertion order): int keys ascending, then str keys in code-point
   * order.
   */
  predicate KeyLe(a: Key, b: Key) {
    match (a, b)
    case (KInt(x), KInt(y)) => x <= y
    case (KInt(_), KStr(_)) => true
    case (KStr(_), KInt(_)) => false
    case (KStr(x), KStr(y)) => TextLe(x, y)
  }

  lemma {:induction false} TextLeTotal(a: string, b: string)
    ensures TextLe(a, b) || TextLe(b, a)
    decreases |a|
  {
    if a != [] && b != [] && a[0] == b[0] {
      TextLeTotal(a[1..], b[1..]);
    }
  }

  lemma {:induction false} TextLeAntisymmetric(a: string, b: string)
    requires TextLe(a, b) && TextLe(b, a)
    ensures a == b
    decreases |a|
  {
    if a != [] {
      TextLeAntisymmetric(a[1..], b[1..]);
      assert a == [a[0]] + a[1..] && b == [b[0]] + b[1..];
    }
  }

  lemma {:induction false} TextLeTransitive(a: string, b: string, c: string)
    requires TextLe(a, b) && TextLe(b, c)
    ensures TextLe(a, c)
    decreases |a|
  {
    if a != [] && b[0] == a[0] && c[0] == b[0] {
      TextLeTransitive(a[1..], b[1..], c[1..]);
    }
  }

  /** `KeyLe` is a total order. */
  lemma KeyLeOrder()
    ensures forall a, b :: KeyLe(a, b) || KeyLe(b, a)
    ensures forall a, b :: KeyLe(a, b) && KeyLe(b, a) ==> a == b
    ensures forall a, b, c :: KeyLe(a, b) && KeyLe(b, c) ==> KeyLe(a, c)
  {
    forall a: Key, b: Key ensures KeyLe(a, b) || KeyLe(b, a) {
      if a.KStr? && b.KStr? { TextLeTotal(a.s, b.s); }
    }
    forall a: Key, b: Key | KeyLe(a, b) && KeyLe(b, a) ensures a == b {
      if a.KStr? && b.KStr? { TextLeAntisymmetric(a.s, b.s); }
    }
    forall a: Key, b: Key, c: Key | KeyLe(a, b) && KeyLe(b, c) ensures KeyLe(a, c) {
      if a.KStr? && b.KStr? && c.KStr? { TextLeTransitive(a.s, b.s, c.s); }
    }
  }

  /** Every non-empty finite set of keys has a least key. */
  lemma {:induction false} LeastKeyExists(s: set<Key>)
    requires s != {}
    ensures exists m :: m in s && forall k :: k in s ==> KeyLe(m, k)
    decreases |s|
  {
    KeyLeOrder();
    var x :| x in s;
    if s == {x} {
      assert forall k :: k in s ==> KeyLe(x, k);
    } else {
      LeastKeyExists(s - {x});
      var m :| m in s - {x} && forall k :: k in s - {x} ==> KeyLe(m, k);
      if KeyLe(m, x) {
        assert forall k :: k in s ==> KeyLe(m, k);
      } else {
        assert forall k :: k in s ==> KeyLe(x, k);
      }
    }
  }

  /** The least key of a non-empty set. */
  function LeastKey(s: set<Key>): (m: Key)
    requires s != {}
    ensures m in s && forall k :: k in s ==> KeyLe(m, k)
  {
    LeastKeyExists(s);
    KeyLeOrder();
    var m :| m in s && forall k :: k in s ==> KeyLe(m, k);
    m
  }

  /** The keys of a set in `KeyLe` order, each once. */
  function SortedKeys(s: set<Key>): (r: seq<Key>)
    ensures |r| == |s|
    ensures forall k :: k in s <==> k in r
    ensures forall i, j :: 0 <= i < j < |r| ==> KeyLe(r[i], r[j]) && r[i] != r[j]
    decreases |s|
  {
    if s == {} then []
    else
      var m := LeastKey(s);
      var rest := SortedKeys(s - {m});
      var r := [m] + rest;
      assert forall i :: 1 <= i < |r| ==> r[i] == rest[i - 1] && r[i] in s - {m};
      assert forall k :: k in r <==> k == m || k in rest;
      r
  }
}
