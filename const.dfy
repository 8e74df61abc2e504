/**
 * Integer bounds and operator tables shared by the frontend and the code
 * generators (src/utils/const.py).
 */
module Const {
  import opened Collections

  function Pow2(n: nat): (r: nat)
    ensures r >= 1
  {
    if n == 0 then 1 else 2 * Pow2(n - 1)
  }

  lemma {:induction false} Pow2Add(a: nat, b: nat)
    ensures Pow2(a + b) == Pow2(a) * Pow2(b)
  {
    if a > 0 {
      Pow2Add(a - 1, b);
      assert Pow2(a + b) == 2 * Pow2(a - 1 + b);
    }
  }

  /** The four integer widths, in bytes. */
  datatype Width = W1 | W2 | W4 | W8

  function Bytes(w: Width): (r: nat)
    ensures 1 <= r <= 8
  {
    match w
    case W1 => 1
    case W2 => 2
    case W4 => 4
    case W8 => 8
  }

  // The literals of const.py, per width.

  function UnsignedMin(w: Width): int {
    0
  }

  function UnsignedMax(w: Width): int {
    match w
    case W1 => 255
    case W2 => 65535
    case W4 => 4294967295
    case W8 => 18446744073709551615
  }

  function SignedMin(w: Width): int {
    match w
    case W1 => -128
    case W2 => -32768
    case W4 => -2147483648
    case W8 => -9223372036854775808
  }

  function SignedMax(w: Width): int {
    match w
    case W1 => 127
    case W2 => 32767
    case W4 => 2147483647
    case W8 => 9223372036854775807
  }

  lemma Pow2Small()
    ensures Pow2(7) == 128 && Pow2(8) == 256
    ensures Pow2(15) == 32768 && Pow2(16) == 65536
  {
    assert Pow2(4) == 16;
    assert Pow2(7) == 128 by { Pow2Add(4, 3); }
    assert Pow2(8) == 256 by { Pow2Add(4, 4); }
    Pow2Add(8, 7);
    Pow2Add(8, 8);
  }

  lemma Pow2Table()
    ensures Pow2(7) == 128 && Pow2(8) == 256
    ensures Pow2(15) == 32768 && Pow2(16) == 65536
    ensures Pow2(31) == 2147483648 && Pow2(32) == 4294967296
    ensures Pow2(63) == 9223372036854775808 && Pow2(64) == 18446744073709551616
  {
    Pow2Small();
    Pow2Add(16, 15);
    Pow2Add(16, 16);
    Pow2Add(32, 31);
    Pow2Add(32, 32);
  }

  /** The unsigned bounds are [0, 2^(8k) - 1] for a k-byte width. */
  lemma UnsignedBoundsArePowers(w: Width)
    ensures UnsignedMin(w) == 0
    ensures UnsignedMax(w) == Pow2(8 * Bytes(w)) - 1
  {
    Pow2Table();
  }

  /** The signed bounds are [-2^(8k-1), 2^(8k-1) - 1] for a k-byte width. */
  lemma SignedBoundsArePowers(w: Width)
    ensures SignedMin(w) == -(Pow2(8 * Bytes(w) - 1) as int)
    ensures SignedMax(w) == Pow2(8 * Bytes(w) - 1) - 1
  {
    Pow2Table();
  }

  /** Every width has a nonempty range, and the signed range is as wide as the unsigned one. */
  lemma BoundsOrdered(w: Width)
    ensures UnsignedMin(w) < UnsignedMax(w) && SignedMin(w) < SignedMax(w)
    ensures SignedMax(w) - SignedMin(w) == UnsignedMax(w) - UnsignedMin(w)
  {
  }

  const ArithmeticOperators: seq<string> := ["+", "-", "*", "/", "%"]
  const StringOperators: seq<string> := ["+"]
  const RelationalOperators: seq<string> := ["<", "<=", ">", ">=", "==", "!="]
  const BitwiseOperators: seq<string> := ["<<", ">>", "&", "|", "^"]
  const LogicalOperators: seq<string> := ["not", "and", "or"]

  function SetOf(s: seq<string>): (r: set<string>)
    ensures forall x :: x in r <==> x in s
  {
    set x | x in s
  }

  /**
   * The operator union. Python builds a tuple from a set, so the order of
   * the tuple is unspecified; the model keeps the set.
   */
  function Operators(): (r: set<string>)
    ensures forall op :: op in r <==>
      (op in ArithmeticOperators || op in StringOperators || op in RelationalOperators
       || op in BitwiseOperators || op in LogicalOperators)
  {
    SetOf(ArithmeticOperators) + SetOf(StringOperators) + SetOf(RelationalOperators)
      + SetOf(BitwiseOperators) + SetOf(LogicalOperators)
  }

  /** The union has 19 members: `+` occurs in two tables but counts once. */
  lemma OperatorsCount()
    ensures "+" in ArithmeticOperators && "+" in StringOperators
    ensures |Operators()| == 19
  {
    TablesDistinct();
    TableCard(ArithmeticOperators);
    TableCard(RelationalOperators);
    TableCard(BitwiseOperators);
    TableCard(LogicalOperators);
    ArithmeticNotLater();
    RelationalNotLater();
    BitwiseNotLogical();
    UnionCard(SetOf(ArithmeticOperators), SetOf(StringOperators), SetOf(RelationalOperators),
              SetOf(BitwiseOperators), SetOf(LogicalOperators));
  }

  /** Five tables, the second inside the first and the others pairwise apart. */
  lemma UnionCard(a: set<string>, s: set<string>, r: set<string>, b: set<string>, l: set<string>)
    requires s <= a && a !! r && a !! b && a !! l && r !! b && r !! l && b !! l
    ensures |a + s + r + b + l| == |a| + |r| + |b| + |l|
  {
    assert a + s == a;
    assert |a + r| == |a| + |r|;
    assert |a + r + b| == |a| + |r| + |b|;
  }

  /** A table without repeats has as many members as entries. */
  lemma TableCard(t: seq<string>)
    requires Distinct(t)
    ensures |SetOf(t)| == |t|
  {
    DistinctCard(t);
    assert SetOf(t) == Elems(t);
  }

  lemma TablesDistinct()
    ensures Distinct(ArithmeticOperators) && Distinct(RelationalOperators)
    ensures Distinct(BitwiseOperators) && Distinct(LogicalOperators)
  {
  }

  /** No operator is in two of the arithmetic, relational, bitwise and logical tables. */
  lemma ArithmeticNotLater()
    ensures forall x :: x in ArithmeticOperators ==> x !in RelationalOperators && x !in BitwiseOperators && x !in LogicalOperators
  {
  }

  lemma RelationalNotLater()
    ensures forall x :: x in RelationalOperators ==> x !in BitwiseOperators && x !in LogicalOperators
  {
  }

  lemma BitwiseNotLogical()
    ensures forall x :: x in BitwiseOperators ==> x !in LogicalOperators
  {
  }

  const ValidProcessKeyValue: seq<string> := ["zlib"]
  const KeyWithExpression: seq<string> := ["size", "switch-on", "repeat-expr", "valid", "value"]
}
