/** Sequence and set facts shared by the other modules. */
module Collections {

  /** Every element of `s` occurs once. */
  predicate Distinct<X(==)>(s: seq<X>) {
    forall i, j :: 0 <= i < j < |s| ==> s[i] != s[j]
  }

  function Elems<X(==)>(s: seq<X>): set<X> {
    set x | x in s
  }

  lemma ElemsAppend<X>(s: seq<X>, x: X)
    ensures Elems(s + [x]) == Elems(s) + {x}
  {
    assert forall y :: y in s + [x] <==> y in s || y == x;
  }

  lemma ElemsConcat<X>(s: seq<X>, t: seq<X>)
    ensures Elems(s + t) == Elems(s) + Elems(t)
  {
    assert forall y :: y in s + t <==> y in s || y in t;
  }

  lemma DistinctConcat<X>(s: seq<X>, t: seq<X>)
    requires Distinct(s) && Distinct(t) && Elems(s) !! Elems(t)
    ensures Distinct(s + t)
  {
    forall i, j | 0 <= i < j < |s + t|
      ensures (s + t)[i] != (s + t)[j]
    {
      if j >= |s| && i < |s| {
        assert (s + t)[i] in Elems(s);
        assert (s + t)[j] in Elems(t);
      }
    }
  }

  lemma {:induction false} DistinctCard<X>(s: seq<X>)
    requires Distinct(s)
    ensures |Elems(s)| == |s|
  {
    if s != [] {
      assert Elems(s) == Elems(s[1..]) + {s[0]} by {
        assert s == [s[0]] + s[1..];
        ElemsConcat([s[0]], s[1..]);
      }
      assert s[0] !in Elems(s[1..]);
      DistinctCard(s[1..]);
    }
  }

  lemma {:induction false} CardMono<X>(a: set<X>, b: set<X>)
    requires a <= b
    ensures |a| <= |b|
    ensures |a| == |b| ==> a == b
    ensures |a| < |b| ==> b - a != {}
    decreases |b|
  {
    if b - a != {} {
      var x :| x in b - a;
      CardMono(a, b - {x});
    } else {
      forall x | x in b
        ensures x in a
      {
        assert x !in b - a;
      }
      assert a == b;
    }
  }

  /** The tail of a duplicate-free sequence is duplicate-free and lacks the head. */
  lemma DistinctTail<X>(s: seq<X>)
    requires |s| > 0 && Distinct(s)
    ensures Distinct(s[1..]) && s[0] !in s[1..]
    ensures forall x :: x in s <==> x == s[0] || x in s[1..]
  {
    forall j | 0 <= j < |s| - 1
      ensures s[1..][j] != s[0]
    {
      assert s[1..][j] == s[j + 1];
    }
    assert s == [s[0]] + s[1..];
  }

  /** Overwriting the first element after a prefix. */
  lemma UpdateAfterPrefix<X>(p: seq<X>, s: seq<X>, x: X)
    requires |s| > 0
    ensures (p + s)[|p| := x] == p + [x] + s[1..]
  {
    assert forall k :: 0 <= k < |p + s| ==> (p + s)[|p| := x][k] == (p + [x] + s[1..])[k];
  }
}
