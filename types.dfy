/**
 * The type-tag universe (src/utils/types.py). A tag is a string such as
 * "u4le", or `None` for raw bytes, so the base list holds `Option<string>`.
 */
module Types {
  import opened Results
  import opened Collections

  const IntTypes: seq<string> :=
    ["u1", "u2", "u2le", "u2be", "u4", "u4le", "u4be", "u8", "u8le",
     "u8be", "s1", "s2", "s2le", "s2be", "s4", "s4le", "s4be", "s8", "s8le", "s8be"]
  const FloatTypes: seq<string> := ["f4", "f4le", "f4be", "f8", "f8le", "f8be"]
  const StrTypes: seq<string> := ["str", "strz"]
  const ByteTypes: seq<Option<string>> := [None]

  /** The named tags of a list, as tags. */
  function Named(names: seq<string>): (r: seq<Option<string>>)
    ensures |r| == |names|
    ensures forall i :: 0 <= i < |names| ==> r[i] == Some(names[i])
  {
    seq(|names|, i requires 0 <= i < |names| => Some(names[i]))
  }

  /** The base list: the integer tags, the float tags, the string tags, then `None`. */
  const BaseTypes: seq<Option<string>> := Named(IntTypes) + Named(FloatTypes) + Named(StrTypes) + ByteTypes

  /** 29 entries in category order, raw bytes last. */
  lemma BaseTypesLayout()
    ensures |BaseTypes| == 29 && BaseTypes[28] == None
    ensures forall i :: 0 <= i < 20 ==> BaseTypes[i] == Some(IntTypes[i])
    ensures forall i :: 0 <= i < 6 ==> BaseTypes[20 + i] == Some(FloatTypes[i])
    ensures forall i :: 0 <= i < 2 ==> BaseTypes[26 + i] == Some(StrTypes[i])
  {
  }

  /** A tag is a base type exactly when it is `None` or named in one of the three lists. */
  lemma BaseTypeMembership(t: Option<string>)
    ensures t in BaseTypes <==>
      t == None || (t.Some? && (t.value in IntTypes || t.value in FloatTypes || t.value in StrTypes))
  {
    BaseTypesLayout();
    if t.Some? && t.value in IntTypes {
      var i :| 0 <= i < |IntTypes| && IntTypes[i] == t.value;
      assert BaseTypes[i] == t;
    } else if t.Some? && t.value in FloatTypes {
      var i :| 0 <= i < |FloatTypes| && FloatTypes[i] == t.value;
      assert BaseTypes[20 + i] == t;
    } else if t.Some? && t.value in StrTypes {
      var i :| 0 <= i < |StrTypes| && StrTypes[i] == t.value;
      assert BaseTypes[26 + i] == t;
    } else if t.None? {
      assert BaseTypes[28] == t;
    }
    if t in BaseTypes && t.Some? {
      var k :| 0 <= k < |BaseTypes| && BaseTypes[k] == t;
      if k < 20 {
        assert t.value == IntTypes[k];
      } else if k < 26 {
        assert t.value == FloatTypes[k - 20];
      } else {
        assert t.value == StrTypes[k - 26];
      }
    }
  }

  /** Raw bytes are a base type, so a field without a type is never a custom type. */
  lemma NoneIsBase()
    ensures None in BaseTypes && BaseTypes[|BaseTypes| - 1] == None
  {
    BaseTypesLayout();
  }

  /** The three named categories share no tag (and none of them is `None`). */
  lemma CategoriesDisjoint(t: string)
    ensures !(t in IntTypes && t in FloatTypes)
    ensures !(t in IntTypes && t in StrTypes)
    ensures !(t in FloatTypes && t in StrTypes)
  {
    forall i | 0 <= i < |IntTypes|
      ensures IntTypes[i][0] in "us" && (IntTypes[i][0] == 's' ==> IntTypes[i][1] in "1248")
    {
    }
    forall i | 0 <= i < |FloatTypes|
      ensures FloatTypes[i][0] == 'f'
    {
    }
  }
}
