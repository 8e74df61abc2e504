/**
 * Name sanitisers (src/backend/py3/utils/sanitiser.py): a schema name
 * becomes a Python class or function name by changing its case, deleting
 * punctuation and whitespace one character kind at a time, and appending
 * `_`.
 */
module Sanitiser {
  import opened Text

  /** `string.punctuation` followed by `string.whitespace`. */
  const ClassRemoved: string := "!\"#$%&'()*+,-./:;<=>?@[\\]^_`{|}~ \t\n\r\U{0b}\U{0c}"

  /** The same list without `_`. */
  const FnRemoved: string := "!\"#$%&'()*+,-./:;<=>?@[\\]^`{|}~ \t\n\r\U{0b}\U{0c}"

  /** The characters of `s` that are not in `cs`, in order. */
  function Keep(s: string, cs: string): (r: string)
    ensures |r| <= |s|
    ensures forall i :: 0 <= i < |r| ==> r[i] !in cs && r[i] in s
  {
    if s == [] then []
    else (if s[0] in cs then [] else [s[0]]) + Keep(s[1..], cs)
  }

  /** Deleting one more character from a filtered text is filtering by the longer list. */
  lemma {:induction false} KeepMore(s: string, cs: string, c: char)
    ensures Keep(Keep(s, cs), [c]) == Keep(s, cs + [c])
  {
    if s != [] {
      KeepMore(s[1..], cs, c);
      var head := if s[0] in cs then [] else [s[0]];
      assert Keep(s, cs) == head + Keep(s[1..], cs);
      KeepConcat(head, Keep(s[1..], cs), [c]);
      assert Keep(head, [c]) == if s[0] in cs + [c] then [] else [s[0]];
    }
  }

  lemma {:induction false} KeepConcat(a: string, b: string, cs: string)
    ensures Keep(a + b, cs) == Keep(a, cs) + Keep(b, cs)
  {
    if a != [] {
      assert (a + b)[1..] == a[1..] + b;
      KeepConcat(a[1..], b, cs);
    } else {
      assert a + b == b;
    }
  }

  /** `Keep` with no characters to delete changes nothing. */
  lemma {:induction false} KeepNothing(s: string)
    ensures Keep(s, []) == s
  {
    if s != [] {
      KeepNothing(s[1..]);
    }
  }

  /**
   * The class name of `name`: title case, then every punctuation and
   * whitespace character (`_` included) deleted, then `_` appended. The
   * only `_` is the last character, and nothing before it is punctuation
   * or whitespace.
   */
  function ClassName(name: string): (r: string)
    ensures |r| >= 1 && r[|r| - 1] == '_'
    ensures forall i :: 0 <= i < |r| - 1 ==> r[i] !in ClassRemoved && r[i] != '_'
  {
    assert '_' in ClassRemoved;
    Keep(Title(name), ClassRemoved) + "_"
  }

  /**
   * The function name of `name`: lower case, then every punctuation
   * character except `_` and every whitespace character deleted, then `_`
   * appended. The result has no upper-case letter and ends with `_`.
   */
  function FnName(name: string): (r: string)
    ensures |r| >= 1 && r[|r| - 1] == '_'
    ensures forall i :: 0 <= i < |r| ==> !IsUpper(r[i])
    ensures forall i :: 0 <= i < |r| - 1 ==> r[i] !in FnRemoved
  {
    Keep(LowerText(name), FnRemoved) + "_"
  }

  /** The deletion loop shared by both sanitisers: one `str.replace(c, "")` per listed character. */
  method RemoveAll(s: string, cs: string) returns (r: string)
    ensures r == Keep(s, cs)
  {
    r := s;
    KeepNothing(s);
    for i := 0 to |cs|
      invariant r == Keep(s, cs[..i])
    {
      r := Replace(r, cs[i]);
      KeepMore(s, cs[..i], cs[i]);
      assert cs[..i] + [cs[i]] == cs[..i + 1];
    }
    assert cs[..|cs|] == cs;
  }

  /** `s.replace(c, "")`. */
  function Replace(s: string, c: char): (r: string)
    ensures r == Keep(s, [c])
    ensures forall i :: 0 <= i < |r| ==> r[i] != c
  {
    if s == [] then [] else (if s[0] == c then [] else [s[0]]) + Replace(s[1..], c)
  }

  /** `sanitise_class_name`. */
  method SanitiseClassName(name: string) returns (r: string)
    ensures r == ClassName(name)
  {
    r := Title(name);
    r := RemoveAll(r, ClassRemoved);
    r := r + "_";
  }

  /** `sanitise_fn_name`. */
  method SanitiseFnName(name: string) returns (r: string)
    ensures r == FnName(name)
  {
    r := LowerText(name);
    r := RemoveAll(r, FnRemoved);
    r := r + "_";
  }
}
