/**
 * The older line indenter (src/backend/py3/utils/indenter.py): steps of
 * one level, a level that never drops below 0, and no line feeds.
 */
module IndenterLegacy {
  import opened Text
  import Ind = Indenter

  class Indenter {
    var indentation: nat
    var indentChar: string
    var level: nat

    /** `Indenter(indentation, indent_char)`: a negative indentation becomes 0; the level starts at 0. */
    constructor (indentation: int, indentChar: string)
      ensures this.indentation == if indentation < 0 then 0 else indentation
      ensures this.indentChar == indentChar && level == 0
    {
      this.indentation := if indentation < 0 then 0 else indentation;
      this.indentChar := indentChar;
      this.level := 0;
    }

    /** `reset()`: back to level 0. */
    method Reset()
      modifies this
      ensures level == 0 && indentation == old(indentation) && indentChar == old(indentChar)
    {
      level := 0;
    }

    /** `indent()`: one level more. */
    method Indent()
      modifies this
      ensures level == old(level) + 1 && indentation == old(indentation) && indentChar == old(indentChar)
    {
      level := level + 1;
    }

    /** `unindent()`: one level less, but never below 0. */
    method Unindent()
      modifies this
      ensures level == if old(level) > 0 then old(level) - 1 else 0
      ensures indentation == old(indentation) && indentChar == old(indentChar)
    {
      if level > 0 {
        level := level - 1;
      }
    }

    /** One line with the prefix of the current level: nothing at all when the indentation is 0. */
    function ApplyToLine(line: string): (r: string)
      reads this
      ensures r == Repeat(indentChar, indentation * level) + line
      ensures indentation == 0 || level == 0 ==> r == line
    {
      Ind.Indented(indentChar, indentation, level, false, line)
    }

    function Applied(lines: seq<string>): (r: seq<string>)
      reads this
      ensures |r| == |lines|
      ensures forall i :: 0 <= i < |lines| ==> r[i] == ApplyToLine(lines[i])
    {
      if lines == [] then [] else [ApplyToLine(lines[0])] + Applied(lines[1..])
    }

    /** `apply(text)` on a list: every line gets the prefix, in place; the same list is returned. */
    method ApplyList(text: Ind.LineList) returns (r: Ind.LineList)
      modifies text
      ensures r == text && text.items == Applied(old(text.items))
    {
      for i := 0 to |text.items|
        invariant |text.items| == |old(text.items)|
        invariant forall j :: 0 <= j < i ==> text.items[j] == ApplyToLine(old(text.items)[j])
        invariant forall j :: i <= j < |text.items| ==> text.items[j] == old(text.items)[j]
      {
        text.items := text.items[i := ApplyToLine(text.items[i])];
      }
      return text;
    }

    /** `apply(text)` on a string: its `splitlines()`, each with the prefix, in a new list. */
    method ApplyText(text: string) returns (r: Ind.LineList)
      ensures fresh(r) && r.items == Applied(SplitLines(text))
    {
      r := new Ind.LineList(SplitLines(text));
      r := ApplyList(r);
    }
  }

  /**
   * The level changes of a tab indenter of width 1, applied to two lines
   * after each step: no prefix, then one tab, two tabs, and one tab again
   * after an `unindent`.
   */
  method MultipleLevels(a: string, b: string) returns (r: seq<seq<string>>)
    requires NoLineBreak(a) && NoLineBreak(b) && b != []
    ensures r == [[a, b], ["\t" + a, "\t" + b], ["\t\t" + a, "\t\t" + b], ["\t" + a, "\t" + b]]
  {
    var ind := new Indenter(1, "\t");
    SplitTwoLines(a, b, "\n");
    assert Repeat("\t", 1) == "\t" && Repeat("\t", 2) == "\t\t";
    var text := a + "\n" + b;
    var l := ind.ApplyText(text);
    var i0 := l.items;
    assert i0 == [a, b];
    ind.Indent();
    l := ind.ApplyText(text);
    var i1 := l.items;
    assert i1 == ["\t" + a, "\t" + b];
    ind.Indent();
    l := ind.ApplyText(text);
    var i2 := l.items;
    assert i2 == ["\t\t" + a, "\t\t" + b];
    ind.Unindent();
    l := ind.ApplyText(text);
    var i3 := l.items;
    assert i3 == ["\t" + a, "\t" + b];
    r := [i0, i1, i2, i3];
  }

  /**
   * `unindent` at level 0 keeps the level at 0, so lines split at CR LF or
   * LF come back without a prefix.
   */
  method UnindentAtZero(a: string, b: string, eol: string) returns (r: seq<string>)
    requires eol == "\n" || eol == "\r\n"
    requires NoLineBreak(a) && NoLineBreak(b) && b != []
    ensures r == [a, b]
  {
    var ind := new Indenter(4, " ");
    ind.Unindent();
    SplitTwoLines(a, b, eol);
    var l := ind.ApplyText(a + eol + b);
    r := l.items;
  }
}
