/**
 * The line indenter of the class-based backend
 * (src/backend/utils/indenter.py): an indentation level that `indent` and
 * `unindent` move, a prefix of `indent_char` repeated `indentation` times
 * per level, and an optional line feed at the end of every line.
 */
module Indenter {
  import opened Results
  import opened Text

  predicate EndsWithFeed(s: string) {
    |s| > 0 && s[|s| - 1] == '\n'
  }

  /**
   * A line after indentation: `ch` repeated `width * level` times (nothing
   * for a count below 1), the line, then a line feed when `newline` is set
   * and the text does not already end with one.
   */
  function Indented(ch: string, width: int, level: int, newline: bool, line: string): (r: string)
    ensures !newline ==> r == Repeat(ch, width * level) + line
    ensures newline ==> EndsWithFeed(r)
  {
    IndentBy(ch, width * level, newline, line)
  }

  function IndentBy(ch: string, count: int, newline: bool, line: string): string {
    var l := Repeat(ch, count) + line;
    if newline && !EndsWithFeed(l) then l + "\n" else l
  }

  /** Python's `s * m + s * n == s * (m + n)` for non-negative counts. */
  lemma {:induction false} RepeatAdd(s: string, m: int, n: int)
    requires m >= 0 && n >= 0
    ensures Repeat(s, m) + Repeat(s, n) == Repeat(s, m + n)
    decreases m
  {
    if m > 0 {
      RepeatAdd(s, m - 1, n);
      var a, b := Repeat(s, m - 1), Repeat(s, n);
      assert Repeat(s, m) == s + a;
      assert Repeat(s, m + n) == s + Repeat(s, m - 1 + n);
      assert (s + a) + b == s + (a + b);
    } else {
      assert Repeat(s, m) == [];
    }
  }

  /** Repeating a text brings in no character the text does not have. */
  lemma {:induction false} RepeatAvoids(s: string, n: int, c: char)
    requires c !in s
    ensures c !in Repeat(s, n)
    decreases if n <= 0 then 0 else n
  {
    if n > 0 {
      RepeatAvoids(s, n - 1, c);
      assert Repeat(s, n) == s + Repeat(s, n - 1);
    }
  }

  /**
   * With a fill character that is not a line feed, the line keeps its own
   * text after the prefix and gains a line feed only when it lacks one.
   */
  lemma IndentByShape(ch: string, count: int, newline: bool, line: string)
    requires '\n' !in ch
    ensures IndentBy(ch, count, newline, line)
            == Repeat(ch, count) + (if newline && !EndsWithFeed(line) then line + "\n" else line)
  {
    var p := Repeat(ch, count);
    RepeatAvoids(ch, count, '\n');
    if line == [] {
      assert p + line == p;
      assert !EndsWithFeed(p);
    } else {
      assert (p + line)[|p + line| - 1] == line[|line| - 1];
    }
    if newline && !EndsWithFeed(line) {
      assert (p + line) + "\n" == p + (line + "\n");
    }
  }

  /**
   * Indenting twice is indenting once by the sum of the levels; with line
   * feeds on, the second pass adds no second line feed.
   */
  lemma IndentedCompose(ch: string, width: nat, a: nat, b: nat, newline: bool, line: string)
    requires '\n' !in ch
    ensures Indented(ch, width, a, newline, Indented(ch, width, b, newline, line))
            == Indented(ch, width, a + b, newline, line)
  {
    assert width * (a + b) == width * a + width * b;
    IndentByCompose(ch, width * a, width * b, newline, line);
  }

  lemma IndentByCompose(ch: string, m: nat, n: nat, newline: bool, line: string)
    requires '\n' !in ch
    ensures IndentBy(ch, m, newline, IndentBy(ch, n, newline, line)) == IndentBy(ch, m + n, newline, line)
  {
    var tail := if newline && !EndsWithFeed(line) then line + "\n" else line;
    IndentByShape(ch, n, newline, line);
    IndentByShape(ch, m + n, newline, line);
    var inner := Repeat(ch, n) + tail;
    IndentByShape(ch, m, newline, inner);
    assert newline ==> EndsWithFeed(tail);
    assert newline ==> EndsWithFeed(inner);
    RepeatAdd(ch, m, n);
    assert Repeat(ch, m) + inner == Repeat(ch, m + n) + tail;
  }

  /** A Python list of lines, which the indenter rewrites or extends in place. */
  class LineList {
    var items: seq<string>

    constructor (items: seq<string>)
      ensures this.items == items
    {
      this.items := items;
    }
  }

  class Indenter {
    var indentation: nat
    var indentChar: string
    var level: int
    var addNewline: bool

    /** `Indenter(indentation, indent_char, add_newline)`: a negative indentation becomes 0; the level starts at 0. */
    constructor (indentation: int, indentChar: string, addNewline: bool)
      ensures this.indentation == if indentation < 0 then 0 else indentation
      ensures this.indentChar == indentChar && this.addNewline == addNewline && level == 0
    {
      this.indentation := if indentation < 0 then 0 else indentation;
      this.indentChar := indentChar;
      this.level := 0;
      this.addNewline := addNewline;
    }

    /** `reset()`: back to level 0. */
    method Reset()
      modifies this
      ensures level == 0
      ensures indentation == old(indentation) && indentChar == old(indentChar) && addNewline == old(addNewline)
    {
      level := 0;
    }

    /** `indent(add_indent)`: a negative count raises ValueError; otherwise the level goes up by the count. */
    method Indent(n: int) returns (r: Result<()>)
      modifies this
      ensures r.Err? <==> n < 0
      ensures level == if n < 0 then old(level) else old(level) + n
      ensures indentation == old(indentation) && indentChar == old(indentChar) && addNewline == old(addNewline)
    {
      if n < 0 {
        return Err(ValueError("`add_indent` cannot be smaller than 0"));
      }
      level := level + n;
      return Ok(());
    }

    /**
     * `unindent(remove_indent)`: a negative count raises ValueError; the
     * count is taken off only while the level is above 0, and all of it, so
     * the level can end below 0.
     */
    method Unindent(n: int) returns (r: Result<()>)
      modifies this
      ensures r.Err? <==> n < 0
      ensures level == if n >= 0 && old(level) > 0 then old(level) - n else old(level)
      ensures n > old(level) > 0 ==> level < 0
      ensures indentation == old(indentation) && indentChar == old(indentChar) && addNewline == old(addNewline)
    {
      if n < 0 {
        return Err(ValueError("`remove_indent` cannot be smaller than 0"));
      }
      if level > 0 {
        level := level - n;
      }
      return Ok(());
    }

    /** `apply_to_line(line)`. */
    function ApplyToLine(line: string): string
      reads this
    {
      Indented(indentChar, indentation, level, addNewline, line)
    }

    /** Every line, indented at the current level. */
    function Applied(lines: seq<string>): (r: seq<string>)
      reads this
      ensures |r| == |lines|
      ensures forall i :: 0 <= i < |lines| ==> r[i] == ApplyToLine(lines[i])
    {
      if lines == [] then [] else [ApplyToLine(lines[0])] + Applied(lines[1..])
    }

    /** `apply(lines)` on a list: each line is replaced by its indented form, in place; the same list is returned. */
    method ApplyList(lines: LineList) returns (r: LineList)
      modifies lines
      ensures r == lines && lines.items == Applied(old(lines.items))
    {
      var i := 0;
      while i < |lines.items|
        invariant 0 <= i <= |lines.items| == |old(lines.items)|
        invariant forall j :: 0 <= j < i ==> lines.items[j] == ApplyToLine(old(lines.items)[j])
        invariant forall j :: i <= j < |lines.items| ==> lines.items[j] == old(lines.items)[j]
      {
        lines.items := lines.items[i := ApplyToLine(lines.items[i])];
        i := i + 1;
      }
      return lines;
    }

    /** `apply(text)` on a string: its `splitlines()`, each indented, in a new list. */
    method ApplyText(text: string) returns (r: LineList)
      ensures fresh(r) && r.items == Applied(SplitLines(text))
    {
      r := new LineList(SplitLines(text));
      r := ApplyList(r);
    }

    /** `append_line(line, text)`: the indented line goes at the end of the caller's list, which is returned. */
    method AppendLine(line: string, text: LineList) returns (r: LineList)
      modifies text
      ensures r == text && text.items == old(text.items) + [ApplyToLine(line)]
    {
      text.items := text.items + [ApplyToLine(line)];
      return text;
    }

    /**
     * `append_lines(lines, text)`: `lines` is indented in place, then added
     * to the end of `text`; when both are the same list, it ends up holding
     * the indented lines twice.
     */
    method AppendLines(lines: LineList, text: LineList) returns (r: LineList)
      modifies lines, text
      ensures r == text
      ensures text != lines ==> lines.items == Applied(old(lines.items))
      ensures text != lines ==> text.items == old(text.items) + Applied(old(lines.items))
      ensures text == lines ==> text.items == Applied(old(lines.items)) + Applied(old(lines.items))
    {
      var applied := ApplyList(lines);
      text.items := text.items + applied.items;
      return text;
    }
  }
}
