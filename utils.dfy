/**
 * The inline and table formatters of `anyblock_exporter/utils.py`: applying text marks by
 * insert-and-shift, the pipe table, the display equation, and the filename sanitiser that is
 * in effect (the second definition of `sanitize_filename`, which shadows the first).
 */
module Utils {
  import opened PyText

  /** A mark's `type`: the five the formatter knows, or any other name, which it ignores.
      `Other` never holds one of the five known names; `KindOf` reads a name this way. */
  datatype MarkKind = Bold | Italic | Underscored | Strikethrough | Link | Other(name: string)

  /** The mark kind a `type` string names, compared as the formatter's `if`/`elif` chain does. */
  function KindOf(name: string): (k: MarkKind)
    ensures k.Other? <==> name !in ["Bold", "Italic", "Underscored", "Strikethrough", "Link"]
    ensures k.Other? ==> k.name == name
    ensures k == Bold <==> name == "Bold"
    ensures k == Link <==> name == "Link"
  {
    if name == "Bold" then Bold
    else if name == "Italic" then Italic
    else if name == "Underscored" then Underscored
    else if name == "Strikethrough" then Strikethrough
    else if name == "Link" then Link
    else Other(name)
  }

  /**
   * One mark of a block's text: its `type`, its `range` (`from`, `to`), and the link target
   * `param` (`''` when the mark has none).
   */
  datatype Mark = Mark(kind: MarkKind, from: int, to: int, param: string)

  // ----- stable sort by `range.from` (`sorted(marks, key=...)`) -----

  ghost predicate SortedByFrom(s: seq<Mark>)
  {
    forall i, j :: 0 <= i < j < |s| ==> s[i].from <= s[j].from
  }

  /** The marks of `s` whose range starts at `k`, in their order in `s`. */
  function StartingAt(s: seq<Mark>, k: int): seq<Mark>
  {
    if |s| == 0 then []
    else StartingAt(s[..|s| - 1], k) + (if s[|s| - 1].from == k then [s[|s| - 1]] else [])
  }

  /** Inserts `m` after every mark of the sorted `t` that starts no later than `m`. */
  function InsertByFrom(t: seq<Mark>, m: Mark): (r: seq<Mark>)
    ensures multiset(r) == multiset(t) + multiset{m}
    ensures |r| == |t| + 1
  {
    if |t| == 0 || t[|t| - 1].from <= m.from then t + [m]
    else
      assert t == t[..|t| - 1] + [t[|t| - 1]];
      InsertByFrom(t[..|t| - 1], m) + [t[|t| - 1]]
  }

  /** Python's `sorted(marks, key=lambda x: x['range']['from'])`, a stable insertion sort. */
  function SortByFrom(s: seq<Mark>): (r: seq<Mark>)
    ensures multiset(r) == multiset(s)
    ensures |r| == |s|
  {
    if |s| == 0 then []
    else
      assert s == s[..|s| - 1] + [s[|s| - 1]];
      InsertByFrom(SortByFrom(s[..|s| - 1]), s[|s| - 1])
  }

  /** Inserting a mark no later than `b` among marks no later than `b` keeps them all so. */
  lemma {:induction false} InsertBounded(t: seq<Mark>, m: Mark, b: int)
    requires forall i :: 0 <= i < |t| ==> t[i].from <= b
    requires m.from <= b
    ensures forall i :: 0 <= i < |InsertByFrom(t, m)| ==> InsertByFrom(t, m)[i].from <= b
  {
    if |t| > 0 && t[|t| - 1].from > m.from {
      InsertBounded(t[..|t| - 1], m, b);
    }
  }

  lemma {:induction false} InsertSorted(t: seq<Mark>, m: Mark)
    requires SortedByFrom(t)
    ensures SortedByFrom(InsertByFrom(t, m))
  {
    if |t| > 0 && t[|t| - 1].from > m.from {
      var init, last := t[..|t| - 1], t[|t| - 1];
      InsertSorted(init, m);
      InsertBounded(init, m, last.from);
      var u := InsertByFrom(init, m);
      assert InsertByFrom(t, m) == u + [last];
    }
  }

  /** The sort orders the marks by the start of their range. */
  lemma {:induction false} SortIsSorted(s: seq<Mark>)
    ensures SortedByFrom(SortByFrom(s))
  {
    if |s| > 0 {
      SortIsSorted(s[..|s| - 1]);
      InsertSorted(SortByFrom(s[..|s| - 1]), s[|s| - 1]);
    }
  }

  lemma {:induction false} StartingAtAppend(a: seq<Mark>, b: seq<Mark>, k: int)
    ensures StartingAt(a + b, k) == StartingAt(a, k) + StartingAt(b, k)
    decreases |b|
  {
    if |b| == 0 {
      assert a + b == a;
    } else {
      assert (a + b)[..|a + b| - 1] == a + b[..|b| - 1];
      StartingAtAppend(a, b[..|b| - 1], k);
    }
  }

  lemma StartingAtSnoc(s: seq<Mark>, x: Mark, k: int)
    ensures StartingAt(s + [x], k) == StartingAt(s, k) + (if x.from == k then [x] else [])
  {
    assert (s + [x])[..|s|] == s;
  }

  lemma {:induction false} InsertStable(t: seq<Mark>, m: Mark, k: int)
    requires SortedByFrom(t)
    ensures StartingAt(InsertByFrom(t, m), k) == StartingAt(t, k) + (if m.from == k then [m] else [])
  {
    if |t| == 0 || t[|t| - 1].from <= m.from {
      StartingAtSnoc(t, m, k);
    } else {
      var init, last := t[..|t| - 1], t[|t| - 1];
      assert t == init + [last];
      InsertStable(init, m, k);
      var u := InsertByFrom(init, m);
      assert InsertByFrom(t, m) == u + [last];
      StartingAtSnoc(u, last, k);
      StartingAtSnoc(init, last, k);
      var a, l := StartingAt(init, k), if last.from == k then [last] else [];
      if m.from == k {
        assert l == [];
        assert StartingAt(InsertByFrom(t, m), k) == a + [m] + l;
        assert StartingAt(t, k) == a;
      } else {
        assert StartingAt(InsertByFrom(t, m), k) == a + l;
      }
    }
  }

  /** The sort is stable: marks starting at the same offset keep their relative order. */
  lemma {:induction false} SortIsStable(s: seq<Mark>, k: int)
    ensures StartingAt(SortByFrom(s), k) == StartingAt(s, k)
  {
    if |s| > 0 {
      SortIsStable(s[..|s| - 1], k);
      SortIsSorted(s[..|s| - 1]);
      InsertStable(SortByFrom(s[..|s| - 1]), s[|s| - 1], k);
    }
  }

  // ----- `format_inline_text` -----

  predicate KnownMark(kind: MarkKind)
  {
    !kind.Other?
  }

  /** The Markdown placed before and after the marked span. */
  function Opening(m: Mark): string
  {
    match m.kind
    case Bold => "**"
    case Italic => "*"
    case Underscored => "_"
    case Strikethrough => "~~"
    case _ => "["
  }

  function Closing(m: Mark): string
  {
    match m.kind
    case Bold => "**"
    case Italic => "*"
    case Underscored => "_"
    case Strikethrough => "~~"
    case _ => "](" + m.param + ")"
  }

  /** How far the source shifts later marks after applying `m`. */
  function Shift(m: Mark): nat
  {
    match m.kind
    case Bold => 4
    case Italic => 2
    case Underscored => 2
    case Strikethrough => 4
    case Link => |m.param| + 4
    case Other(_) => 0
  }

  /** The source's shift constants are exactly the number of characters each known mark inserts. */
  lemma ShiftIsInsertedLength(m: Mark)
    requires KnownMark(m.kind)
    ensures Shift(m) == |Opening(m)| + |Closing(m)|
  {
  }

  /** One mark applied to the rewritten text, its range moved right by `offset`. */
  function ApplyMark(s: string, m: Mark, offset: int): string
  {
    if KnownMark(m.kind) then
      var start, end := m.from + offset, m.to + offset;
      SliceTo(s, start) + Opening(m) + Slice(s, start, end) + Closing(m) + SliceFrom(s, end)
    else s
  }

  /** The text and the running offset after the first `i` marks of `ms`, each applied with its
      range shifted by what the earlier ones inserted. */
  function ApplyPrefix(text: string, ms: seq<Mark>, i: nat): (string, int)
    requires i <= |ms|
  {
    if i == 0 then (text, 0)
    else
      var (s, offset) := ApplyPrefix(text, ms, i - 1);
      (ApplyMark(s, ms[i - 1], offset), offset + Shift(ms[i - 1]))
  }

  /** What `format_inline_text(text, marks)` returns. */
  function InlineFormat(text: string, marks: seq<Mark>): string
  {
    if |marks| == 0 then text else ApplyPrefix(text, SortByFrom(marks), |marks|).0
  }

  /** `format_inline_text`: marks applied in ascending `from` order against the rewritten text. */
  method FormatInlineText(text: string, marks: seq<Mark>) returns (formatted: string)
    ensures formatted == InlineFormat(text, marks)
  {
    if |marks| == 0 {
      return text;
    }
    var sorted := SortByFrom(marks);
    formatted := ApplyInOrder(text, sorted);
  }

  /** The loop of `format_inline_text` over the sorted marks, carrying the running offset. */
  method ApplyInOrder(text: string, sorted: seq<Mark>) returns (formatted: string)
    ensures formatted == ApplyPrefix(text, sorted, |sorted|).0
  {
    formatted := text;
    var offset := 0;
    var i := 0;
    while i < |sorted|
      invariant 0 <= i <= |sorted|
      invariant (formatted, offset) == ApplyPrefix(text, sorted, i)
    {
      formatted, offset := FormatOneMark(formatted, sorted[i], offset);
      i := i + 1;
    }
  }

  /** The text and shift of each mark kind. */
  lemma MarkText(m: Mark)
    ensures m.kind == Bold ==> Opening(m) == "**" && Closing(m) == "**" && Shift(m) == 4
    ensures m.kind == Italic ==> Opening(m) == "*" && Closing(m) == "*" && Shift(m) == 2
    ensures m.kind == Underscored ==> Opening(m) == "_" && Closing(m) == "_" && Shift(m) == 2
    ensures m.kind == Strikethrough ==> Opening(m) == "~~" && Closing(m) == "~~" && Shift(m) == 4
    ensures m.kind == Link ==> Opening(m) == "[" && Closing(m) == "](" + m.param + ")" && Shift(m) == |m.param| + 4
    ensures !KnownMark(m.kind) ==> Shift(m) == 0
  {
  }

  /** The body of the loop in `format_inline_text`: one mark inserted, the offset advanced. */
  method FormatOneMark(formatted: string, mark: Mark, offset: int) returns (next: string, nextOffset: int)
    ensures next == ApplyMark(formatted, mark, offset) && nextOffset == offset + Shift(mark)
  {
    var start := mark.from + offset;
    var end := mark.to + offset;
    var before, inner, after := SliceTo(formatted, start), Slice(formatted, start, end), SliceFrom(formatted, end);
    MarkText(mark);
    assert KnownMark(mark.kind) ==> ApplyMark(formatted, mark, offset) == before + Opening(mark) + inner + Closing(mark) + after;
    next, nextOffset := formatted, offset;
    if mark.kind == Bold {
      next := before + "**" + inner + "**" + after;
      nextOffset := offset + 4;
    } else if mark.kind == Italic {
      next := before + "*" + inner + "*" + after;
      nextOffset := offset + 2;
    } else if mark.kind == Underscored {
      next := before + "_" + inner + "_" + after;
      nextOffset := offset + 2;
    } else if mark.kind == Strikethrough {
      next := before + "~~" + inner + "~~" + after;
      nextOffset := offset + 4;
    } else if mark.kind == Link {
      var url := mark.param;
      next := before + "[" + inner + ("](" + url + ")") + after;
      nextOffset := offset + |url| + 4;
    }
  }

  /** Total shift of a list of marks. */
  function TotalShift(ms: seq<Mark>): nat
  {
    if |ms| == 0 then 0 else Shift(ms[0]) + TotalShift(ms[1..])
  }

  ghost predicate ForwardRanges(ms: seq<Mark>)
  {
    forall i :: 0 <= i < |ms| ==> 0 <= ms[i].from <= ms[i].to
  }

  /** A mark with a forward range inserts exactly its shift into the text. */
  lemma ApplyMarkLength(s: string, m: Mark, offset: int)
    requires 0 <= m.from <= m.to && offset >= 0
    ensures |ApplyMark(s, m, offset)| == |s| + Shift(m)
  {
  }

  /** The running offset after `i` marks is the total shift of those marks. */
  lemma {:induction false} OffsetIsTotalShift(text: string, ms: seq<Mark>, i: nat)
    requires i <= |ms|
    ensures ApplyPrefix(text, ms, i).1 == TotalShift(ms[..i])
  {
    if i > 0 {
      OffsetIsTotalShift(text, ms, i - 1);
      TotalShiftSnoc(ms, i - 1);
    }
  }

  lemma TotalShiftSnoc(ms: seq<Mark>, i: nat)
    requires i < |ms|
    ensures TotalShift(ms[..i + 1]) == TotalShift(ms[..i]) + Shift(ms[i])
  {
    assert ms[..i + 1] == ms[..i] + [ms[i]];
    TotalShiftAppend(ms[..i], [ms[i]]);
  }

  /** With forward ranges, each mark lengthens the text by its shift. */
  lemma {:induction false} ApplyPrefixLength(text: string, ms: seq<Mark>, i: nat)
    requires i <= |ms| && ForwardRanges(ms)
    ensures |ApplyPrefix(text, ms, i).0| == |text| + TotalShift(ms[..i])
  {
    if i > 0 {
      ApplyPrefixLength(text, ms, i - 1);
      OffsetIsTotalShift(text, ms, i - 1);
      var p := ApplyPrefix(text, ms, i - 1);
      ApplyMarkLength(p.0, ms[i - 1], p.1);
      TotalShiftSnoc(ms, i - 1);
    }
  }

  lemma {:induction false} TotalShiftAppend(a: seq<Mark>, b: seq<Mark>)
    ensures TotalShift(a + b) == TotalShift(a) + TotalShift(b)
  {
    if |a| > 0 {
      assert (a + b)[0] == a[0];
      assert (a + b)[1..] == a[1..] + b;
      TotalShiftAppend(a[1..], b);
    } else {
      assert a + b == b;
    }
  }

  lemma {:induction false} TotalShiftInsert(t: seq<Mark>, m: Mark)
    ensures TotalShift(InsertByFrom(t, m)) == TotalShift(t) + Shift(m)
  {
    if |t| == 0 || t[|t| - 1].from <= m.from {
      TotalShiftAppend(t, [m]);
    } else {
      var init := t[..|t| - 1];
      TotalShiftInsert(init, m);
      TotalShiftAppend(InsertByFrom(init, m), [t[|t| - 1]]);
      assert t == init + [t[|t| - 1]];
      TotalShiftAppend(init, [t[|t| - 1]]);
    }
  }

  lemma {:induction false} TotalShiftSort(s: seq<Mark>)
    ensures TotalShift(SortByFrom(s)) == TotalShift(s)
  {
    if |s| > 0 {
      var init := s[..|s| - 1];
      TotalShiftSort(init);
      TotalShiftInsert(SortByFrom(init), s[|s| - 1]);
      assert s == init + [s[|s| - 1]];
      TotalShiftAppend(init, [s[|s| - 1]]);
    }
  }

  lemma SortKeepsForward(s: seq<Mark>)
    requires ForwardRanges(s)
    ensures ForwardRanges(SortByFrom(s))
  {
    var r := SortByFrom(s);
    forall i | 0 <= i < |r| ensures 0 <= r[i].from <= r[i].to {
      assert r[i] in multiset(r);
      assert r[i] in multiset(s);
    }
  }

  /**
   * With forward ranges, formatting lengthens the text by exactly the sum of the marks' shifts
   * (4 for Bold, 2 for Italic and Underscored, 4 for Strikethrough, `len(url)+4` for Link, 0 otherwise).
   */
  lemma FormatLength(text: string, marks: seq<Mark>)
    requires ForwardRanges(marks)
    ensures |InlineFormat(text, marks)| == |text| + TotalShift(marks)
  {
    if |marks| > 0 {
      SortKeepsForward(marks);
      ApplyPrefixLength(text, SortByFrom(marks), |marks|);
      assert SortByFrom(marks)[..|marks|] == SortByFrom(marks);
      assert SortByFrom(marks)[0..] == SortByFrom(marks);
      TotalShiftSort(marks);
    }
  }

  /** A single known mark inside the text wraps exactly its span in the mark's delimiters. */
  lemma SingleMark(text: string, m: Mark)
    requires KnownMark(m.kind) && 0 <= m.from <= m.to <= |text|
    ensures InlineFormat(text, [m]) ==
      text[..m.from] + Opening(m) + text[m.from..m.to] + Closing(m) + text[m.to..]
  {
    assert SortByFrom([m]) == InsertByFrom(SortByFrom([]), m);
    assert SortByFrom([m]) == [m];
    assert ApplyPrefix(text, [m], 1).0 == ApplyMark(text, m, 0);
    assert SliceTo(text, m.from) == text[..m.from];
    assert Slice(text, m.from, m.to) == text[m.from..m.to];
    assert SliceFrom(text, m.to) == text[m.to..];
  }

  /** A single Bold mark over the first five characters of `hello world`. */
  lemma BoldHello()
    ensures InlineFormat("hello world", [Mark(Bold, 0, 5, "")]) == "**hello** world"
  {
    var m := Mark(Bold, 0, 5, "");
    SingleMark("hello world", m);
    MarkText(m);
    assert "hello world"[..0] == "";
    assert "hello world"[0..5] == "hello";
    assert "hello world"[5..] == " world";
    BoldHelloText();
  }

  lemma BoldHelloText()
    ensures "" + "**" + "hello" + "**" + " world" == "**hello** world"
  {
  }

  /** Marks of an unknown type leave the text and the running offset unchanged. */
  lemma UnknownMarkIgnored(text: string, ms: seq<Mark>, i: nat)
    requires i < |ms| && !KnownMark(ms[i].kind)
    ensures ApplyPrefix(text, ms, i + 1) == ApplyPrefix(text, ms, i)
  {
  }

  // ----- `convert_table_to_markdown` -----

  /** `"|" + "|".join(cells) + "|"`. */
  function PipeRow(cells: seq<string>): string
  {
    "|" + Join("|", cells) + "|"
  }

  function Dashes(n: nat): (r: seq<string>)
    ensures |r| == n && forall k :: 0 <= k < n ==> r[k] == "---"
  {
    if n == 0 then [] else Dashes(n - 1) + ["---"]
  }

  function RowLines(rows: seq<seq<string>>): (r: seq<string>)
    ensures |r| == |rows| && forall k :: 0 <= k < |rows| ==> r[k] == PipeRow(rows[k])
  {
    if |rows| == 0 then [] else RowLines(rows[..|rows| - 1]) + [PipeRow(rows[|rows| - 1])]
  }

  /** The lines of the table: the column names, the separator, then one line per row. */
  function TableLines(columns: seq<string>, rows: seq<seq<string>>): seq<string>
  {
    [PipeRow(columns), PipeRow(Dashes(|columns|))] + RowLines(rows)
  }

  /** `convert_table_to_markdown`, with each column's `name` and each cell's `content` given. */
  method ConvertTableToMarkdown(columns: seq<string>, rows: seq<seq<string>>) returns (table: string)
    ensures table == ConcatLines(TableLines(columns, rows))
  {
    var header := "|" + Join("|", columns) + "|\n";
    var separator := "|" + Join("|", Dashes(|columns|)) + "|\n";
    table := header + separator;
    TableHead(columns);
    var i := 0;
    while i < |rows|
      invariant 0 <= i <= |rows|
      invariant table == ConcatLines(TableLines(columns, rows[..i]))
    {
      var rowData := "|" + Join("|", rows[i]) + "|\n";
      TableLinesStep(columns, rows, i);
      table := table + rowData;
      i := i + 1;
    }
    assert rows[..|rows|] == rows;
  }

  /** The line of a pipe row, newline included. */
  lemma PipeLine(cells: seq<string>)
    ensures "|" + Join("|", cells) + "|\n" == PipeRow(cells) + "\n"
  {
  }

  /** The header and separator lines on their own. */
  lemma TableHead(columns: seq<string>)
    ensures "|" + Join("|", columns) + "|\n" + ("|" + Join("|", Dashes(|columns|)) + "|\n") ==
      ConcatLines(TableLines(columns, []))
  {
    var a, b := PipeRow(columns), PipeRow(Dashes(|columns|));
    assert TableLines(columns, []) == [a, b];
    ConcatTwo(a, b);
    PipeLine(columns);
    PipeLine(Dashes(|columns|));
  }

  lemma ConcatTwo(a: string, b: string)
    ensures ConcatLines([a, b]) == a + "\n" + (b + "\n")
  {
    assert [a, b][1..] == [b];
    assert [b][1..] == [];
    assert ConcatLines([b]) == b + "\n" + "";
    assert b + "\n" + "" == b + "\n";
  }

  /** One more row adds its line to the table. */
  lemma TableLinesStep(columns: seq<string>, rows: seq<seq<string>>, i: nat)
    requires i < |rows|
    ensures ConcatLines(TableLines(columns, rows[..i + 1])) ==
      ConcatLines(TableLines(columns, rows[..i])) + ("|" + Join("|", rows[i]) + "|\n")
  {
    var head := [PipeRow(columns), PipeRow(Dashes(|columns|))];
    assert rows[..i + 1][..i] == rows[..i];
    assert RowLines(rows[..i + 1]) == RowLines(rows[..i]) + [PipeRow(rows[i])];
    assert TableLines(columns, rows[..i + 1]) == TableLines(columns, rows[..i]) + [PipeRow(rows[i])];
    ConcatLinesSnoc(TableLines(columns, rows[..i]), PipeRow(rows[i]));
    PipeLine(rows[i]);
  }

  lemma {:induction false} ConcatLinesSnoc(lines: seq<string>, last: string)
    ensures ConcatLines(lines + [last]) == ConcatLines(lines) + last + "\n"
  {
    if |lines| > 0 {
      assert (lines + [last])[1..] == lines[1..] + [last];
      ConcatLinesSnoc(lines[1..], last);
    }
  }

  lemma {:induction false} JoinNoNewline(sep: string, parts: seq<string>)
    requires '\n' !in sep && NoNewlines(parts)
    ensures '\n' !in Join(sep, parts)
  {
    if |parts| > 1 {
      JoinNoNewline(sep, parts[1..]);
    }
  }

  /**
   * When no column name and no cell holds a newline, the table is exactly `2 + len(rows)`
   * newline-terminated lines: the header, one `---` per column, then each row in order.
   */
  lemma TableShape(columns: seq<string>, rows: seq<seq<string>>)
    requires NoNewlines(columns)
    requires forall r :: 0 <= r < |rows| ==> NoNewlines(rows[r])
    ensures var lines := TableLines(columns, rows);
      |lines| == 2 + |rows|
      && Split(ConcatLines(lines), '\n') == lines + [""]
      && lines[0] == "|" + Join("|", columns) + "|"
      && lines[1] == "|" + Join("|", Dashes(|columns|)) + "|"
      && forall r :: 0 <= r < |rows| ==> lines[2 + r] == "|" + Join("|", rows[r]) + "|"
  {
    var lines := TableLines(columns, rows);
    JoinNoNewline("|", columns);
    JoinNoNewline("|", Dashes(|columns|));
    forall k | 0 <= k < |lines| ensures '\n' !in lines[k] {
      if k >= 2 { JoinNoNewline("|", rows[k - 2]); }
    }
    SplitConcatLines(lines);
  }

  // ----- `format_latex_equation` -----

  function FormatLatexEquation(equation: string): (r: string)
    ensures |r| == |equation| + 4
    ensures StartsWith(r, "$$") && EndsWith(r, "$$") && r[2..|r| - 2] == equation
  {
    "$$" + equation + "$$"
  }

  // ----- `sanitize_filename` (the definition in effect) -----

  /** The characters `[\w\-_\. ]` keeps; `isWord` stands for Python's Unicode `\w` class. */
  predicate KeptInFilename(isWord: char -> bool, c: char)
  {
    isWord(c) || c == '-' || c == '_' || c == '.' || c == ' '
  }

  /** What every character class standing for `\w` has: the ASCII letters and digits. */
  ghost predicate AsciiWord(isWord: char -> bool)
  {
    forall c :: ('a' <= c <= 'z' || 'A' <= c <= 'Z' || '0' <= c <= '9') ==> isWord(c)
  }

  /** `re.sub(r'[^\w\-_\. ]', '_', name)`. */
  function SanitizeFilename(isWord: char -> bool, name: string): (r: string)
    ensures |r| == |name|
    ensures forall k :: 0 <= k < |name| ==>
      r[k] == (if KeptInFilename(isWord, name[k]) then name[k] else '_')
  {
    if |name| == 0 then ""
    else [if KeptInFilename(isWord, name[0]) then name[0] else '_'] + SanitizeFilename(isWord, name[1..])
  }

  /** A name made only of kept characters is left as it is. */
  lemma SanitizeKept(isWord: char -> bool, name: string)
    requires forall k :: 0 <= k < |name| ==> KeptInFilename(isWord, name[k])
    ensures SanitizeFilename(isWord, name) == name
  {
  }

  /** The sanitised name holds only kept characters, and sanitising it again changes nothing. */
  lemma SanitizeIdempotent(isWord: char -> bool, name: string)
    ensures forall k :: 0 <= k < |name| ==> KeptInFilename(isWord, SanitizeFilename(isWord, name)[k])
    ensures SanitizeFilename(isWord, SanitizeFilename(isWord, name)) == SanitizeFilename(isWord, name)
  {
  }
}
