/** Worked examples of the block-tree renderer on small documents. */
module BlockExamples {
  import opened Wrappers
  import opened PyText
  import opened Utils
  import opened BlockConverter

  /** A block with plain text in the given style and no marks. */
  function TextBlock(id: string, style: string, text: string, children: seq<string>): Block
  {
    Block(Some(id), children, None, Some(TextContent(Some(style), text, false, [])), "", None, [], [])
  }

  /** A block with no text, like a document root. */
  function Container(id: string, children: seq<string>): Block
  {
    Block(Some(id), children, None, None, "", None, [], [])
  }

  /** A childless Numbered block renders as its numbered line and marks its id processed. */
  lemma NumberedLeaf(b: Block, all: map<string, Block>, ctx: Ctx, st: State)
    requires !IsOrganizational(b) && BlockType(b) == "Numbered" && IsFresh(Some(b), st.processed)
    requires b.childrenIds == []
    ensures Render(Some(b), all, ctx, st) ==
      Outcome(NumberPrefix(ctx) + Content(b) + "\n", State(st.processed + {b.id.value}, st.files), false)
  {
    var st1 := State(st.processed + {b.id.value}, st.files);
    assert RenderChildren([], 0, NumberedList(ctx.parentIndent, ctx.listLevel + 1), all, st1) == Outcome("", st1, false);
  }

  /** A childless top-level Paragraph renders as its text and a blank line, or as nothing when
      the formatted text is empty. */
  lemma ParagraphLeaf(b: Block, all: map<string, Block>, ctx: Ctx, st: State)
    requires !IsOrganizational(b) && BlockType(b) == "Paragraph" && IsFresh(Some(b), st.processed)
    requires b.childrenIds == [] && ctx.isTopLevel
    ensures Render(Some(b), all, ctx, st) ==
      Outcome(if Content(b) != "" then Content(b) + "\n\n" else "", State(st.processed + {b.id.value}, st.files), false)
  {
    var st1 := State(st.processed + {b.id.value}, st.files);
    assert !HasPendingChild(b, st1.processed);
    assert "Paragraph"[..6][0] != "Header"[0];
    assert ContentFiles(b, st.files) == st.files;
  }

  /** The index of the example document. */
  lemma ExampleIndex(blocks: seq<Block>, a: Block, b: Block, c: Block)
    requires blocks == [Container("root", ["a", "b", "c"]), a, b, c]
    requires a.id == Some("a") && b.id == Some("b") && c.id == Some("c")
    ensures var all := IndexBlocks(blocks);
      "a" in all && all["a"] == a && "b" in all && all["b"] == b && "c" in all && all["c"] == c
  {
    IndexBlocksKeepsLast(blocks, 1);
    IndexBlocksKeepsLast(blocks, 2);
    IndexBlocksKeepsLast(blocks, 3);
  }

  /** The example's requirements on the index: the three children and their styles. */
  ghost predicate ExampleBlocks(all: map<string, Block>)
  {
    "a" in all && all["a"] == TextBlock("a", "Numbered", "x", []) &&
    "b" in all && all["b"] == TextBlock("b", "Paragraph", "y", []) &&
    "c" in all && all["c"] == TextBlock("c", "Numbered", "z", [])
  }

  /** The last two children of the example, reached with the counter at 2. */
  lemma ExampleTail(all: map<string, Block>)
    requires ExampleBlocks(all)
    ensures RenderTop(["a", "b", "c"], 1, all, 2, State({"a"}, map[])) ==
      Outcome("y\n\n" + "2. z\n", State({"a", "b", "c"}, map[]), false)
  {
    var b, c := all["b"], all["c"];
    var ids := ["a", "b", "c"];
    var s1, s2, s3 := State({"a"}, map[]), State({"a", "b"}, map[]), State({"a", "b", "c"}, map[]);
    assert Content(b) == "y" && Content(c) == "z";
    assert RenderTop(ids, 3, all, 3, s3) == Outcome("", s3, false);
    assert RenderTop(ids, 2, all, 2, s2) == Outcome("2. z\n", s3, false) by {
      NumberedLeaf(c, all, Ctx("", true, 0, 2), s2);
      assert s2.processed + {"c"} == s3.processed;
      assert NumberPrefix(Ctx("", true, 0, 2)) == "2. ";
      RenderTopStep(ids, 2, all, 2, s2);
    }
    ParagraphLeaf(b, all, Ctx("", true, 0, 2), s1);
    assert s1.processed + {"b"} == s2.processed && BlockType(b) != "Numbered";
    RenderTopStep(ids, 1, all, 2, s1);
  }

  /** The root's children of the example rendered from the top: the counter reaches the second
      Numbered block as 2 although a paragraph stands between them. */
  lemma ExampleTop(all: map<string, Block>)
    requires ExampleBlocks(all)
    ensures RenderTop(["a", "b", "c"], 0, all, 1, State({}, map[])) ==
      Outcome("1. x\n" + "y\n\n" + "2. z\n", State({"a", "b", "c"}, map[]), false)
  {
    var a := all["a"];
    var ids := ["a", "b", "c"];
    var s0, s1 := State({}, map[]), State({"a"}, map[]);
    assert Content(a) == "x";
    ExampleTail(all);
    NumberedLeaf(a, all, Ctx("", true, 0, 1), s0);
    assert s0.processed + {"a"} == s1.processed;
    assert NumberPrefix(Ctx("", true, 0, 1)) == "1. ";
    RenderTopStep(ids, 0, all, 1, s0);
  }

  /** Top-level numbering continues across an interleaved paragraph: 1, then 2. */
  lemma NumberingContinuity()
    ensures BlocksMarkdown([Container("root", ["a", "b", "c"]), TextBlock("a", "Numbered", "x", []),
                            TextBlock("b", "Paragraph", "y", []), TextBlock("c", "Numbered", "z", [])], map[]).md
      == "1. x\n" + "y\n\n" + "2. z\n"
  {
    var blocks := [Container("root", ["a", "b", "c"]), TextBlock("a", "Numbered", "x", []),
                   TextBlock("b", "Paragraph", "y", []), TextBlock("c", "Numbered", "z", [])];
    ExampleIndex(blocks, blocks[1], blocks[2], blocks[3]);
    ExampleTop(IndexBlocks(blocks));
  }

  /** The child list of the nested example: two Numbered leaves one level deep, numbered 1 and 2. */
  lemma NestedChildren(all: map<string, Block>)
    requires "q" in all && all["q"] == TextBlock("q", "Numbered", "q", [])
    requires "r" in all && all["r"] == TextBlock("r", "Numbered", "r", [])
    ensures RenderChildren(["q", "r"], 0, NumberedList("", 1), all, State({"p"}, map[])) ==
      Outcome("  1. q\n" + "  2. r\n", State({"p", "q", "r"}, map[]), false)
  {
    var q, r := all["q"], all["r"];
    var ids := ["q", "r"];
    var mode := NumberedList("", 1);
    var s1, s2, s3 := State({"p"}, map[]), State({"p", "q"}, map[]), State({"p", "q", "r"}, map[]);
    assert Content(q) == "q" && Content(r) == "r";
    assert RenderChildren(ids, 2, mode, all, s3) == Outcome("", s3, false);
    assert RenderChildren(ids, 1, mode, all, s2) == Outcome("  2. r\n", s3, false) by {
      NumberedLeaf(r, all, Ctx("", false, 1, 2), s2);
      assert s2.processed + {"r"} == s3.processed;
      assert NumberPrefix(Ctx("", false, 1, 2)) == "  2. ";
      RenderChildrenStep(ids, 1, mode, all, s2);
    }
    NumberedLeaf(q, all, Ctx("", false, 1, 1), s1);
    assert s1.processed + {"q"} == s2.processed;
    assert NumberPrefix(Ctx("", false, 1, 1)) == "  1. ";
    RenderChildrenStep(ids, 0, mode, all, s1);
  }

  /** A Numbered block whose two children are Numbered blocks: the children form a list one
      level deeper, numbered from 1 by position. */
  lemma NestedNumbering(all: map<string, Block>)
    requires "p" in all && all["p"] == TextBlock("p", "Numbered", "p", ["q", "r"])
    requires "q" in all && all["q"] == TextBlock("q", "Numbered", "q", [])
    requires "r" in all && all["r"] == TextBlock("r", "Numbered", "r", [])
    ensures Render(Some(all["p"]), all, Ctx("", true, 0, 1), State({}, map[])) ==
      Outcome("1. p\n" + "  1. q\n" + "  2. r\n", State({"p", "q", "r"}, map[]), false)
  {
    var p := all["p"];
    assert Content(p) == "p";
    NestedChildren(all);
    NumberedBlock(p, all, Ctx("", true, 0, 1), State({}, map[]), 0);
    assert {} + {"p"} == {"p"};
    assert NumberPrefix(Ctx("", true, 0, 1)) == "1. ";
  }
}
