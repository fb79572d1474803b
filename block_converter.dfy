/**
 * The block-tree renderer: a document's blocks, indexed by id, rendered to Markdown by a
 * recursive walk that marks every rendered id in a shared set, so that each block is rendered
 * at most once even when child lists repeat ids or form cycles.
 *
 * The recursive functions `Render`, `RenderBody` and `RenderChildren` are the specification;
 * the methods `ConvertBlockToMarkdown`, `ConvertChildren` and `ProcessBlocks` mutate the set of
 * processed ids and the attachment registry in place and are proved to agree with them.
 */
module BlockConverter {
  import opened Wrappers
  import opened PyText
  import opened Utils
  import opened FileHandling

  /** A block's `text` record, its absent fields replaced by their defaults
      (`checked` false, no marks). */
  datatype TextContent = TextContent(style: Option<string>, text: string, checked: bool, marks: seq<Mark>)

  /** One block of a snapshot. `lang` is `fields.lang` (default ""), `columns` are the column
      names and `rows` the cell contents of a table block (each absent name or content read as "").
      `file` is `None` both when the key is missing and when its record is empty, since Python
      treats `{}` as false; `FileInfo(None, None)` stands for a non-empty record holding neither
      `name` nor `hash`. No field holds a present JSON `null`; an `Option` field that is `None`,
      or a defaulted one, stands for a missing key. */
  datatype Block = Block(
    id: Option<string>,
    childrenIds: seq<string>,
    layoutStyle: Option<string>,
    text: Option<TextContent>,
    lang: string,
    file: Option<FileInfo>,
    columns: seq<string>,
    rows: seq<seq<string>>)

  /** The text of the block, "" when it has none. */
  function TextOf(b: Block): string
  {
    if b.text.Some? then b.text.value.text else ""
  }

  /** The style of the block's text, `Paragraph` when it has none. */
  function BlockType(b: Block): string
  {
    if b.text.Some? && b.text.value.style.Some? then b.text.value.style.value else "Paragraph"
  }

  function Marks(b: Block): seq<Mark>
  {
    if b.text.Some? then b.text.value.marks else []
  }

  predicate Checked(b: Block)
  {
    b.text.Some? && b.text.value.checked
  }

  /** `is_organizational_block`: a `Div` layout, or no text at all. */
  predicate IsOrganizational(b: Block)
  {
    b.layoutStyle == Some("Div") || TextOf(b) == ""
  }

  /** The inline-formatted text of the block. */
  function Content(b: Block): string
  {
    if TextOf(b) != "" then InlineFormat(TextOf(b), Marks(b)) else ""
  }

  /** What the shared mutable state holds: the ids rendered so far and the pending attachment copies. */
  datatype State = State(processed: set<string>, files: map<string, FileInfo>)

  /** The result of a render: Markdown, the new state and whether an exception was raised.
      A raised exception aborts the whole document; the state changes made up to it persist. */
  datatype Outcome = Outcome(md: string, st: State, failed: bool)

  /** The rendering parameters `parent_indent`, `is_top_level`, `list_level` and `list_number`. */
  datatype Ctx = Ctx(parentIndent: string, isTopLevel: bool, listLevel: int, listNumber: int)

  /** `current_indent`: one more `>` than the parent, or none at the top level. */
  function CurrentIndent(ctx: Ctx): string
  {
    if ctx.isTopLevel then "" else ctx.parentIndent + ">"
  }

  /** The three child loops of the renderer: an organisational block passes its own context
      through, a Numbered block numbers its children from 1 one level deeper, and any other
      block renders its remaining children one quote level deeper, skipping itself. */
  datatype ChildMode = Pass(ctx: Ctx) | NumberedList(indent: string, level: int) | Nested(indent: string, self: string)

  /** The context the child at position `i` of the child list is rendered with. */
  function ChildCtx(mode: ChildMode, i: nat): Ctx
  {
    match mode
    case Pass(ctx) => ctx
    case NumberedList(indent, level) => Ctx(indent, false, level, i + 1)
    case Nested(indent, _) => Ctx(indent, false, 0, 1)
  }

  /** Whether the loop in `mode` renders the child id `id` in state `st`: it must be a known block,
      and the organisational and nested loops also skip processed ids (and the nested one the block itself). */
  predicate Visits(mode: ChildMode, id: string, all: map<string, Block>, processed: set<string>)
  {
    id in all && (mode.NumberedList? || (id !in processed && (!mode.Nested? || id != mode.self)))
  }

  /** `has_unique_children`: some child id is unprocessed and differs from the block's own id. */
  predicate HasPendingChild(b: Block, processed: set<string>)
  {
    exists i :: 0 <= i < |b.childrenIds| && b.childrenIds[i] !in processed && Some(b.childrenIds[i]) != b.id
  }

  /** The ids carried by the blocks of `all`. */
  function IdsOf(all: map<string, Block>): set<string>
  {
    set k | k in all && all[k].id.Some? :: all[k].id.value
  }

  /** The block's own id as a set (empty when it has none). */
  function OwnIds(b: Option<Block>): set<string>
  {
    if b.Some? && b.value.id.Some? then {b.value.id.value} else {}
  }

  /** Rendering `b` would do work: it has an id that is not processed yet. */
  predicate IsFresh(b: Option<Block>, processed: set<string>)
  {
    b.Some? && b.value.id.Some? && b.value.id.value !in processed
  }

  /** The termination measure: how many ids of `all` are still unprocessed. */
  function Budget(all: map<string, Block>, processed: set<string>): nat
  {
    |IdsOf(all) - processed|
  }

  lemma BudgetShrinks(all: map<string, Block>, p: set<string>, q: set<string>)
    requires p <= q
    ensures Budget(all, q) <= Budget(all, p)
  {
    assert IdsOf(all) - q <= IdsOf(all) - p;
    SubsetCard(IdsOf(all) - q, IdsOf(all) - p);
  }

  lemma {:induction false} SubsetCard<T>(a: set<T>, b: set<T>)
    requires a <= b
    ensures |a| <= |b|
    decreases |b|
  {
    if a != {} {
      var x :| x in a;
      SubsetCard(a - {x}, b - {x});
    }
  }

  /** Rendering the block stored under `key` marks a new id of `all`, so the measure drops. */
  lemma BudgetStep(all: map<string, Block>, processed: set<string>, key: string)
    requires key in all
    ensures IsFresh(Some(all[key]), processed) ==>
      Budget(all, processed + OwnIds(Some(all[key]))) < Budget(all, processed)
    ensures !IsFresh(Some(all[key]), processed) ==> processed + OwnIds(Some(all[key])) == processed
  {
    if IsFresh(Some(all[key]), processed) {
      var x := all[key].id.value;
      assert x in IdsOf(all);
      assert IdsOf(all) - (processed + {x}) == (IdsOf(all) - processed) - {x};
    }
  }

  /** Python's `'  ' * list_level + str(list_number) + '. '`. */
  function NumberPrefix(ctx: Ctx): string
  {
    Repeat("  ", ctx.listLevel) + IntToString(ctx.listNumber) + ". "
  }

  /** The lines of `lines` that are not blank, each prefixed with `indent`. */
  function IndentedLines(indent: string, lines: seq<string>): (r: seq<string>)
    ensures |r| <= |lines|
    ensures forall k :: 0 <= k < |r| ==> StartsWith(r[k], indent) && !IsBlank(r[k][|indent|..])
  {
    if |lines| == 0 then []
    else
      var rest := IndentedLines(indent, lines[1..]);
      if IsBlank(lines[0]) then rest
      else
        assert (indent + lines[0])[|indent|..] == lines[0];
        [indent + lines[0]] + rest
  }

  /** `apply_indent`: the identity for an empty indent; otherwise the non-blank lines of the text,
      each prefixed with the indent, joined by newlines. */
  function ApplyIndent(indent: string, text: string): string
  {
    if indent == "" then text else Join("\n", IndentedLines(indent, Split(text, '\n')))
  }

  /** The number a `HeaderN` style asks for: its last character read as a decimal digit.
      Anything else makes `int()` raise. */
  function HeaderLevel(style: string): (r: Option<nat>)
    requires |style| > 0
    ensures r.Some? <==> '0' <= style[|style| - 1] <= '9'
    ensures r.Some? ==> r.value < 10 && DigitChar(r.value) == style[|style| - 1]
  {
    var c := style[|style| - 1];
    if '0' <= c <= '9' then Some((c - '0') as nat) else None
  }

  /** The attachment branch is the one taken for this block's own content. */
  predicate TakesFileBranch(b: Block)
  {
    var style := BlockType(b);
    !StartsWith(style, "Header") && style != "Paragraph" && style != "Toggle" && style != "Marked"
    && style != "Code" && style != "Checkbox" && style != "Equation" && b.file.Some?
  }

  /** The Markdown of a non-Numbered, non-organisational block's own content, given its formatted
      text and its indent; `None` when a header style has no digit at its end. */
  function ContentMarkdown(b: Block, content: string, indent: string): Option<string>
  {
    var style := BlockType(b);
    if StartsWith(style, "Header") then
      var level := HeaderLevel(style);
      if level.None? then None else Some(indent + Repeat("#", level.value) + " " + content + "\n\n")
    else if style == "Paragraph" || style == "Toggle" then
      Some(if content != "" then ApplyIndent(indent, content) + "\n\n" else "")
    else if style == "Marked" then
      Some(ApplyIndent(indent, "- " + content) + "\n")
    else if style == "Code" then
      Some(ApplyIndent(indent, "```" + b.lang + "\n" + content + "\n```") + "\n")
    else if style == "Checkbox" then
      Some(ApplyIndent(indent, (if Checked(b) then "\U{2612}" else "\U{2610}") + " " + content) + "\n")
    else if style == "Equation" then
      Some(ApplyIndent(indent, FormatLatexEquation(content)) + "\n\n")
    else if b.file.Some? then
      Some(ApplyIndent(indent, AttachmentLink(b.file.value)) + "\n\n")
    else if style == "Table" then
      Some(ApplyIndent(indent, ConcatLines(TableLines(b.columns, b.rows))) + "\n")
    else
      Some(ApplyIndent(indent, content) + "\n\n")
  }

  /** The attachment registry after rendering the block's own content. */
  function ContentFiles(b: Block, files: map<string, FileInfo>): map<string, FileInfo>
  {
    if TakesFileBranch(b) then Register(files, b.file.value) else files
  }

  /** `prefix` put in front of a successful outcome; a failure stays a failure. */
  function Then(prefix: string, o: Outcome): Outcome
  {
    if o.failed then o else Outcome(prefix + o.md, o.st, false)
  }

  /** `convert_block_to_markdown`. */
  function Render(b: Option<Block>, all: map<string, Block>, ctx: Ctx, st: State): (o: Outcome)
    ensures st.processed <= o.st.processed
    ensures o.failed ==> o.md == ""
    ensures !IsFresh(b, st.processed) ==> o == Outcome("", st, false)
    ensures IsFresh(b, st.processed) ==> b.value.id.value in o.st.processed
    decreases Budget(all, st.processed + OwnIds(b)), if IsFresh(b, st.processed) then 1 else 0, 0, 0, 0
  {
    if b.None? || b.value.id.None? then Outcome("", st, false)
    else if b.value.id.value in st.processed then Outcome("", st, false)
    else RenderBody(b.value, all, ctx, State(st.processed + {b.value.id.value}, st.files))
  }

  /** A block whose id has just been marked processed: its content, then its children. */
  function RenderBody(b: Block, all: map<string, Block>, ctx: Ctx, st: State): (o: Outcome)
    requires b.id.Some? && b.id.value in st.processed
    ensures st.processed <= o.st.processed
    ensures o.failed ==> o.md == ""
    decreases Budget(all, st.processed), 0, 1, 0, 0
  {
    if IsOrganizational(b) then
      RenderChildren(b.childrenIds, 0, Pass(ctx), all, st)
    else if BlockType(b) == "Numbered" then
      Then(NumberPrefix(ctx) + Content(b) + "\n",
           RenderChildren(b.childrenIds, 0, NumberedList(ctx.parentIndent, ctx.listLevel + 1), all, st))
    else
      var own := ContentMarkdown(b, Content(b), CurrentIndent(ctx));
      var st1 := State(st.processed, ContentFiles(b, st.files));
      if own.None? then Outcome("", st1, true)
      else if HasPendingChild(b, st.processed) then
        Then(own.value, RenderChildren(b.childrenIds, 0, Nested(CurrentIndent(ctx), b.id.value), all, st1))
      else Outcome(own.value, st1, false)
  }

  /** The children `ids[i..]` rendered in order, each in the state the previous one left. */
  function RenderChildren(ids: seq<string>, i: nat, mode: ChildMode, all: map<string, Block>, st: State): (o: Outcome)
    requires i <= |ids|
    ensures st.processed <= o.st.processed
    ensures o.failed ==> o.md == ""
    decreases Budget(all, st.processed), 0, 0, |ids| - i, 0
  {
    if i == |ids| then Outcome("", st, false)
    else
      var first := VisitChild(ids, i, mode, all, st);
      if first.failed then first
      else
        BudgetShrinks(all, st.processed, first.st.processed);
        Then(first.md, RenderChildren(ids, i + 1, mode, all, first.st))
  }

  /** The child at position `i`, rendered if the loop visits it. */
  function VisitChild(ids: seq<string>, i: nat, mode: ChildMode, all: map<string, Block>, st: State): (o: Outcome)
    requires i < |ids|
    ensures st.processed <= o.st.processed
    ensures o.failed ==> o.md == ""
    decreases Budget(all, st.processed), 0, 0, 0, 1
  {
    if Visits(mode, ids[i], all, st.processed) then
      BudgetStep(all, st.processed, ids[i]);
      Render(Some(all[ids[i]]), all, ChildCtx(mode, i), st)
    else Outcome("", st, false)
  }

  /** One step of `RenderChildren`: the child at `i`, then the rest in the state it leaves. */
  lemma RenderChildrenStep(ids: seq<string>, i: nat, mode: ChildMode, all: map<string, Block>, st: State)
    requires i < |ids|
    ensures var first := VisitChild(ids, i, mode, all, st);
      RenderChildren(ids, i, mode, all, st) ==
        if first.failed then first else Then(first.md, RenderChildren(ids, i + 1, mode, all, first.st))
  {
  }

  /** One step of `RenderTop`. */
  lemma RenderTopStep(ids: seq<string>, i: nat, all: map<string, Block>, number: int, st: State)
    requires i < |ids|
    ensures RenderTop(ids, i, all, number, st) ==
      if ids[i] in all && ids[i] !in st.processed then
        var first := Render(Some(all[ids[i]]), all, Ctx("", true, 0, number), st);
        if first.failed then first
        else Then(first.md, RenderTop(ids, i + 1, all, if BlockType(all[ids[i]]) == "Numbered" then number + 1 else number, first.st))
      else RenderTop(ids, i + 1, all, number, st)
  {
  }

  /** `{block['id']: block for block in blocks if block.get('id')}`: the blocks with a non-empty
      id, indexed by it. */
  function IndexBlocks(blocks: seq<Block>): (all: map<string, Block>)
    ensures forall k :: k in all ==> all[k].id == Some(k) && k != ""
    ensures forall j :: 0 <= j < |blocks| && blocks[j].id.Some? && blocks[j].id.value != "" ==> blocks[j].id.value in all
  {
    if |blocks| == 0 then map[]
    else
      var b := blocks[|blocks| - 1];
      var all := IndexBlocks(blocks[..|blocks| - 1]);
      assert forall j :: 0 <= j < |blocks| - 1 ==> blocks[..|blocks| - 1][j] == blocks[j];
      if b.id.Some? && b.id.value != "" then all[b.id.value := b] else all
  }

  /** Of several blocks with one id, the index keeps the last. */
  lemma {:induction false} IndexBlocksKeepsLast(blocks: seq<Block>, j: nat)
    requires j < |blocks| && blocks[j].id.Some? && blocks[j].id.value != ""
    requires forall j' :: j < j' < |blocks| ==> blocks[j'].id != blocks[j].id
    ensures IndexBlocks(blocks)[blocks[j].id.value] == blocks[j]
    decreases |blocks|
  {
    var front := blocks[..|blocks| - 1];
    if j < |blocks| - 1 {
      assert front[j] == blocks[j];
      IndexBlocksKeepsLast(front, j);
    }
  }

  /** The loop of `process_blocks` over the root's children from position `i`, with the running
      counter `number` that each rendered Numbered child advances. */
  function RenderTop(ids: seq<string>, i: nat, all: map<string, Block>, number: int, st: State): (o: Outcome)
    requires i <= |ids|
    ensures st.processed <= o.st.processed
    ensures o.failed ==> o.md == ""
    decreases |ids| - i
  {
    if i == |ids| then Outcome("", st, false)
    else if ids[i] in all && ids[i] !in st.processed then
      var block := all[ids[i]];
      var first := Render(Some(block), all, Ctx("", true, 0, number), st);
      if first.failed then first
      else
        var next := if BlockType(block) == "Numbered" then number + 1 else number;
        Then(first.md, RenderTop(ids, i + 1, all, next, first.st))
    else RenderTop(ids, i + 1, all, number, st)
  }

  /** `process_blocks`: the children of the first block rendered at the top level, numbering from 1. */
  function BlocksMarkdown(blocks: seq<Block>, files: map<string, FileInfo>): (o: Outcome)
    ensures o.failed ==> o.md == ""
  {
    if |blocks| == 0 then Outcome("", State({}, files), false)
    else RenderTop(blocks[0].childrenIds, 0, IndexBlocks(blocks), 1, State({}, files))
  }

  /** Python's `processed_blocks`: the ids rendered so far, one set shared by the whole recursion. */
  class BlockSet {
    var ids: set<string>

    constructor()
      ensures ids == {}
    {
      ids := {};
    }
  }

  /** `convert_block_to_markdown`; `failed` reports the exception a malformed header style raises. */
  method ConvertBlockToMarkdown(block: Option<Block>, all: map<string, Block>, parentIndent: string, isTopLevel: bool,
                                fileHandler: FileHandler, processed: BlockSet, listLevel: int, listNumber: int)
    returns (markdown: string, failed: bool)
    modifies fileHandler, processed
    ensures var o := Render(block, all, Ctx(parentIndent, isTopLevel, listLevel, listNumber),
                            State(old(processed.ids), old(fileHandler.filesToCopy)));
      markdown == o.md && failed == o.failed && processed.ids == o.st.processed && fileHandler.filesToCopy == o.st.files
    decreases Budget(all, processed.ids + OwnIds(block)), if IsFresh(block, processed.ids) then 1 else 0, 0, 0
  {
    if block.None? || block.value.id.None? {
      return "", false;
    }
    var b := block.value;
    var blockId := b.id.value;
    if blockId in processed.ids {
      return "", false;
    }
    processed.ids := processed.ids + {blockId};
    RenderFresh(b, all, Ctx(parentIndent, isTopLevel, listLevel, listNumber), State(old(processed.ids), old(fileHandler.filesToCopy)));
    markdown, failed := ConvertBody(b, all, Ctx(parentIndent, isTopLevel, listLevel, listNumber), fileHandler, processed);
  }

  /** The rest of `convert_block_to_markdown` once the block's id is marked processed: the
      organisational, Numbered and content branches. */
  method ConvertBody(b: Block, all: map<string, Block>, ctx: Ctx, fileHandler: FileHandler, processed: BlockSet)
    returns (markdown: string, failed: bool)
    requires b.id.Some? && b.id.value in processed.ids
    modifies fileHandler, processed
    ensures var o := RenderBody(b, all, ctx, State(old(processed.ids), old(fileHandler.filesToCopy)));
      markdown == o.md && failed == o.failed && processed.ids == o.st.processed && fileHandler.filesToCopy == o.st.files
    decreases Budget(all, processed.ids), 0, 2, 0
  {
    ghost var st1 := State(processed.ids, fileHandler.filesToCopy);
    if IsOrganizational(b) {
      RenderBodyOrganizational(b, all, ctx, st1);
      markdown, failed := ConvertChildren(b.childrenIds, Pass(ctx), all, fileHandler, processed);
      return;
    }

    var currentIndent := if ctx.isTopLevel then "" else ctx.parentIndent + ">";
    var blockType := BlockType(b);
    var content := "";
    if TextOf(b) != "" {
      content := FormatInlineText(TextOf(b), Marks(b));
    }

    if blockType == "Numbered" {
      RenderBodyNumbered(b, all, ctx, st1);
      var children;
      children, failed := ConvertChildren(b.childrenIds, NumberedList(ctx.parentIndent, ctx.listLevel + 1), all, fileHandler, processed);
      markdown := if failed then "" else Repeat("  ", ctx.listLevel) + IntToString(ctx.listNumber) + ". " + content + "\n" + children;
      return;
    }

    RenderBodyContent(b, all, ctx, st1);
    markdown, failed := ConvertContent(b, content, currentIndent, fileHandler);
    if failed {
      return;
    }
    var unique := HasUniqueChildren(b, processed);
    if unique && blockType != "Numbered" {
      var children;
      children, failed := ConvertChildren(b.childrenIds, Nested(currentIndent, b.id.value), all, fileHandler, processed);
      markdown := if failed then "" else markdown + children;
    }
  }

  /** Rendering a fresh block marks its id and renders its body. */
  lemma RenderFresh(b: Block, all: map<string, Block>, ctx: Ctx, st: State)
    requires b.id.Some? && b.id.value !in st.processed
    ensures Render(Some(b), all, ctx, st) == RenderBody(b, all, ctx, State(st.processed + {b.id.value}, st.files))
  {
  }

  /** The body of an organisational block is its children in the same context. */
  lemma RenderBodyOrganizational(b: Block, all: map<string, Block>, ctx: Ctx, st: State)
    requires b.id.Some? && b.id.value in st.processed && IsOrganizational(b)
    ensures RenderBody(b, all, ctx, st) == RenderChildren(b.childrenIds, 0, Pass(ctx), all, st)
  {
  }

  /** The body of a Numbered block is its numbered line, then its children one level deeper. */
  lemma RenderBodyNumbered(b: Block, all: map<string, Block>, ctx: Ctx, st: State)
    requires b.id.Some? && b.id.value in st.processed && !IsOrganizational(b) && BlockType(b) == "Numbered"
    ensures RenderBody(b, all, ctx, st) ==
      Then(NumberPrefix(ctx) + Content(b) + "\n",
           RenderChildren(b.childrenIds, 0, NumberedList(ctx.parentIndent, ctx.listLevel + 1), all, st))
  {
  }

  /** The body of any other block is its own content, then its pending children one quote level deeper. */
  lemma RenderBodyContent(b: Block, all: map<string, Block>, ctx: Ctx, st: State)
    requires b.id.Some? && b.id.value in st.processed && !IsOrganizational(b) && BlockType(b) != "Numbered"
    ensures var own := ContentMarkdown(b, Content(b), CurrentIndent(ctx));
      var st1 := State(st.processed, ContentFiles(b, st.files));
      RenderBody(b, all, ctx, st) ==
        if own.None? then Outcome("", st1, true)
        else if HasPendingChild(b, st.processed) then
          Then(own.value, RenderChildren(b.childrenIds, 0, Nested(CurrentIndent(ctx), b.id.value), all, st1))
        else Outcome(own.value, st1, false)
  {
  }

  /** The child loops of `convert_block_to_markdown`: each child the loop visits is rendered in
      turn against the shared set and registry, and the Markdown is accumulated. */
  method ConvertChildren(ids: seq<string>, mode: ChildMode, all: map<string, Block>,
                         fileHandler: FileHandler, processed: BlockSet)
    returns (markdown: string, failed: bool)
    modifies fileHandler, processed
    ensures var o := RenderChildren(ids, 0, mode, all, State(old(processed.ids), old(fileHandler.filesToCopy)));
      markdown == o.md && failed == o.failed && processed.ids == o.st.processed && fileHandler.filesToCopy == o.st.files
    decreases Budget(all, processed.ids), 0, 1, 0
  {
    ghost var start := processed.ids;
    ghost var whole := RenderChildren(ids, 0, mode, all, State(start, fileHandler.filesToCopy));
    markdown, failed := "", false;
    var i := 0;
    while i < |ids|
      invariant 0 <= i <= |ids|
      invariant start <= processed.ids
      invariant whole == Then(markdown, RenderChildren(ids, i, mode, all, State(processed.ids, fileHandler.filesToCopy)))
    {
      BudgetShrinks(all, start, processed.ids);
      var part, childFailed := ConvertChild(ids, i, mode, all, fileHandler, processed, markdown, whole);
      if childFailed {
        return "", true;
      }
      markdown := markdown + part;
      i := i + 1;
    }
    ChildrenDone(ids, mode, all, State(processed.ids, fileHandler.filesToCopy), markdown);
  }

  /** Past the last child nothing is left to render. */
  lemma ChildrenDone(ids: seq<string>, mode: ChildMode, all: map<string, Block>, st: State, markdown: string)
    ensures Then(markdown, RenderChildren(ids, |ids|, mode, all, st)) == Outcome(markdown, st, false)
  {
    assert markdown + "" == markdown;
  }

  /** The body of a child loop: the child at position `i` rendered when the loop visits it, which
      takes the loop invariant `whole == Then(markdown, rest)` one child further. */
  method ConvertChild(ids: seq<string>, i: nat, mode: ChildMode, all: map<string, Block>,
                      fileHandler: FileHandler, processed: BlockSet, ghost markdown: string, ghost whole: Outcome)
    returns (part: string, failed: bool)
    requires i < |ids|
    requires whole == Then(markdown, RenderChildren(ids, i, mode, all, State(processed.ids, fileHandler.filesToCopy)))
    modifies fileHandler, processed
    ensures Outcome(part, State(processed.ids, fileHandler.filesToCopy), failed) ==
      VisitChild(ids, i, mode, all, State(old(processed.ids), old(fileHandler.filesToCopy)))
    ensures old(processed.ids) <= processed.ids
    ensures failed ==> whole == Outcome("", State(processed.ids, fileHandler.filesToCopy), true)
    ensures !failed ==> whole == Then(markdown + part, RenderChildren(ids, i + 1, mode, all, State(processed.ids, fileHandler.filesToCopy)))
    decreases Budget(all, processed.ids), 0, 0, 1
  {
    ghost var before := State(processed.ids, fileHandler.filesToCopy);
    var childId := ids[i];
    if Visits(mode, childId, all, processed.ids) {
      var ctx := ChildCtx(mode, i);
      BudgetStep(all, processed.ids, childId);
      part, failed := ConvertBlockToMarkdown(Some(all[childId]), all, ctx.parentIndent, ctx.isTopLevel,
                                             fileHandler, processed, ctx.listLevel, ctx.listNumber);
    } else {
      part, failed := "", false;
    }
    ChildrenLoopStep(ids, i, mode, all, before, markdown, whole, Outcome(part, State(processed.ids, fileHandler.filesToCopy), failed));
  }

  /** What one pass of the child loop does to the invariant `whole == Then(markdown, rest)`. */
  lemma ChildrenLoopStep(ids: seq<string>, i: nat, mode: ChildMode, all: map<string, Block>, before: State,
                         markdown: string, whole: Outcome, first: Outcome)
    requires i < |ids|
    requires whole == Then(markdown, RenderChildren(ids, i, mode, all, before))
    requires first == VisitChild(ids, i, mode, all, before)
    ensures first.failed ==> whole == Outcome("", first.st, true)
    ensures !first.failed ==> whole == Then(markdown + first.md, RenderChildren(ids, i + 1, mode, all, first.st))
  {
    RenderChildrenStep(ids, i, mode, all, before);
    ThenAssoc(markdown, first.md, RenderChildren(ids, i + 1, mode, all, first.st));
  }

  lemma ThenAssoc(a: string, b: string, o: Outcome)
    ensures Then(a, Then(b, o)) == Then(a + b, o)
  {
    if !o.failed {
      assert a + (b + o.md) == (a + b) + o.md;
    }
  }

  /** The style dispatch of `convert_block_to_markdown` for a block that is neither organisational
      nor Numbered. */
  method ConvertContent(b: Block, content: string, indent: string, fileHandler: FileHandler)
    returns (markdown: string, failed: bool)
    modifies fileHandler
    ensures var own := ContentMarkdown(b, content, indent);
      failed == own.None? && markdown == own.GetOr("")
    ensures fileHandler.filesToCopy == ContentFiles(b, old(fileHandler.filesToCopy))
  {
    var blockType := BlockType(b);
    markdown, failed := "", false;
    if StartsWith(blockType, "Header") {
      var level := blockType[|blockType| - 1];
      if '0' <= level <= '9' {
        markdown := indent + Repeat("#", (level - '0') as int) + " " + content + "\n\n";
      } else {
        failed := true;
      }
    } else if blockType == "Paragraph" || blockType == "Toggle" {
      markdown := if content != "" then ApplyIndent(indent, content) + "\n\n" else "";
    } else if blockType == "Marked" {
      markdown := ApplyIndent(indent, "- " + content) + "\n";
    } else if blockType == "Code" {
      markdown := ApplyIndent(indent, "```" + b.lang + "\n" + content + "\n```") + "\n";
    } else if blockType == "Checkbox" {
      var checked := if Checked(b) then "\U{2612}" else "\U{2610}";
      markdown := ApplyIndent(indent, checked + " " + content) + "\n";
    } else if blockType == "Equation" {
      markdown := ApplyIndent(indent, FormatLatexEquation(content)) + "\n\n";
    } else if b.file.Some? {
      var attachment := fileHandler.HandleFileAttachment(b.file.value);
      markdown := ApplyIndent(indent, attachment) + "\n\n";
    } else if blockType == "Table" {
      var table := ConvertTableToMarkdown(b.columns, b.rows);
      markdown := ApplyIndent(indent, table) + "\n";
    } else {
      markdown := ApplyIndent(indent, content) + "\n\n";
    }
  }

  /** `has_unique_children`. */
  method HasUniqueChildren(b: Block, processed: BlockSet) returns (unique: bool)
    ensures unique == HasPendingChild(b, processed.ids)
  {
    var i := 0;
    while i < |b.childrenIds|
      invariant 0 <= i <= |b.childrenIds|
      invariant forall j :: 0 <= j < i ==> b.childrenIds[j] in processed.ids || Some(b.childrenIds[j]) == b.id
    {
      var childId := b.childrenIds[i];
      if childId !in processed.ids && Some(childId) != b.id {
        return true;
      }
      i := i + 1;
    }
    return false;
  }

  /** `process_blocks`. */
  method ProcessBlocks(blocks: seq<Block>, fileHandler: FileHandler) returns (markdown: string, failed: bool)
    modifies fileHandler
    ensures var o := BlocksMarkdown(blocks, old(fileHandler.filesToCopy));
      markdown == o.md && failed == o.failed && fileHandler.filesToCopy == o.st.files
  {
    var all := IndexBlocks(blocks);
    var processed := new BlockSet();
    markdown, failed := "", false;
    if |blocks| == 0 {
      return;
    }
    var root := blocks[0];
    ghost var whole := RenderTop(root.childrenIds, 0, all, 1, State({}, fileHandler.filesToCopy));
    var listNumber := 1;
    var i := 0;
    while i < |root.childrenIds|
      invariant 0 <= i <= |root.childrenIds|
      invariant whole == Then(markdown, RenderTop(root.childrenIds, i, all, listNumber, State(processed.ids, fileHandler.filesToCopy)))
    {
      var childId := root.childrenIds[i];
      ghost var before := State(processed.ids, fileHandler.filesToCopy);
      if childId in all && childId !in processed.ids {
        var childBlock := all[childId];
        var part, childFailed := ConvertBlockToMarkdown(Some(childBlock), all, "", true, fileHandler, processed, 0, listNumber);
        TopLoopStep(root.childrenIds, i, all, listNumber, before, markdown, whole,
                    Outcome(part, State(processed.ids, fileHandler.filesToCopy), childFailed));
        if childFailed {
          return "", true;
        }
        markdown := markdown + part;
        if BlockType(childBlock) == "Numbered" {
          listNumber := listNumber + 1;
        }
      } else {
        TopLoopSkip(root.childrenIds, i, all, listNumber, before, markdown, whole);
      }
      i := i + 1;
    }
  }

  /** A pass of the loop of `process_blocks` that renders the child at `i`. */
  lemma TopLoopStep(ids: seq<string>, i: nat, all: map<string, Block>, number: int, before: State,
                    markdown: string, whole: Outcome, first: Outcome)
    requires i < |ids| && ids[i] in all && ids[i] !in before.processed
    requires whole == Then(markdown, RenderTop(ids, i, all, number, before))
    requires first == Render(Some(all[ids[i]]), all, Ctx("", true, 0, number), before)
    ensures first.failed ==> whole == Outcome("", first.st, true)
    ensures !first.failed ==>
      whole == Then(markdown + first.md, RenderTop(ids, i + 1, all, if BlockType(all[ids[i]]) == "Numbered" then number + 1 else number, first.st))
  {
    var next := if BlockType(all[ids[i]]) == "Numbered" then number + 1 else number;
    RenderTopStep(ids, i, all, number, before);
    ThenAssoc(markdown, first.md, RenderTop(ids, i + 1, all, next, first.st));
  }

  /** A pass of the loop of `process_blocks` that skips the child at `i`. */
  lemma TopLoopSkip(ids: seq<string>, i: nat, all: map<string, Block>, number: int, before: State,
                    markdown: string, whole: Outcome)
    requires i < |ids| && !(ids[i] in all && ids[i] !in before.processed)
    requires whole == Then(markdown, RenderTop(ids, i, all, number, before))
    ensures whole == Then(markdown, RenderTop(ids, i + 1, all, number, before))
  {
    RenderTopStep(ids, i, all, number, before);
  }

  // ----- Properties of the renderer -----

  /** Rendering only ever marks ids carried by blocks of `all`, besides the block's own. */
  lemma {:induction false} RenderWithin(b: Option<Block>, all: map<string, Block>, ctx: Ctx, st: State)
    ensures Render(b, all, ctx, st).st.processed <= st.processed + IdsOf(all) + OwnIds(b)
    decreases Budget(all, st.processed + OwnIds(b)), if IsFresh(b, st.processed) then 1 else 0, 0, 0, 0
  {
    if IsFresh(b, st.processed) {
      RenderBodyWithin(b.value, all, ctx, State(st.processed + {b.value.id.value}, st.files));
    }
  }

  lemma {:induction false} RenderBodyWithin(b: Block, all: map<string, Block>, ctx: Ctx, st: State)
    requires b.id.Some? && b.id.value in st.processed
    ensures RenderBody(b, all, ctx, st).st.processed <= st.processed + IdsOf(all)
    decreases Budget(all, st.processed), 0, 1, 0, 0
  {
    if IsOrganizational(b) {
      RenderChildrenWithin(b.childrenIds, 0, Pass(ctx), all, st);
    } else if BlockType(b) == "Numbered" {
      RenderChildrenWithin(b.childrenIds, 0, NumberedList(ctx.parentIndent, ctx.listLevel + 1), all, st);
    } else {
      var st1 := State(st.processed, ContentFiles(b, st.files));
      var own := ContentMarkdown(b, Content(b), CurrentIndent(ctx));
      if own.Some? && HasPendingChild(b, st.processed) {
        var kids := RenderChildren(b.childrenIds, 0, Nested(CurrentIndent(ctx), b.id.value), all, st1);
        assert RenderBody(b, all, ctx, st) == Then(own.value, kids);
        RenderChildrenWithin(b.childrenIds, 0, Nested(CurrentIndent(ctx), b.id.value), all, st1);
      } else {
        assert RenderBody(b, all, ctx, st).st == st1;
      }
    }
  }

  lemma {:induction false} RenderChildrenWithin(ids: seq<string>, i: nat, mode: ChildMode, all: map<string, Block>, st: State)
    requires i <= |ids|
    ensures RenderChildren(ids, i, mode, all, st).st.processed <= st.processed + IdsOf(all)
    decreases Budget(all, st.processed), 0, 0, |ids| - i, 0
  {
    if i < |ids| {
      VisitChildWithin(ids, i, mode, all, st);
      var first := VisitChild(ids, i, mode, all, st);
      if !first.failed {
        BudgetShrinks(all, st.processed, first.st.processed);
        RenderChildrenWithin(ids, i + 1, mode, all, first.st);
      }
    }
  }

  lemma {:induction false} VisitChildWithin(ids: seq<string>, i: nat, mode: ChildMode, all: map<string, Block>, st: State)
    requires i < |ids|
    ensures VisitChild(ids, i, mode, all, st).st.processed <= st.processed + IdsOf(all)
    decreases Budget(all, st.processed), 0, 0, 0, 1
  {
    if Visits(mode, ids[i], all, st.processed) {
      var child := Some(all[ids[i]]);
      BudgetStep(all, st.processed, ids[i]);
      RenderWithin(child, all, ChildCtx(mode, i), st);
      if child.value.id.Some? {
        assert child.value.id.value in IdsOf(all);
      }
    }
  }

  /** In the index `process_blocks` builds, the ids carried by the blocks are exactly the keys,
      so the processed set stays within the keys of the index. */
  lemma IndexIds(blocks: seq<Block>)
    ensures IdsOf(IndexBlocks(blocks)) == IndexBlocks(blocks).Keys
  {
    var all := IndexBlocks(blocks);
    forall k | k in all.Keys
      ensures k in IdsOf(all)
    {
      assert all[k].id == Some(k);
    }
  }

  /** An organisational block renders as its children, in order, each with the block's own context. */
  lemma OrganizationalTransparency(b: Block, all: map<string, Block>, ctx: Ctx, st: State, i: nat)
    requires IsOrganizational(b) && IsFresh(Some(b), st.processed)
    ensures Render(Some(b), all, ctx, st) ==
      RenderChildren(b.childrenIds, 0, Pass(ctx), all, State(st.processed + {b.id.value}, st.files))
    ensures ChildCtx(Pass(ctx), i) == ctx
  {
  }

  /** A Numbered block emits its numbered line and then its children as a list one level deeper,
      the child at position `i` numbered `i + 1`; the generic children step never follows. */
  lemma NumberedBlock(b: Block, all: map<string, Block>, ctx: Ctx, st: State, i: nat)
    requires !IsOrganizational(b) && BlockType(b) == "Numbered" && IsFresh(Some(b), st.processed)
    ensures Render(Some(b), all, ctx, st) ==
      Then(Repeat("  ", ctx.listLevel) + IntToString(ctx.listNumber) + ". " + Content(b) + "\n",
           RenderChildren(b.childrenIds, 0, NumberedList(ctx.parentIndent, ctx.listLevel + 1), all,
                          State(st.processed + {b.id.value}, st.files)))
    ensures ChildCtx(NumberedList(ctx.parentIndent, ctx.listLevel + 1), i) == Ctx(ctx.parentIndent, false, ctx.listLevel + 1, i + 1)
  {
  }

  /** A child loop over ids that are all processed or the block itself renders nothing. */
  lemma {:induction false} NestedNothingPending(ids: seq<string>, i: nat, indent: string, self: string,
                                                all: map<string, Block>, st: State)
    requires i <= |ids|
    requires forall j :: i <= j < |ids| ==> ids[j] in st.processed || ids[j] == self
    ensures RenderChildren(ids, i, Nested(indent, self), all, st) == Outcome("", st, false)
    decreases |ids| - i
  {
    if i < |ids| {
      RenderChildrenStep(ids, i, Nested(indent, self), all, st);
      NestedNothingPending(ids, i + 1, indent, self, all, st);
    }
  }

  /** The `has_unique_children` guard before the generic children step changes nothing: without a
      pending child, the step would render nothing anyway. */
  lemma PendingGuardRedundant(b: Block, all: map<string, Block>, indent: string, st: State)
    requires b.id.Some? && !HasPendingChild(b, st.processed)
    ensures RenderChildren(b.childrenIds, 0, Nested(indent, b.id.value), all, st) == Outcome("", st, false)
  {
    forall j | 0 <= j < |b.childrenIds|
      ensures b.childrenIds[j] in st.processed || b.childrenIds[j] == b.id.value
    {
      if b.childrenIds[j] !in st.processed && Some(b.childrenIds[j]) != b.id {
        assert HasPendingChild(b, st.processed);
      }
    }
    NestedNothingPending(b.childrenIds, 0, indent, b.id.value, all, st);
  }

  /** The lines `IndentedLines` keeps hold no newline when neither the indent nor the input lines do. */
  lemma {:induction false} IndentedLinesNoNewline(indent: string, lines: seq<string>)
    requires '\n' !in indent
    requires forall k :: 0 <= k < |lines| ==> '\n' !in lines[k]
    ensures forall k :: 0 <= k < |IndentedLines(indent, lines)| ==> '\n' !in IndentedLines(indent, lines)[k]
  {
    if |lines| > 0 {
      IndentedLinesNoNewline(indent, lines[1..]);
    }
  }

  /** With a non-empty indent, the lines of the indented text are exactly the kept lines: each
      starts with the indent and is not blank after it. */
  lemma ApplyIndentLines(indent: string, text: string)
    requires indent != "" && '\n' !in indent
    requires |IndentedLines(indent, Split(text, '\n'))| > 0
    ensures var lines := Split(ApplyIndent(indent, text), '\n');
      lines == IndentedLines(indent, Split(text, '\n')) &&
      forall k :: 0 <= k < |lines| ==> StartsWith(lines[k], indent) && !IsBlank(lines[k][|indent|..])
  {
    var kept := IndentedLines(indent, Split(text, '\n'));
    IndentedLinesNoNewline(indent, Split(text, '\n'));
    SplitJoin(kept, '\n');
  }

  /** A header style ending in a digit gives that many `#`; one without a digit raises. */
  lemma HeaderMarkdown(b: Block, content: string, indent: string)
    requires StartsWith(BlockType(b), "Header")
    ensures var style := BlockType(b); var last := style[|style| - 1];
      ('0' <= last <= '9' ==>
         ContentMarkdown(b, content, indent) == Some(indent + Repeat("#", (last - '0') as int) + " " + content + "\n\n")) &&
      (!('0' <= last <= '9') ==> ContentMarkdown(b, content, indent).None?)
  {
  }

  /** At the top level (no quote indent): a checkbox line opens with ☒ exactly when the block is
      checked and with ☐ otherwise, an equation is `$$content$$` and a blank line, and code is
      fenced with the block's language. */
  lemma TopLevelStyles(b: Block, content: string)
    ensures BlockType(b) == "Checkbox" ==>
      var md := ContentMarkdown(b, content, "");
      md.Some? && |md.value| >= 1 && (md.value[0] == '\U{2612}' <==> Checked(b)) &&
      (md.value[0] == '\U{2610}' <==> !Checked(b))
    ensures BlockType(b) == "Equation" ==> ContentMarkdown(b, content, "") == Some("$$" + content + "$$" + "\n\n")
    ensures BlockType(b) == "Code" ==> ContentMarkdown(b, content, "") == Some("```" + b.lang + "\n" + content + "\n```" + "\n")
  {
    var style := BlockType(b);
    if style == "Checkbox" {
      assert !StartsWith(style, "Header") by { assert style[0] != "Header"[0]; }
      var box := if Checked(b) then "\U{2612}" else "\U{2610}";
      assert ContentMarkdown(b, content, "") == Some(box + " " + content + "\n");
      assert (box + " " + content + "\n")[0] == box[0];
    } else if style == "Equation" {
      assert !StartsWith(style, "Header") by { assert style[0] != "Header"[0]; }
      assert ContentMarkdown(b, content, "") == Some(FormatLatexEquation(content) + "\n\n");
    } else if style == "Code" {
      assert !StartsWith(style, "Header") by { assert style[0] != "Header"[0]; }
    }
  }

  /** A style the renderer does not know falls back to the indented text and a blank line. */
  lemma UnknownStyleFallsBack(b: Block, content: string, indent: string)
    requires var s := BlockType(b);
      !StartsWith(s, "Header") && s != "Paragraph" && s != "Toggle" && s != "Marked" &&
      s != "Code" && s != "Checkbox" && s != "Equation" && s != "Table" && b.file.None?
    ensures ContentMarkdown(b, content, indent) == Some(ApplyIndent(indent, content) + "\n\n")
  {
  }
}
