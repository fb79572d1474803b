# AnyBlock-To-Markdown in Dafny

This project models the conversion core of AnyBlock-To-Markdown. The tool turns an Anytype
"Any-Block" export into Obsidian-style Markdown notes. The model takes an already parsed corpus
of snapshot objects and covers the parts that decide what gets written:

- **The block-tree renderer** (`BlockConverter`). Every block is indexed by id. Rendering starts
  from the children of the first block and recurses through `childrenIds`. One shared set of
  processed ids makes sure each block is rendered at most once, even when child lists repeat
  ids or form cycles.
  - Blocks with a `Div` layout or without text are organisational: they pass their context on
    to their children.
  - Numbered blocks build nested lists. Other blocks quote their children one `>` deeper.
  - Text styles are dispatched to headers, paragraphs, marked items, code, checkboxes,
    equations, attachments and tables, with a fallback for unknown styles.
  - `BlockSet` is the processed-id set. The methods mutate it and the attachment registry in
    place, and are proved equal to the recursive specification functions `Render`,
    `RenderBody`, `RenderChildren` and `RenderTop`.
  - Termination on cyclic child lists is proved. The measure is the number of ids of the index
    that are still unprocessed.
- **The inline and table formatters** (`Utils`):
  - marks are applied by insert-and-shift over a stable sort by `range.from`;
  - pipe tables;
  - `$$` equations;
  - the file-name sanitiser that is in effect.
- **The attachment registry** (`FileHandling`): a map from content hash to file record, and the
  link text of each attachment.
- **The relation resolver** (`RelationHandling`). It turns a page's relation keys into
  frontmatter lines:
  - first-match lookups of relation descriptors (cached) and option names;
  - the link-wrapping rule;
  - `Yes`/`No` booleans, and lists element by element;
  - the ordered `relations` dictionary, with Python's key equality (`True == 1`);
  - legacy ten-character timestamps, decoded by calendar arithmetic.
- **The calendar** (`Calendar`) models the proleptic Gregorian calendar of Python's `datetime`:
  - ordinals, `fromordinal`, day arithmetic and `replace(year=...)`, with their `OverflowError`
    and `ValueError` cases;
  - `%Y-%m-%d` formatting.
- **The document assembly** (`Converter`):
  - choosing the `Page` objects;
  - compiling a page into frontmatter plus body;
  - the pure part of `write_markdown_file`: the blank-name default, sanitising, the 150-character
    cut, the `.md` suffix, collision renaming against a given set of existing names, and the
    frontmatter rewrite.

`PyText` models the Python `str` operations the code relies on (`split`, `join`, `rstrip`,
slicing, `str(int)`). `Corpus` models JSON values with Python's `==`, `str()` and `repr()` (the quote choice and the escapes of ASCII characters). `Wrappers`
holds `Option`.

Exceptions the source raises on the records the model can express become explicit results, and state
changes made before the raise are kept, as in Python. A present JSON `null` in a block or file record
is not expressible (see "Left out"). The modelled exceptions are:

- `Outcome.failed` is a header style whose last character is not a digit.
- `Extraction.failed` is a relation name that is a list, which is unhashable as a dictionary key.
- `None` from `AddDays`/`ReplaceYear` is a date out of range or a missing 29 February.
- `None` from `Output` is the collision loop giving up.

## Model

| member | source | states |
|---|---|---|
| BlockConverter.IndentedLines | anyblock_exporter/block_converter.py:51-54 | every kept line starts with the indent and is not blank after it, and no line is added |
| BlockConverter.HeaderLevel | anyblock_exporter/block_converter.py:77-79 | the header level exists exactly when the style's last character is a decimal digit, and is that digit |
| BlockConverter.Render | anyblock_exporter/block_converter.py:18-25 | a missing block, one without id or an already processed one renders as "" with the state untouched; otherwise its id is processed afterwards; the set only grows; a failure carries no text |
| BlockConverter.RenderBody | anyblock_exporter/block_converter.py:27-115 | the processed set only grows and a failure carries no text |
| BlockConverter.RenderChildren | anyblock_exporter/block_converter.py:29-41 | the children rendered in order only add to the processed set; a failure carries no text |
| BlockConverter.VisitChild | anyblock_exporter/block_converter.py:104-114 | one child step only adds to the processed set; a failure carries no text |
| BlockConverter.RenderChildrenStep | anyblock_exporter/block_converter.py:29-41 | a child loop is its first child, then the rest rendered in the state that child leaves, stopping at a failure |
| BlockConverter.RenderTopStep | anyblock_exporter/block_converter.py:125-138 | the root loop renders a known unprocessed child at the top level with the current counter, advancing it exactly when the child is Numbered, and skips any other child |
| BlockConverter.IndexBlocks | anyblock_exporter/block_converter.py:118 | the index holds exactly the blocks with a non-empty id, each under its own id |
| BlockConverter.IndexBlocksKeepsLast | anyblock_exporter/block_converter.py:118 | of several blocks with one id, the index keeps the last |
| BlockConverter.RenderTop | anyblock_exporter/block_converter.py:125-138 | the root loop only adds to the processed set; a failure carries no text |
| BlockConverter.BlocksMarkdown | anyblock_exporter/block_converter.py:117-139 | a failed document carries no text |
| BlockConverter.BlockSet.constructor | anyblock_exporter/block_converter.py:119 | the processed set starts empty |
| BlockConverter.ConvertBlockToMarkdown | anyblock_exporter/block_converter.py:18-115 | the Markdown, the failure flag, the final processed set and the final attachment registry are those of `Render` on the old state |
| BlockConverter.ConvertBody | anyblock_exporter/block_converter.py:27-115 | after the id is marked: the Markdown and the new set and registry are those of `RenderBody` |
| BlockConverter.ConvertChildren | anyblock_exporter/block_converter.py:27-42 | each child loop (organisational, Numbered, nested) accumulates exactly what `RenderChildren` specifies and leaves its state |
| BlockConverter.ConvertChild | anyblock_exporter/block_converter.py:104-114 | one pass of a child loop renders what `VisitChild` specifies and carries the loop invariant one child further |
| BlockConverter.ConvertContent | anyblock_exporter/block_converter.py:77-100 | the style dispatch yields the block's own Markdown, fails exactly on a header without a digit, and registers the attachment only in the file branch |
| BlockConverter.HasUniqueChildren | anyblock_exporter/block_converter.py:11-16 | true exactly when some child id is unprocessed and differs from the block's own id |
| BlockConverter.ProcessBlocks | anyblock_exporter/block_converter.py:117-139 | the document Markdown, the failure flag and the attachment registry are those of `BlocksMarkdown`: the first block's children from counter 1 |
| BlockConverter.RenderWithin | anyblock_exporter/block_converter.py:22-25 | rendering only marks ids carried by blocks of the index, besides the block's own |
| BlockConverter.RenderBodyWithin | anyblock_exporter/block_converter.py:27-115 | a block body only marks ids of the index |
| BlockConverter.RenderChildrenWithin | anyblock_exporter/block_converter.py:27-42 | a child loop only marks ids of the index |
| BlockConverter.VisitChildWithin | anyblock_exporter/block_converter.py:104-114 | one child step only marks ids of the index |
| BlockConverter.IndexIds | anyblock_exporter/block_converter.py:118 | the ids the indexed blocks carry are exactly the index keys, so the processed set stays within them |
| BlockConverter.OrganizationalTransparency | anyblock_exporter/block_converter.py:27-42 | an organisational block renders as its children in order, each with the block's own indent, top-level flag, level and number |
| BlockConverter.NumberedBlock | anyblock_exporter/block_converter.py:58-76 | a Numbered block emits `'  '*level + number + '. ' + content`, then its children one level deeper, the child at position i numbered i+1, never the generic children step |
| BlockConverter.NestedNothingPending | anyblock_exporter/block_converter.py:104-114 | a nested child loop over ids all processed or equal to the block itself renders nothing and changes nothing |
| BlockConverter.PendingGuardRedundant | anyblock_exporter/block_converter.py:103 | without a pending child, the generic children step would render nothing anyway |
| BlockConverter.IndentedLinesNoNewline | anyblock_exporter/block_converter.py:54 | indented lines hold no newline when neither the indent nor the input lines do |
| BlockConverter.ApplyIndentLines | anyblock_exporter/block_converter.py:51-54 | with an indent, the output's lines are exactly the non-blank input lines, each prefixed by the indent |
| BlockConverter.HeaderMarkdown | anyblock_exporter/block_converter.py:77-79 | `HeaderN` gives `indent + '#'*N + ' ' + content` and a blank line; a style without a final digit raises |
| BlockConverter.TopLevelStyles | anyblock_exporter/block_converter.py:84-91 | checkbox opens with ☒ iff checked and ☐ iff not; equation is `$$content$$` and a blank line; code is fenced with the language |
| BlockConverter.UnknownStyleFallsBack | anyblock_exporter/block_converter.py:98-100 | any style the dispatch does not name (not `Header…`, `Paragraph`, `Toggle`, `Marked`, `Code`, `Checkbox`, `Equation` or `Table`), without a file, gives the indented content and a blank line |
| BlockExamples.NumberedLeaf | anyblock_exporter/block_converter.py:58-60 | a childless Numbered block is its numbered line, and only its id is added |
| BlockExamples.ParagraphLeaf | anyblock_exporter/block_converter.py:80-81 | a childless top-level paragraph is its text and a blank line, or nothing when the text formats to "" |
| BlockExamples.ExampleIndex | anyblock_exporter/block_converter.py:118 | the index of a four-block document holds the three children under their ids |
| BlockExamples.ExampleTail | anyblock_exporter/block_converter.py:125-138 | the last two root children render as a paragraph then item 2 |
| BlockExamples.ExampleTop | anyblock_exporter/block_converter.py:125-138 | the root's children render as item 1, a paragraph, item 2 |
| BlockExamples.NumberingContinuity | anyblock_exporter/block_converter.py:117-139 | top-level numbering continues across an interleaved paragraph: `1. x`, `y`, `2. z` |
| BlockExamples.NestedChildren | anyblock_exporter/block_converter.py:64-76 | the Numbered children of a Numbered block render as `  1. q` and `  2. r` |
| BlockExamples.NestedNumbering | anyblock_exporter/block_converter.py:58-76 | a Numbered block with two Numbered children renders as `1. p`, `  1. q`, `  2. r` |
| Utils.KindOf | anyblock_exporter/utils.py:31-47 | a `type` names a known kind exactly when it is one of the five the `if`/`elif` chain tests; any other name is kept as `Other` |
| Utils.InsertByFrom | anyblock_exporter/utils.py:28 | one insertion step of the sort keeps the multiset of marks and adds the new one |
| Utils.SortByFrom | anyblock_exporter/utils.py:28 | the sorted marks are a permutation of the marks |
| Utils.InsertBounded | anyblock_exporter/utils.py:28 | inserting keeps every start at or below a bound they all respect |
| Utils.InsertSorted | anyblock_exporter/utils.py:28 | inserting into marks sorted by `from` keeps them sorted |
| Utils.SortIsSorted | anyblock_exporter/utils.py:28 | the marks come out in ascending `range.from` order |
| Utils.StartingAtAppend | anyblock_exporter/utils.py:28 | the marks starting at one offset in a concatenation are those of each part, in order |
| Utils.InsertStable | anyblock_exporter/utils.py:28 | inserting places the new mark after the marks with the same start |
| Utils.SortIsStable | anyblock_exporter/utils.py:28 | marks with the same start keep their relative order |
| Utils.ShiftIsInsertedLength | anyblock_exporter/utils.py:33-48 | each known mark's offset increment is exactly the number of characters it inserts |
| Utils.FormatInlineText | anyblock_exporter/utils.py:21-50 | the result is the text with the sorted marks applied in order; no marks leaves the text unchanged |
| Utils.ApplyInOrder | anyblock_exporter/utils.py:28-48 | the loop over sorted marks, carrying the running offset, computes the text after all of them |
| Utils.MarkText | anyblock_exporter/utils.py:33-48 | Bold `**` +4, Italic `*` +2, Underscored `_` +2, Strikethrough `~~` +4, Link `[..](url)` +len(url)+4, unknown +0 |
| Utils.FormatOneMark | anyblock_exporter/utils.py:29-48 | one mark is inserted at its range shifted by the offset, and the offset grows by its increment |
| Utils.ApplyMarkLength | anyblock_exporter/utils.py:33-48 | a mark with a forward range lengthens the text by exactly its increment |
| Utils.OffsetIsTotalShift | anyblock_exporter/utils.py:26-48 | the running offset after i marks is the sum of their increments |
| Utils.ApplyPrefixLength | anyblock_exporter/utils.py:26-48 | with forward ranges, the text after i marks has grown by the sum of their increments |
| Utils.TotalShiftAppend | anyblock_exporter/utils.py:26-48 | the increments of concatenated marks add up |
| Utils.TotalShiftInsert | anyblock_exporter/utils.py:28 | inserting a mark adds its increment to the sum |
| Utils.TotalShiftSort | anyblock_exporter/utils.py:28 | sorting does not change the sum of increments |
| Utils.SortKeepsForward | anyblock_exporter/utils.py:28 | sorting keeps every range forward |
| Utils.FormatLength | anyblock_exporter/utils.py:21-50 | for ranges with 0 <= from <= to, the result is as long as the text plus 4, 2, 2, 4 or len(url)+4 per known mark |
| Utils.SingleMark | anyblock_exporter/utils.py:29-48 | a single known mark inside the text wraps exactly its span in the mark's delimiters |
| Utils.BoldHello | anyblock_exporter/utils.py:33-35 | Bold over [0,5) of `hello world` gives `**hello** world` |
| Utils.UnknownMarkIgnored | anyblock_exporter/utils.py:31-48 | a mark of unknown type changes neither the text nor the offset |
| Utils.Dashes | anyblock_exporter/utils.py:59 | one `---` per column |
| Utils.RowLines | anyblock_exporter/utils.py:63-65 | one pipe line per row, in order |
| Utils.ConvertTableToMarkdown | anyblock_exporter/utils.py:52-67 | the table is the header, separator and row lines, each followed by a newline |
| Utils.TableHead | anyblock_exporter/utils.py:58-60 | the header and separator alone are an empty table |
| Utils.TableLinesStep | anyblock_exporter/utils.py:63-65 | each row adds exactly its own line to the table |
| Utils.JoinNoNewline | anyblock_exporter/utils.py:58-64 | a join of newline-free cells holds no newline |
| Utils.TableShape | anyblock_exporter/utils.py:52-67 | with newline-free cells, the table is exactly 2 + len(rows) lines: header, one `---` per column, then each row in order |
| Utils.FormatLatexEquation | anyblock_exporter/utils.py:69-70 | the equation between `$$` and `$$`, four characters longer |
| Utils.SanitizeFilename | anyblock_exporter/utils.py:72-73 | same length; each character outside `\w`, `-`, `_`, `.` and space becomes `_`, every other is kept |
| Utils.SanitizeKept | anyblock_exporter/utils.py:72-73 | a name of allowed characters is unchanged |
| Utils.SanitizeIdempotent | anyblock_exporter/utils.py:72-73 | the output holds only allowed characters, and sanitising twice equals sanitising once |
| FileHandling.Register | anyblock_exporter/file_handler.py:17-18 | with a non-empty hash the record is stored under it and the keys gain it; otherwise the keys are unchanged |
| FileHandling.FileHandler.constructor | anyblock_exporter/file_handler.py:9-11 | the folder is kept and nothing is pending |
| FileHandling.FileHandler.HandleFileAttachment | anyblock_exporter/file_handler.py:13-21 | returns the attachment link and updates the pending copies as `Register` does |
| FileHandling.AttachmentLinkShape | anyblock_exporter/file_handler.py:14-21 | the fragment is an image embed exactly when the hash is non-empty, otherwise a link to `file_not_found` |
| FileHandling.RegisterKeepsOthers | anyblock_exporter/file_handler.py:18 | entries under other hashes never change |
| FileHandling.RegisterIdempotent | anyblock_exporter/file_handler.py:18 | registering the same record twice equals registering it once |
| FileHandling.RegisterLastWins | anyblock_exporter/file_handler.py:18 | of two records with one hash, only the later one remains |
| FileHandling.NoHashNotRegistered | anyblock_exporter/file_handler.py:15-21 | without a hash nothing is registered and the link is `[name](file_not_found)` |
| FileHandling.CopyDestinationAsWritten | anyblock_exporter/file_handler.py:26 | the copy destination exists exactly when the record has a name, and is then `hash_name` |
| FileHandling.UnnamedAttachmentNotCopied | anyblock_exporter/file_handler.py:14-26 | an unnamed attachment is linked as `attachments/h_unnamed_file` but the copy step has no destination for it |
| FileHandling.LinkTargetsCopyDestination | anyblock_exporter/file_handler.py:19 | with the display name used on both sides, every embed link targets the copy destination |
| Corpus.ReprAll | anyblock_exporter/relation_handler.py:26 | one `repr` per element |
| Corpus.ReprTextPlain | anyblock_exporter/relation_handler.py:26 | printable ASCII other than the backslash and the quote is copied unchanged inside the quotes |
| Corpus.ReprSingleQuoted | anyblock_exporter/relation_handler.py:26 | `repr` of printable ASCII text without a backslash or `'` is the text between single quotes |
| Corpus.ReprDoubleQuoted | anyblock_exporter/relation_handler.py:26 | `repr` of printable ASCII text holding `'` but no `"` or backslash is the text between double quotes |
| Corpus.ReprEscapesQuote | anyblock_exporter/relation_handler.py:26 | text holding both quotes is single-quoted, its `'` escaped and its `"` kept |
| Corpus.ReprEscapesBackslash | anyblock_exporter/relation_handler.py:26 | a backslash and a newline are escaped |
| Corpus.ReprEscapesControl | anyblock_exporter/relation_handler.py:26 | another control character is written as `\x` and two hex digits |
| Corpus.StrOfListWithApostrophe | anyblock_exporter/relation_handler.py:26 | `str(["it's"])` shows its element between double quotes |
| Corpus.ScalarEqEquivalence | anyblock_exporter/relation_handler.py:44-48 | Python's `==` on scalars, which decides dictionary keys, is reflexive, symmetric and transitive |
| Corpus.StrEq | anyblock_exporter/relation_handler.py:78 | a string equals only the same string |
| Corpus.BoolIsNumber | anyblock_exporter/relation_handler.py:44-48 | `True == 1` and `False == 0`, though they print differently |
| RelationHandling.FirstRelation | anyblock_exporter/relation_handler.py:77-78 | the first `STRelation` with this `relationKey` at or after i, or none at all |
| RelationHandling.FirstOption | anyblock_exporter/relation_handler.py:100-101 | the first `STRelationOption` with this id at or after i, or none at all |
| RelationHandling.LegacyDate | anyblock_exporter/relation_handler.py:19-21 | a decoded date is a valid date |
| RelationHandling.FormatAll | anyblock_exporter/relation_handler.py:44 | each list item formatted, in order |
| RelationHandling.FindEntry | anyblock_exporter/relation_handler.py:44-48 | the first entry whose name equals the key under Python's `==`, or none |
| RelationHandling.Bullets | anyblock_exporter/relation_handler.py:57 | `" - v"` for each value, in order |
| RelationHandling.RelationHandler.constructor | anyblock_exporter/relation_handler.py:7-13 | the corpus and settings are kept and the cache starts empty |
| RelationHandling.RelationHandler.GetRelationInfo | anyblock_exporter/relation_handler.py:86-96 | the first descriptor's details or `{}`; a hit is cached, a miss is not; the cache only ever holds first-descriptor details |
| RelationHandling.RelationHandler.RelationHasOptions | anyblock_exporter/relation_handler.py:75-84 | decided by the first matching descriptor: false iff its format equals 0; false with no match |
| RelationHandling.RelationHandler.GetRelationOptionName | anyblock_exporter/relation_handler.py:98-103 | the first matching option's name (its id when unnamed), else `str(id)` |
| RelationHandling.RelationHandler.ConvertTimestampIfApplicable | anyblock_exporter/relation_handler.py:15-26 | the decoded date and true, or the option name and false |
| RelationHandling.RelationHandler.FormatRelationValue | anyblock_exporter/relation_handler.py:62-73 | a date is never wrapped; other values are wrapped `"[[v]]"` iff mode `all`, or `select` with options |
| RelationHandling.RelationHandler.FormatRelationValues | anyblock_exporter/relation_handler.py:44 | the list formatted item by item, in order |
| RelationHandling.RelationHandler.RelationStrings | anyblock_exporter/relation_handler.py:43-48 | lists element by element, booleans `Yes`/`No`, other values as one formatted value |
| RelationHandling.RelationHandler.CollectKey | anyblock_exporter/relation_handler.py:34-48 | one pass of the first loop: skip, assign, or stop with the `TypeError` of a list-valued name, carrying the loop invariant |
| RelationHandling.RelationHandler.ExtractRelations | anyblock_exporter/relation_handler.py:28-60 | the lines, failure flag and cache are those of the specification: the dictionary built key by key, then formatted entry by entry |
| RelationHandling.CollectStep | anyblock_exporter/relation_handler.py:33-48 | one key of the loop: ignored, absent/None, list-named (raises) or assigned, with the cache lookup in between |
| RelationHandling.FormatBullets | anyblock_exporter/relation_handler.py:57 | the bullet lines of the values |
| RelationHandling.FormatEntry | anyblock_exporter/relation_handler.py:53-57 | the lines of one entry |
| RelationHandling.FormatRelations | anyblock_exporter/relation_handler.py:51-57 | the lines of every entry, in dictionary order |
| RelationHandling.LinesFrom | anyblock_exporter/relation_handler.py:52-57 | the lines from entry j are that entry's, then the rest |
| RelationHandling.BulletsSnoc | anyblock_exporter/relation_handler.py:57 | one more value adds one more bullet at the end |
| RelationHandling.FindEntryUpdate | anyblock_exporter/relation_handler.py:44-48 | overwriting an entry's values moves no lookup |
| RelationHandling.FindEntryAppend | anyblock_exporter/relation_handler.py:44-48 | a new entry is found only when no earlier one matches |
| RelationHandling.FindEntryEquivalent | anyblock_exporter/relation_handler.py:44-48 | keys Python considers equal find the same entry |
| RelationHandling.AssignLookup | anyblock_exporter/relation_handler.py:44-48 | after assignment, the key and every key equal to it read the new values; every other key reads what it read before |
| RelationHandling.AssignDistinct | anyblock_exporter/relation_handler.py:44-48 | assignment keeps the keys distinct |
| RelationHandling.AssignTwice | anyblock_exporter/relation_handler.py:39-48 | two relations with one display name: the later values, at the first one's position |
| RelationHandling.LinesAppend | anyblock_exporter/relation_handler.py:51-57 | the lines of consecutive entries are each one's lines, in order |
| RelationHandling.CollectAfterSkipped | anyblock_exporter/relation_handler.py:33-48 | after an inserted key, the loop proceeds as it would without it |
| RelationHandling.CollectBeforeSkipped | anyblock_exporter/relation_handler.py:35-42 | reaching an ignored or valueless key leaves the outcome as if it were absent |
| RelationHandling.SkippedKeyContributesNothing | anyblock_exporter/relation_handler.py:35-42 | an ignored key, or one whose value is absent or None, adds no line wherever it sits |
| RelationHandling.CollectIgnoresCache | anyblock_exporter/relation_handler.py:86-93 | the lines do not depend on the cache's prior content |
| RelationHandling.LinesNotDelimiter | anyblock_exporter/relation_handler.py:52-57 | no relation line is `---`, so the frontmatter ends where the relations do |
| RelationHandling.TimestampDays | anyblock_exporter/relation_handler.py:17-19 | a ten-character integer gives between -11575 and 115740 days |
| RelationHandling.LegacyDateDecoded | anyblock_exporter/relation_handler.py:19-23 | the shift never overflows; decoding fails exactly on 29 February; otherwise the result is the day before the same date 31 years earlier, in a four-digit year |
| RelationHandling.TimestampDecoding | anyblock_exporter/relation_handler.py:15-26 | decoded iff decoding is on, `str(v)` has ten characters and the shifted date is not 29 February; a date is `YYYY-MM-DD`; anything else is the option name |
| RelationHandling.LegacyDateExample | anyblock_exporter/relation_handler.py:19-21 | 11574 days decode to 2001-09-08 |
| RelationHandling.DecodeExample | anyblock_exporter/relation_handler.py:15-23 | `1000000000` decodes to `2001-09-08` |
| RelationHandling.FormatDateExample | anyblock_exporter/relation_handler.py:23 | 2001-09-08 formats as `2001-09-08` |
| RelationHandling.LeapDayFallsBack | anyblock_exporter/relation_handler.py:21-26 | `1109548800` lands on 2036-02-29, so it falls back to the option lookup |
| Calendar.DaysBeforeYearStep | anyblock_exporter/relation_handler.py:20-21 | the days before year y+1 are those before y plus the days of y |
| Calendar.DaysBeforeYearMonotone | anyblock_exporter/relation_handler.py:20-21 | later years start at least 365 days per year later |
| Calendar.DaysBeforeMonthBounds | anyblock_exporter/relation_handler.py:20-21 | a month ends within its year, December at its end |
| Calendar.MonthOfCorrect | anyblock_exporter/relation_handler.py:20-21 | the month scan lands on a valid day at the right distance from the year's start |
| Calendar.CycleDays | anyblock_exporter/relation_handler.py:20-21 | the days before a year are 146097, 36524, 1461 and 365 per 400-, 100-, 4- and one-year cycle |
| Calendar.Cycles | anyblock_exporter/relation_handler.py:20-21 | an ordinal splits into cycle counts and a day of the year, within their bounds |
| Calendar.FromCyclesCorrect | anyblock_exporter/relation_handler.py:20-21 | the date built from the cycles is valid and has the right ordinal |
| Calendar.FromOrdinalCorrect | anyblock_exporter/relation_handler.py:20-21 | `fromordinal(n)` is a valid date whose ordinal is n |
| Calendar.ToOrdinalRange | anyblock_exporter/relation_handler.py:20-21 | a date's ordinal lies within its year and within years 1 to 9999 |
| Calendar.ToOrdinalInjective | anyblock_exporter/relation_handler.py:20-21 | distinct dates have distinct ordinals |
| Calendar.OrdinalRoundTrip | anyblock_exporter/relation_handler.py:20-21 | every valid date comes back from its ordinal |
| Calendar.AddDaysCorrect | anyblock_exporter/relation_handler.py:20-21 | adding k days moves the ordinal by exactly k and fails exactly when that leaves the representable range |
| Calendar.AddDaysValid | anyblock_exporter/relation_handler.py:20-21 | a date produced by adding days is valid |
| Calendar.LeapYearBack31 | anyblock_exporter/relation_handler.py:21 | no leap year is followed, 31 years back, by a leap year |
| Calendar.ReplaceYearBack31 | anyblock_exporter/relation_handler.py:21 | moving a date 31 years back fails exactly on 29 February and otherwise keeps month and day |
| Calendar.YearAtLeast | anyblock_exporter/relation_handler.py:20-21 | a date past the start of year y is in year y or later |
| Calendar.FormatDateShape | anyblock_exporter/relation_handler.py:23 | a four-digit-year date formats as ten characters with dashes at 4 and 7 |
| PyText.IndexOf | anyblock_exporter/converter.py:176 | the first position holding the character |
| PyText.Split | anyblock_exporter/converter.py:176 | at least one part, none holding the separator |
| PyText.SplitJoin | anyblock_exporter/block_converter.py:54 | splitting a join of separator-free parts gives the parts back |
| PyText.SplitConcatLines | anyblock_exporter/converter.py:130-136 | text built line by line splits into those lines and one empty remainder |
| PyText.JoinSplit | anyblock_exporter/converter.py:176-190 | joining a split on its separator gives the text back |
| PyText.JoinAppend | anyblock_exporter/converter.py:190 | a join of two lists is the two joins around one separator |
| PyText.JoinConcatLines | anyblock_exporter/converter.py:190 | lines joined by newlines plus a newline are the lines each followed by one |
| PyText.SplitConcatLinesThen | anyblock_exporter/converter.py:176 | lines built line by line come first when split |
| PyText.RStrip | anyblock_exporter/converter.py:157 | a prefix of the string whose removed tail is all whitespace and whose end is not |
| PyText.Repeat | anyblock_exporter/block_converter.py:59 | n copies, empty for n <= 0 |
| PyText.PyIndex | anyblock_exporter/utils.py:34 | a slice bound normalised into the string, unchanged when already inside |
| PyText.NatToString | anyblock_exporter/block_converter.py:59 | a non-empty string of decimal digits |
| PyText.NatToStringLength | anyblock_exporter/relation_handler.py:17 | `str(n)` has at most k digits exactly when n < 10^k |
| PyText.TenCharacters | anyblock_exporter/relation_handler.py:17 | `str(i)` has ten characters exactly for 10^9..10^10-1 and -999999999..-100000000 |
| PyText.ZeroPad | anyblock_exporter/relation_handler.py:23 | at least the requested width |
| Converter.MainContents | anyblock_exporter/converter.py:82-86 | exactly the objects with `sbType == 'Page'`, all of them, none from elsewhere |
| Converter.MainContentsAppend | anyblock_exporter/converter.py:83 | the selection keeps the corpus order |
| Converter.CompiledLines | anyblock_exporter/converter.py:130-139 | a compiled page is `---`, one line per relation, `---`, an empty line, then the body |
| Converter.SafeNameShape | anyblock_exporter/converter.py:148-161 | the name ends in `.md` (any case), has at most 153 characters, and is cut exactly when the title exceeds 150 |
| Converter.MdSuffixAdded | anyblock_exporter/converter.py:160-161 | adding `.md` gives the suffix |
| Converter.SafeNameChars | anyblock_exporter/converter.py:151-161 | before the suffix only allowed characters; uncut it is the sanitised title, with `.md` added if missing; cut it starts with the first 150 characters right-stripped |
| Converter.CutName | anyblock_exporter/converter.py:154-161 | the cut, stripped, suffixed name keeps the original characters at their positions |
| Converter.BlankNameIsUntitled | anyblock_exporter/converter.py:148-161 | a blank name is written as `untitled.md` and is not cut |
| Converter.UntitledKept | anyblock_exporter/converter.py:149-151 | `untitled` survives sanitising |
| Converter.LastDot | anyblock_exporter/converter.py:168 | the position of the last dot, or no dot at all |
| Converter.SplitExtParts | anyblock_exporter/converter.py:168 | root and extension make up the name; the extension is empty or one dot and no other |
| Converter.MdExtension | anyblock_exporter/converter.py:168 | a name ending in `.md` after a non-dot keeps `.md` as its extension |
| Converter.FreeNameCorrect | anyblock_exporter/converter.py:166-173 | the chosen name does not exist and all earlier tries do; the loop gives up exactly when the name and its 999 renamings exist |
| Converter.FreeCounter | anyblock_exporter/converter.py:166-173 | the first free counter up to 999, with every earlier one taken, or none free |
| Converter.FreeCounterFrom | anyblock_exporter/converter.py:166-173 | the counter the loop stops at is the first free one |
| Converter.ThousandthCandidateNeverTried | anyblock_exporter/converter.py:169-173 | `name-1000.ext` is built but the loop gives up before checking it |
| Converter.DotNameCandidate | anyblock_exporter/converter.py:168-169 | `.md` has no extension, so its first renaming is `.md-1` |
| Converter.IndexFrom | anyblock_exporter/converter.py:179 | the first `---` line at or after the start, or none |
| Converter.KeptLines | anyblock_exporter/converter.py:183 | no `title:`/`original_filename:` line remains, every other line is kept, and nothing changes when none is present |
| Converter.RewriteKeepsFrontmatter | anyblock_exporter/converter.py:176-190 | a frontmatter of at least one line, without such lines, whose closing `---` is followed by at least one more line, is unchanged when the name was not cut |
| Converter.UnclosedFrontmatterUnchanged | anyblock_exporter/converter.py:177-193 | content opening with `---` and no closing line is unchanged, even when cut |
| Converter.TruncatedTitleFirst | anyblock_exporter/converter.py:183-190 | when cut, the frontmatter starts with `title: <name>` and holds no other title line |
| Converter.FrontmatterBlock | anyblock_exporter/converter.py:179-180 | between a leading `---` and the next one lie exactly the frontmatter lines |
| Converter.CompiledPageKept | anyblock_exporter/converter.py:176-190 | a compiled page with relations and no title line is written exactly as compiled when not cut |
| Converter.EmptyFrontmatterGainsBlankLine | anyblock_exporter/converter.py:176-190 | a page without relations gains a blank line between its delimiters |
| Converter.OutputFresh | anyblock_exporter/converter.py:163-196 | the file written never exists yet; the safe name is used when free; nothing is written only when all 1000 names exist; content without frontmatter is unchanged unless cut |
| Converter.AnytypeConverter.constructor | anyblock_exporter/converter.py:19-26 | a fresh resolver over the corpus with an empty cache and a fresh empty attachment registry |
| Converter.AnytypeConverter.CompileMarkdown | anyblock_exporter/converter.py:125-141 | the text, failure and registry are those of the specification: frontmatter of the relation lines, then the rendered blocks (none when absent); the relation cache ends as the relation walk leaves it |
| Converter.AnytypeConverter.WriteMarkdownFile | anyblock_exporter/converter.py:143-196 | the name and content written are those of `Output` |
| Converter.FrontmatterText | anyblock_exporter/converter.py:130-136 | `---`, each relation and a newline, then `---` and a blank line |
| Converter.ChooseFileName | anyblock_exporter/converter.py:166-173 | the collision loop picks the name `FreeName` specifies |
| Converter.RewriteContent | anyblock_exporter/converter.py:175-196 | the content written is the specified frontmatter rewrite |

## Left out

- `read_json_files` and `process_all_files` (converter.py:28-79, 219-234): directory walking, encoding detection, JSON parsing, progress output and the per-page exception logging. The model starts from a parsed corpus.
- `extract_creation_date` (converter.py:88-98): `datetime.fromtimestamp` depends on the local time zone.
- `process_nested_blocks` and `has_descendants` (converter.py:100-123): never called. The first passes too few arguments to `convert_block_to_markdown`. The second recurses without bound on cyclic child lists.
- `copy_all_files` (file_handler.py:23-30): the copying is file I/O. Only the destination name it builds is modelled. The model builds each record's destination on its own, so it does not show that the `KeyError` of a record without a name also stops the loop, and later attachments are not copied.
- The file I/O of `write_markdown_file`: `os.makedirs`, `open`/`write`, and the fallback to `untitled.md` after a write error (converter.py:201-217). `os.path.exists` becomes the parameter `existing`. Names are relative to the output folder.
- The shadowed first `sanitize_filename` (utils.py:8-19): it is never in effect.
- Logging, the configuration file and the command line. The settings are constructor parameters.
- Python's Unicode `\w` class, which is the parameter `isWord`. The model assumes only that it contains the ASCII letters and digits.
- `lower()` in the `.md` test is modelled on the letters `m`/`M` and `d`/`D` only.
- `os.path.splitext` is modelled for names without directory separators, the only kind the sanitiser leaves.
- Floats and nested dictionaries among metadata values: values are None, booleans, integers, strings and lists of these. The float branch of the timestamp test is therefore absent.
- Corpus.Repr: non-ASCII characters are copied unchanged. Python's `repr` escapes the non-printable ones (`\x`, `\u`, `\U`), and that needs Unicode's printability table.
- A `KeyError` from a missing key the source reads with `[]` (a mark's `range` or `type`, a relation link's `key`, a snapshot's `details`): the model's records always hold those fields.
- A `None` text style (a present but null `style` key), on which `.startswith` raises: absent and null both read as `Paragraph`.
- A present JSON `null` in any other field the source reads with `.get(key, default)`: the model's records have no null, so such a field can only be absent, and its default then applies. Python does not use the default for a present `null`. The model therefore does not show these cases:
  - a null file `name` (file_handler.py:14) links `attachments/<hash>_None`, and line 26 copies to `<hash>_None` without a `KeyError`;
  - a null `fields.lang` (block_converter.py:85) opens the code fence as ```` ```None ````;
  - a null column `name` or cell `content` (utils.py:58, 64) makes `"|".join` raise `TypeError`;
  - a null `layout`, `text`, `marks` or `childrenIds` (block_converter.py:9, 29, 47) raises `AttributeError` or `TypeError`.
- `int()` of a header's last character accepts Unicode decimal digits. The model accepts only `0`-`9` and raises on the rest.
- Python's Timsort is modelled as a stable insertion sort. Only its result, not its order of comparisons, is observable.
- `strftime` of years below 1000: the legacy decoding never reaches them (`LegacyDateDecoded`), and `FormatDate` zero-pads to four digits.
- Calendar.AddDays: no lemma composes two shifts (`d + j + k`). `AddDaysCorrect` with `OrdinalRoundTrip` determines every result by its ordinal.

## Findings

| source | as written | input that shows it | evidently intended | confidence | as-written member | corrected member |
|---|---|---|---|---|---|---|
| anyblock_exporter/file_handler.py:14-26 | `handle_file_attachment` defaults a missing name to `unnamed_file` and links `attachments/<hash>_unnamed_file`, but `copy_all_files` reads `file_info['name']` directly | a file record `{hash: "h"}` with no `name` | the copy uses the same default name, so the link points at the copied file | not executed | FileHandling.CopyDestinationAsWritten | FileHandling.LinkTargetsCopyDestination |
