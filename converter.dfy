/**
 * The document assembly of `anyblock_exporter/converter.py`: choosing the pages of the corpus,
 * compiling a page into frontmatter and body, and the pure part of writing it out (the file-name
 * rules, the collision renaming against the names that already exist, and the frontmatter rewrite).
 */
module Converter {
  import opened Wrappers
  import opened PyText
  import opened Utils
  import opened FileHandling
  import opened BlockConverter
  import opened Corpus
  import opened RelationHandling

  // ----- `identify_main_content_files` -----

  /** The objects whose `sbType` equals `'Page'`, in corpus order. */
  function MainContents(objs: seq<CorpusObject>): (r: seq<CorpusObject>)
    ensures forall k :: 0 <= k < |r| ==> HasType(r[k], "Page")
    ensures forall o :: o in objs && HasType(o, "Page") ==> o in r
    ensures forall o :: o in r ==> o in objs
  {
    if |objs| == 0 then []
    else (if HasType(objs[0], "Page") then [objs[0]] else []) + MainContents(objs[1..])
  }

  /** The selection is made object by object, so it keeps the corpus order. */
  lemma {:induction false} MainContentsAppend(a: seq<CorpusObject>, b: seq<CorpusObject>)
    ensures MainContents(a + b) == MainContents(a) + MainContents(b)
  {
    if |a| == 0 {
      assert a + b == b;
    } else {
      assert (a + b)[1..] == a[1..] + b;
      MainContentsAppend(a[1..], b);
    }
  }

  // ----- `compile_markdown` -----

  /** A compiled page, the attachment registry it leaves, and whether compiling raised. */
  datatype Compiled = Compiled(md: string, files: map<string, FileInfo>, failed: bool)

  /** `data.get('blocks', [])`. */
  function BlocksOf(obj: CorpusObject): seq<Block>
  {
    if obj.blocks.Some? then obj.blocks.value else []
  }

  /** `compile_markdown`: the relation lines between `---` delimiters, a blank line, then the
      rendered blocks. The blocks are not rendered when extracting the relations raised. */
  function Compile(corpus: seq<CorpusObject>, cfg: Config, obj: CorpusObject, files: map<string, FileInfo>): Compiled
  {
    match Relations(corpus, cfg, obj)
    case None => Compiled("", files, true)
    case Some(lines) =>
      var o := BlocksMarkdown(BlocksOf(obj), files);
      if o.failed then Compiled("", o.st.files, true)
      else Compiled("---\n" + ConcatLines(lines) + "---\n\n" + o.md, o.st.files, false)
  }

  /** The compiled text regrouped around its newlines. */
  lemma CompiledText(relations: string, body: string)
    ensures "---\n" + relations + "---\n\n" + body == "---" + "\n" + (relations + ("---" + "\n" + ("" + "\n" + body)))
  {
    assert "---\n\n" == "---" + "\n" + "\n";
    assert "" + "\n" + body == "\n" + body;
  }

  /** A compiled page splits into `---`, its relation lines, `---`, an empty line, then the body. */
  lemma CompiledLines(lines: seq<string>, body: string)
    requires NoNewlines(lines)
    ensures Split("---\n" + ConcatLines(lines) + "---\n\n" + body, '\n') ==
      ["---"] + (lines + (["---"] + ([""] + Split(body, '\n'))))
  {
    var t3 := "" + "\n" + body;
    SplitStep("", '\n', body);
    var t2 := "---" + "\n" + t3;
    SplitStep("---", '\n', t3);
    var t1 := ConcatLines(lines) + t2;
    SplitConcatLinesThen(lines, t2);
    SplitStep("---", '\n', t1);
    CompiledText(ConcatLines(lines), body);
    var md := "---\n" + ConcatLines(lines) + "---\n\n" + body;
    assert md == "---" + "\n" + t1;
    assert Split(md, '\n') == ["---"] + Split(t1, '\n');
  }

  // ----- the file name in `write_markdown_file` -----

  const MaxFilenameLength := 150

  /** `name.lower().endswith('.md')`, comparing the ASCII letters `m` and `d` without case. */
  predicate HasMdSuffix(s: string)
  {
    |s| >= 3 && s[|s| - 3] == '.' && (s[|s| - 2] == 'm' || s[|s| - 2] == 'M') && (s[|s| - 1] == 'd' || s[|s| - 1] == 'D')
  }

  /** The name the page is titled with: a blank name becomes `untitled`. */
  function TitleOf(filename: string): string
  {
    if IsBlank(filename) then "untitled" else filename
  }

  /** The sanitised file name before collisions are resolved, and whether it was cut. */
  datatype SafeName = SafeName(name: string, truncated: bool)

  function MakeSafeName(isWord: char -> bool, filename: string): SafeName
  {
    var s := SanitizeFilename(isWord, TitleOf(filename));
    var truncated := |s| > MaxFilenameLength;
    var t := if truncated then RStrip(s[..MaxFilenameLength]) else s;
    SafeName(if HasMdSuffix(t) then t else t + ".md", truncated)
  }

  /** The sanitised name ends in `.md`, is at most 153 characters, and is cut exactly when the
      title is longer than 150 characters. */
  lemma SafeNameShape(isWord: char -> bool, filename: string)
    ensures var b := MakeSafeName(isWord, filename);
      HasMdSuffix(b.name) && |b.name| <= MaxFilenameLength + 3 &&
      (b.truncated <==> |TitleOf(filename)| > MaxFilenameLength)
  {
    var s := SanitizeFilename(isWord, TitleOf(filename));
    var t := if |s| > MaxFilenameLength then RStrip(s[..MaxFilenameLength]) else s;
    assert |t| <= MaxFilenameLength || t == s;
    MdSuffixAdded(t);
  }

  /** Adding `.md` to a name gives it the suffix. */
  lemma MdSuffixAdded(t: string)
    ensures HasMdSuffix(t + ".md")
  {
    var u := t + ".md";
    assert u[|u| - 3] == '.' && u[|u| - 2] == 'm' && u[|u| - 1] == 'd';
  }

  /** Before its `.md` suffix, the sanitised name holds only characters the sanitiser keeps; it is
      the sanitised title, or that with `.md` added, when not cut, and starts with the first
      150 characters of it, trailing whitespace removed, when cut. */
  lemma SafeNameChars(isWord: char -> bool, filename: string)
    ensures var b := MakeSafeName(isWord, filename);
      var s := SanitizeFilename(isWord, TitleOf(filename));
      (forall k :: 0 <= k < |b.name| - 3 ==> KeptInFilename(isWord, b.name[k])) &&
      (!b.truncated ==> b.name == s || b.name == s + ".md") &&
      (b.truncated ==> StartsWith(b.name, RStrip(s[..MaxFilenameLength])))
  {
    var s := SanitizeFilename(isWord, TitleOf(filename));
    var t := if |s| > MaxFilenameLength then RStrip(s[..MaxFilenameLength]) else s;
    var b := MakeSafeName(isWord, filename);
    assert b.name == (if HasMdSuffix(t) then t else t + ".md") && b.truncated == (|s| > MaxFilenameLength);
    CutName(s);
    forall k | 0 <= k < |b.name| - 3
      ensures KeptInFilename(isWord, b.name[k])
    {
      assert b.name[k] == s[k];
    }
  }

  /** The name cut to 150 characters, trailing whitespace removed, `.md` added when missing: its
      characters before the suffix come from the name at the same positions. */
  lemma CutName(s: string)
    ensures var t := if |s| > MaxFilenameLength then RStrip(s[..MaxFilenameLength]) else s;
      var name := if HasMdSuffix(t) then t else t + ".md";
      (forall k :: 0 <= k < |name| - 3 ==> k < |s| && name[k] == s[k]) &&
      (|s| <= MaxFilenameLength ==> name == s || name == s + ".md") &&
      (|s| > MaxFilenameLength ==> StartsWith(name, RStrip(s[..MaxFilenameLength])))
  {
    var t := if |s| > MaxFilenameLength then RStrip(s[..MaxFilenameLength]) else s;
    var name := if HasMdSuffix(t) then t else t + ".md";
    assert |t| <= |s| && forall k :: 0 <= k < |t| ==> t[k] == s[k];
    assert name[..|t|] == t;
  }

  /** A blank name is written as `untitled.md`. */
  lemma BlankNameIsUntitled(isWord: char -> bool, filename: string)
    requires AsciiWord(isWord) && IsBlank(filename)
    ensures MakeSafeName(isWord, filename) == SafeName("untitled.md", false)
  {
    assert TitleOf(filename) == "untitled";
    UntitledKept(isWord);
    var s := SanitizeFilename(isWord, "untitled");
    assert s == "untitled";
    assert !HasMdSuffix(s) by {
      assert s[5] == 'l';
    }
    UntitledMd();
  }

  lemma UntitledMd()
    ensures "untitled" + ".md" == "untitled.md"
  {
  }

  /** `untitled` is made of letters only, so the sanitiser leaves it alone. */
  lemma UntitledKept(isWord: char -> bool)
    requires AsciiWord(isWord)
    ensures SanitizeFilename(isWord, "untitled") == "untitled"
  {
    var u := "untitled";
    forall k | 0 <= k < |u|
      ensures KeptInFilename(isWord, u[k])
    {
      assert 'a' <= u[k] <= 'z';
    }
    SanitizeKept(isWord, u);
  }

  // ----- collision renaming -----

  /** The position of the last `.` in `s`. */
  function LastDot(s: string): (r: Option<nat>)
    ensures r.Some? ==> r.value < |s| && s[r.value] == '.' && forall k :: r.value < k < |s| ==> s[k] != '.'
    ensures r.None? ==> forall k :: 0 <= k < |s| ==> s[k] != '.'
  {
    if |s| == 0 then None
    else if s[|s| - 1] == '.' then Some(|s| - 1)
    else LastDot(s[..|s| - 1])
  }

  /** `os.path.splitext` of a name without directory separators: split before the last dot,
      unless only dots precede it. */
  function SplitExt(s: string): (string, string)
  {
    match LastDot(s)
    case None => (s, "")
    case Some(d) => if forall k :: 0 <= k < d ==> s[k] == '.' then (s, "") else (s[..d], s[d..])
  }

  /** The root and the extension make up the name; the extension is empty or a dot followed by
      no other dot, and a non-empty extension follows a root not made only of dots. */
  lemma SplitExtParts(s: string)
    ensures var (root, ext) := SplitExt(s);
      root + ext == s &&
      (ext == "" || (ext[0] == '.' && (forall k :: 0 < k < |ext| ==> ext[k] != '.') && exists k :: 0 <= k < |root| && root[k] != '.'))
  {
    match LastDot(s)
    case None =>
    case Some(d) =>
      if !forall k :: 0 <= k < d ==> s[k] == '.' {
        var k :| 0 <= k < d && s[k] != '.';
        assert s[..d][k] != '.';
        assert s[..d] + s[d..] == s;
      }
  }

  /** A name ending in `.md` after something other than dots keeps `.md` as its extension. */
  lemma MdExtension(s: string)
    requires HasMdSuffix(s) && exists k :: 0 <= k < |s| - 3 && s[k] != '.'
    ensures SplitExt(s) == (s[..|s| - 3], s[|s| - 3..])
  {
    assert LastDot(s[..|s| - 1]) == LastDot(s[..|s| - 2]);
    assert LastDot(s) == Some(|s| - 3);
  }

  /** `f"{name}-{counter}{ext}"`. */
  function Candidate(safe: string, counter: nat): string
  {
    var (root, ext) := SplitExt(safe);
    root + "-" + NatToString(counter) + ext
  }

  /** The first counter from `k` to 999 whose candidate does not exist yet. */
  function FreeCounter(safe: string, existing: set<string>, k: nat): (r: Option<nat>)
    requires 1 <= k <= 1000
    ensures r.Some? ==> k <= r.value <= 999 && Candidate(safe, r.value) !in existing
    ensures r.Some? ==> forall i :: k <= i < r.value ==> Candidate(safe, i) in existing
    ensures r.None? ==> forall i :: k <= i <= 999 ==> Candidate(safe, i) in existing
    decreases 1000 - k
  {
    if k == 1000 then None
    else if Candidate(safe, k) !in existing then Some(k)
    else FreeCounter(safe, existing, k + 1)
  }

  /** The path the collision loop settles on: the name itself, else the first free candidate
      `name-1.ext` .. `name-999.ext`; `None` when the loop gives up. */
  function FreeName(safe: string, existing: set<string>): Option<string>
  {
    if safe !in existing then Some(safe)
    else match FreeCounter(safe, existing, 1)
      case Some(k) => Some(Candidate(safe, k))
      case None => None
  }

  /** The chosen name does not exist yet, and every name tried before it does; the loop gives
      up exactly when the name and all 999 candidates exist. */
  lemma FreeNameCorrect(safe: string, existing: set<string>)
    ensures FreeName(safe, existing).Some? ==> FreeName(safe, existing).value !in existing
    ensures FreeName(safe, existing) == Some(safe) <==> safe !in existing
    ensures FreeName(safe, existing).Some? && safe in existing ==>
      exists k :: 1 <= k <= 999 && FreeName(safe, existing).value == Candidate(safe, k) &&
        forall i :: 1 <= i < k ==> Candidate(safe, i) in existing
    ensures FreeName(safe, existing).None? <==>
      safe in existing && forall i :: 1 <= i <= 999 ==> Candidate(safe, i) in existing
  {
    if safe in existing {
      forall k | 1 <= k
        ensures Candidate(safe, k) != safe
      {
        SplitExtParts(safe);
        var (root, ext) := SplitExt(safe);
        assert |Candidate(safe, k)| > |safe|;
      }
      match FreeCounter(safe, existing, 1)
      case Some(k) =>
        assert FreeName(safe, existing).value == Candidate(safe, k);
      case None =>
    }
  }

  /** The counter the loop stops at is the one the search finds: every earlier candidate from
      `k` on exists, and candidate `c` is the first that does not, or all up to 999 exist. */
  lemma {:induction false} FreeCounterFrom(safe: string, existing: set<string>, k: nat, c: nat)
    requires 1 <= k <= c <= 1000
    requires forall i :: k <= i < c ==> Candidate(safe, i) in existing
    requires c == 1000 || Candidate(safe, c) !in existing
    ensures FreeCounter(safe, existing, k) == if c == 1000 then None else Some(c)
    decreases c - k
  {
    if k < c {
      assert Candidate(safe, k) in existing;
      FreeCounterFrom(safe, existing, k + 1, c);
    }
  }

  /** The loop stops after `name-999.ext`: `name-1000.ext` is built but never looked at. */
  lemma ThousandthCandidateNeverTried(safe: string, existing: set<string>)
    requires safe in existing && forall i :: 1 <= i <= 999 ==> Candidate(safe, i) in existing
    ensures FreeName(safe, existing) == None
  {
    FreeNameCorrect(safe, existing);
  }

  /** A name made only of dots and `.md` has no extension, so its candidates lose the suffix:
      `.md` is renamed `.md-1`. */
  lemma DotNameCandidate()
    ensures SplitExt(".md") == (".md", "") && Candidate(".md", 1) == ".md-1"
  {
    assert LastDot(".md") == Some(0);
  }

  // ----- the frontmatter rewrite -----

  /** `content_lines.index('---', start)`: the first position at or after `start` holding `x`. */
  function IndexFrom(lines: seq<string>, x: string, start: nat): (r: Option<nat>)
    requires start <= |lines|
    ensures r.Some? ==> start <= r.value < |lines| && lines[r.value] == x
    ensures r.Some? ==> forall k :: start <= k < r.value ==> lines[k] != x
    ensures r.None? ==> forall k :: start <= k < |lines| ==> lines[k] != x
    decreases |lines| - start
  {
    if start == |lines| then None
    else if lines[start] == x then Some(start)
    else IndexFrom(lines, x, start + 1)
  }

  /** A frontmatter line the rewrite removes. */
  predicate Dropped(line: string)
  {
    StartsWith(line, "title:") || StartsWith(line, "original_filename:")
  }

  /** The frontmatter lines that survive, in order. */
  function KeptLines(lines: seq<string>): (r: seq<string>)
    ensures forall k :: 0 <= k < |r| ==> !Dropped(r[k])
    ensures forall x :: x in r <==> x in lines && !Dropped(x)
    ensures (forall k :: 0 <= k < |lines| ==> !Dropped(lines[k])) ==> r == lines
  {
    if |lines| == 0 then []
    else (if Dropped(lines[0]) then [] else [lines[0]]) + KeptLines(lines[1..])
  }

  /** The frontmatter after the rewrite: `title: <name>` first when the name was cut. */
  function NewFrontmatter(lines: seq<string>, title: string, truncated: bool): seq<string>
  {
    (if truncated then ["title: " + title] else []) + KeptLines(lines)
  }

  /** The content `write_markdown_file` writes. Content opening with `---` has the lines up to the
      next `---` line rewritten, or is left alone when there is none; other content gains a
      title-only frontmatter when the name was cut. */
  function RewriteFrontmatter(content: string, title: string, truncated: bool): string
  {
    var lines := Split(content, '\n');
    if StartsWith(content, "---") then
      match IndexFrom(lines, "---", 1)
      case None => content
      case Some(e) =>
        "---\n" + Join("\n", NewFrontmatter(lines[1..e], title, truncated)) + "\n---\n" + Join("\n", lines[e + 1..])
    else if truncated then "---\ntitle: " + title + "\n---\n\n" + content
    else content
  }

  /** The rewritten text regrouped around its newlines. */
  lemma RewrittenText(fm: string, rest: string)
    ensures "---\n" + fm + "\n---\n" + rest == "---" + "\n" + (fm + "\n" + ("---" + "\n" + rest))
  {
    assert "\n---\n" == "\n" + "---" + "\n";
  }

  /** The lines joined back: the first line, the frontmatter, the closing line, the rest. */
  lemma JoinFrontmatter(first: string, fm: seq<string>, close: string, rest: seq<string>)
    requires |fm| >= 1 && |rest| >= 1
    ensures Join("\n", [first] + (fm + ([close] + rest))) == first + "\n" + (Join("\n", fm) + "\n" + (close + "\n" + Join("\n", rest)))
  {
    JoinAppend("\n", [close], rest);
    JoinAppend("\n", fm, [close] + rest);
    JoinAppend("\n", [first], fm + ([close] + rest));
  }

  /** A frontmatter of at least one line, none of them `title:` or `original_filename:`, that a
      `---` line closes before the last line, is left exactly as it was when the name was not cut. */
  lemma RewriteKeepsFrontmatter(content: string, title: string)
    requires var lines := Split(content, '\n');
      lines[0] == "---" && IndexFrom(lines, "---", 1).Some? &&
      var e := IndexFrom(lines, "---", 1).value;
      1 < e < |lines| - 1 && forall k :: 1 <= k < e ==> !Dropped(lines[k])
    ensures RewriteFrontmatter(content, title, false) == content
  {
    var lines := Split(content, '\n');
    var e := IndexFrom(lines, "---", 1).value;
    var fm, rest := lines[1..e], lines[e + 1..];
    var j, r := Join("\n", fm), Join("\n", rest);
    assert content == "---\n" + j + "\n---\n" + r by {
      LinesAround(lines, e);
      JoinSplit(content, '\n');
      assert "\n" == ['\n'];
      JoinFrontmatter("---", fm, "---", rest);
      RewrittenText(j, r);
    }
    assert StartsWith(content, "---") by {
      assert content[..3] == "---";
    }
    AllKept(lines, e, title);
  }

  /** A list of lines cut around two positions: the first line, the lines between, the line at `e`
      and the rest. */
  lemma LinesAround(lines: seq<string>, e: nat)
    requires 0 < e < |lines|
    ensures lines == [lines[0]] + (lines[1..e] + ([lines[e]] + lines[e + 1..]))
  {
    assert lines[1..] == lines[1..e] + ([lines[e]] + lines[e + 1..]);
  }

  /** Frontmatter lines none of which is dropped are kept as they are, when the name was not cut. */
  lemma AllKept(lines: seq<string>, e: nat, title: string)
    requires 1 <= e <= |lines|
    requires forall k :: 1 <= k < e ==> !Dropped(lines[k])
    ensures NewFrontmatter(lines[1..e], title, false) == lines[1..e]
  {
    var fm := lines[1..e];
    assert forall k :: 0 <= k < |fm| ==> !Dropped(fm[k]) by {
      forall k | 0 <= k < |fm| ensures !Dropped(fm[k]) {
        assert fm[k] == lines[k + 1];
      }
    }
  }

  /** Content that opens with `---` but has no closing `---` line is written unchanged, even when
      the name was cut and the title would otherwise have been added. */
  lemma UnclosedFrontmatterUnchanged(content: string, title: string, truncated: bool)
    requires StartsWith(content, "---") && IndexFrom(Split(content, '\n'), "---", 1).None?
    ensures RewriteFrontmatter(content, title, truncated) == content
  {
  }

  /** When the name was cut, the rewritten frontmatter starts with the title line, and no other
      line of it is a `title:` or `original_filename:` line. */
  lemma TruncatedTitleFirst(content: string, title: string)
    requires StartsWith(content, "---") && IndexFrom(Split(content, '\n'), "---", 1).Some?
    requires '\n' !in title
    ensures var lines := Split(content, '\n');
      var e := IndexFrom(lines, "---", 1).value;
      var fm := NewFrontmatter(lines[1..e], title, true);
      fm[0] == "title: " + title && (forall k :: 1 <= k < |fm| ==> !Dropped(fm[k])) &&
      Split(RewriteFrontmatter(content, title, true), '\n')[1] == "title: " + title
  {
    var lines := Split(content, '\n');
    var e := IndexFrom(lines, "---", 1).value;
    var fm := NewFrontmatter(lines[1..e], title, true);
    var j, r := Join("\n", fm), Join("\n", lines[e + 1..]);
    var line := "title: " + title;
    assert '\n' !in line;
    assert RewriteFrontmatter(content, title, true) == "---\n" + j + "\n---\n" + r;
    var after := if |fm| == 1 then "---\n" + r else Join("\n", fm[1..]) + "\n---\n" + r;
    JoinFirstLine(fm, r);
    HeadLine(j, r, line + "\n" + after);
    SplitStep("---", '\n', line + "\n" + after);
    SplitStep(line, '\n', after);
    var w := Split(RewriteFrontmatter(content, title, true), '\n');
    assert w == ["---"] + ([line] + Split(after, '\n'));
  }

  /** Joined frontmatter lines followed by the closing delimiter, split after the first line. */
  lemma JoinFirstLine(fm: seq<string>, r: string)
    requires |fm| >= 1
    ensures Join("\n", fm) + "\n---\n" + r ==
      fm[0] + "\n" + (if |fm| == 1 then "---\n" + r else Join("\n", fm[1..]) + "\n---\n" + r)
  {
    if |fm| > 1 {
      assert Join("\n", fm) == fm[0] + "\n" + Join("\n", fm[1..]);
    }
  }

  /** Rewritten text whose frontmatter and rest read as `s`, regrouped after its first line. */
  lemma HeadLine(j: string, r: string, s: string)
    requires j + "\n---\n" + r == s
    ensures "---\n" + j + "\n---\n" + r == "---" + "\n" + s
  {
    assert "---\n" + j + "\n---\n" + r == "---\n" + (j + "\n---\n" + r);
  }

  /** Lines opening with `---`, then lines other than `---`, then `---`: the frontmatter is the
      lines in between. */
  lemma FrontmatterBlock(lines: seq<string>, rest: seq<string>)
    requires forall k :: 0 <= k < |lines| ==> lines[k] != "---"
    ensures var s := ["---"] + (lines + (["---"] + rest));
      s[0] == "---" && IndexFrom(s, "---", 1) == Some(|lines| + 1) &&
      |s| == |lines| + 2 + |rest| && s[1..|lines| + 1] == lines && s[|lines| + 2..] == rest
  {
    var s := ["---"] + (lines + (["---"] + rest));
    assert forall k :: 1 <= k < |lines| + 1 ==> s[k] == lines[k - 1];
    assert s[|lines| + 1] == "---";
    assert s[1..|lines| + 1] == lines;
    assert s[|lines| + 2..] == rest;
  }

  /** A compiled page with at least one relation, no relation line holding a newline and none
      titled `title` or `original_filename`, is written exactly as compiled when the name was not cut. */
  lemma CompiledPageKept(lines: seq<string>, entries: seq<Entry>, body: string, title: string)
    requires lines == Lines(entries) && |lines| >= 1 && NoNewlines(lines)
    requires forall k :: 0 <= k < |lines| ==> !Dropped(lines[k])
    ensures var md := "---\n" + ConcatLines(lines) + "---\n\n" + body;
      RewriteFrontmatter(md, title, false) == md
  {
    var md := "---\n" + ConcatLines(lines) + "---\n\n" + body;
    CompiledLines(lines, body);
    LinesNotDelimiter(entries);
    FrontmatterBlock(lines, [""] + Split(body, '\n'));
    RewriteKeepsFrontmatter(md, title);
  }

  lemma EmptyFrontmatterText(body: string)
    ensures "---\n" + "" + "\n---\n" + ("" + "\n" + body) == "---\n\n---\n\n" + body
  {
    assert "---\n" + "" + "\n---\n" + "\n" == "---\n\n---\n\n";
  }

  /** A compiled page without relations gains a blank line between its delimiters when written:
      `---\n---\n\n` becomes `---\n\n---\n\n`. */
  lemma EmptyFrontmatterGainsBlankLine(body: string, title: string)
    ensures RewriteFrontmatter("---\n" + ConcatLines([]) + "---\n\n" + body, title, false) == "---\n\n---\n\n" + body
  {
    var md := "---\n" + ConcatLines([]) + "---\n\n" + body;
    CompiledLines([], body);
    var rest := [""] + Split(body, '\n');
    FrontmatterBlock([], rest);
    assert [] + (["---"] + rest) == ["---"] + rest;
    CompiledText("", body);
    assert StartsWith(md, "---");
    JoinAppend("\n", [""], Split(body, '\n'));
    JoinSplit(body, '\n');
    assert "\n" == ['\n'];
    assert Join("\n", rest) == "" + "\n" + body;
    assert NewFrontmatter([], title, false) == [];
    EmptyFrontmatterText(body);
  }

  // ----- `write_markdown_file` -----

  /** The file a page is written to, relative to the output folder, and what it holds. */
  datatype Written = Written(fileName: string, content: string)

  /** What `write_markdown_file` writes, or `None` when the collision loop gives up. */
  function Output(isWord: char -> bool, content: string, filename: string, existing: set<string>): Option<Written>
  {
    var b := MakeSafeName(isWord, filename);
    match FreeName(b.name, existing)
    case None => None
    case Some(path) => Some(Written(path, RewriteFrontmatter(content, TitleOf(filename), b.truncated)))
  }

  /** A page is never written over an existing file: it goes to a `.md` name that does not exist
      yet, and nothing is written only when that name and all 999 renamings exist. Content
      without frontmatter is written as it is unless the name was cut. */
  lemma OutputFresh(isWord: char -> bool, content: string, filename: string, existing: set<string>)
    ensures var safe := MakeSafeName(isWord, filename);
      var o := Output(isWord, content, filename, existing);
      (o.Some? ==> o.value.fileName !in existing) &&
      (o.Some? && safe.name !in existing ==> o.value.fileName == safe.name && HasMdSuffix(o.value.fileName)) &&
      (o.None? <==> safe.name in existing && forall i :: 1 <= i <= 999 ==> Candidate(safe.name, i) in existing) &&
      (o.Some? && !StartsWith(content, "---") && !safe.truncated ==> o.value.content == content)
  {
    var safe := MakeSafeName(isWord, filename);
    FreeNameCorrect(safe.name, existing);
    SafeNameShape(isWord, filename);
  }

  /** The exporter: the corpus, its relation resolver and its attachment registry. */
  class AnytypeConverter {
    const relationHandler: RelationHandler
    const fileHandler: FileHandler
    const isWord: char -> bool

    ghost predicate Valid()
      reads this, relationHandler
    {
      relationHandler.Valid()
    }

    constructor(corpus: seq<CorpusObject>, cfg: Config, attachmentsFolder: string, isWord: char -> bool)
      ensures Valid() && fresh(relationHandler) && fresh(fileHandler) && this.isWord == isWord
      ensures relationHandler.corpus == corpus && relationHandler.Cfg() == cfg && relationHandler.relationCache == map[]
      ensures fileHandler.attachmentsFolder == attachmentsFolder && fileHandler.filesToCopy == map[]
    {
      relationHandler := new RelationHandler(corpus, cfg.decodeTimestamps, cfg.ignoredProperties, cfg.linkMode);
      fileHandler := new FileHandler(attachmentsFolder);
      this.isWord := isWord;
    }

    /** `compile_markdown`; `failed` reports an exception from the relations or the blocks. */
    method CompileMarkdown(obj: CorpusObject) returns (markdown: string, failed: bool)
      requires Valid()
      modifies relationHandler, fileHandler
      ensures Valid()
      ensures var c := Compile(relationHandler.corpus, relationHandler.Cfg(), obj, old(fileHandler.filesToCopy));
        markdown == c.md && failed == c.failed && fileHandler.filesToCopy == c.files
      ensures relationHandler.relationCache == Collect(relationHandler.corpus, relationHandler.Cfg(),
        obj.details, obj.relationLinks, 0, [], old(relationHandler.relationCache)).cache
    {
      ghost var corpus, cfg := relationHandler.corpus, relationHandler.Cfg();
      ghost var files := fileHandler.filesToCopy;
      ghost var cache := relationHandler.relationCache;
      ghost var x := Collect(corpus, cfg, obj.details, obj.relationLinks, 0, [], cache);
      var relations;
      relations, failed := relationHandler.ExtractRelations(obj);
      CollectIgnoresCache(corpus, cfg, obj.details, obj.relationLinks, 0, [], cache, map[]);
      ghost var rel := Relations(corpus, cfg, obj);
      assert rel == if x.failed then None else Some(Lines(x.entries));
      if failed {
        return "", true;
      }
      assert rel == Some(relations);
      var front := FrontmatterText(relations);
      var blocks := if obj.blocks.Some? then obj.blocks.value else [];
      assert blocks == BlocksOf(obj);
      var body;
      body, failed := ProcessBlocks(blocks, fileHandler);
      ghost var o := BlocksMarkdown(blocks, files);
      assert body == o.md && failed == o.failed && fileHandler.filesToCopy == o.st.files;
      if failed {
        return "", true;
      }
      markdown := front + body;
    }

    /** The pure part of `write_markdown_file`: the file name it picks among `existing` and the
        content it writes, or `None` when it gives up on a name. */
    method WriteMarkdownFile(content: string, filename: string, existing: set<string>) returns (r: Option<Written>)
      ensures r == Output(isWord, content, filename, existing)
    {
      var name := filename;
      if IsBlank(name) {
        name := "untitled";
      }
      var safe := SanitizeFilename(isWord, name);
      var isTruncated := |safe| > MaxFilenameLength;
      if isTruncated {
        safe := RStrip(safe[..MaxFilenameLength]);
      }
      if !HasMdSuffix(safe) {
        safe := safe + ".md";
      }
      var path := ChooseFileName(safe, existing);
      if path.None? {
        return None;
      }
      var result := RewriteContent(content, name, isTruncated);
      return Some(Written(path.value, result));
    }
  }

  /** The frontmatter `compile_markdown` writes: the delimiters around one line per relation,
      then an empty line. */
  method FrontmatterText(relations: seq<string>) returns (markdown: string)
    ensures markdown == "---\n" + ConcatLines(relations) + "---\n\n"
  {
    markdown := "---\n";
    for i := 0 to |relations|
      invariant markdown == "---\n" + ConcatLines(relations[..i])
    {
      ConcatLinesSnoc(relations[..i], relations[i]);
      assert relations[..i + 1] == relations[..i] + [relations[i]];
      markdown := markdown + relations[i] + "\n";
    }
    assert relations[..|relations|] == relations;
    markdown := markdown + "---\n\n";
  }

  /** The collision loop of `write_markdown_file`. */
  method ChooseFileName(safe: string, existing: set<string>) returns (r: Option<string>)
    ensures r == FreeName(safe, existing)
  {
    var path := safe;
    var counter := 1;
    while path in existing
      invariant 1 <= counter <= 1000
      invariant path == if counter == 1 then safe else Candidate(safe, counter - 1)
      invariant counter > 1 ==> safe in existing && forall i :: 1 <= i < counter - 1 ==> Candidate(safe, i) in existing
      decreases 1000 - counter
    {
      if counter > 1 {
        TakenStep(safe, existing, counter);
      }
      var (root, ext) := SplitExt(safe);
      path := root + "-" + NatToString(counter) + ext;
      assert path == Candidate(safe, counter);
      counter := counter + 1;
      if counter > 1000 {
        FreeCounterFrom(safe, existing, 1, 1000);
        return None;
      }
    }
    if counter > 1 {
      FreeCounterFrom(safe, existing, 1, counter - 1);
    }
    return Some(path);
  }

  /** One more candidate found taken extends the run of taken candidates. */
  lemma TakenStep(safe: string, existing: set<string>, c: nat)
    requires c > 1 && Candidate(safe, c - 1) in existing
    requires forall i :: 1 <= i < c - 1 ==> Candidate(safe, i) in existing
    ensures forall i :: 1 <= i < c ==> Candidate(safe, i) in existing
  {
  }

  /** The frontmatter handling of `write_markdown_file`. */
  method RewriteContent(content: string, title: string, isTruncated: bool) returns (result: string)
    ensures result == RewriteFrontmatter(content, title, isTruncated)
  {
    result := content;
    var lines := Split(content, '\n');
    if StartsWith(content, "---") {
      var end := IndexFrom(lines, "---", 1);
      if end.Some? {
        var e := end.value;
        var frontmatter := KeptLines(lines[1..e]);
        if isTruncated {
          frontmatter := ["title: " + title] + frontmatter;
        } else {
          assert frontmatter == [] + frontmatter;
        }
        assert frontmatter == NewFrontmatter(lines[1..e], title, isTruncated);
        result := "---\n" + Join("\n", frontmatter) + "\n---\n" + Join("\n", lines[e + 1..]);
      }
    } else if isTruncated {
      result := "---\ntitle: " + title + "\n---\n\n" + content;
    }
  }
}
