/** The one-off migration that turns Markdown article bodies into Strapi
    Blocks: a line-oriented converter (`markdownToBlocks`) that merges plain
    lines into paragraphs and gives every heading, list item and quote line a
    block of its own, and the row filter that leaves content already in Blocks
    form alone. */
module MarkdownBlocks {
  import opened Wrappers
  import opened Collections
  import opened Text

  /** A Strapi block: a paragraph, a heading, an unordered list with exactly
      one list item, or a quote, each holding one text child. */
  datatype Block =
    | Paragraph(text: string)
    | Heading(level: nat, text: string)
    | ListBlock(item: string)
    | Quote(text: string)

  /** What a trimmed line is, tested in the order of the converter: blank,
      plain paragraph text, or a line that is a block of its own. */
  datatype LineKind = Blank | Plain | Own(block: Block)

  function Classify(line: string): (k: LineKind)
    ensures k == Blank <==> line == []
    ensures k.Own? ==> !k.block.Paragraph?
  {
    if line == [] then Blank
    else if StartsWith(line, "#") then Own(HeadingOf(line))
    else if StartsWith(line, "- ") || StartsWith(line, "* ") || StartsWith(line, "• ") then Own(ListBlock(TrimStart(line[1..])))
    else if StartsWith(line, ">") then Own(Quote(TrimStart(line[1..])))
    else Plain
  }

  /** `line.match(/^#+/)[0].length`. */
  function HashRun(line: string): (n: nat)
    ensures n <= |line| && forall i :: 0 <= i < n ==> line[i] == '#'
    ensures n < |line| ==> line[n] != '#'
  {
    PrefixLength(line, c => c == '#')
  }

  /** A heading line: level `min(#s, 6)`, text without the `#`s and the white space after them. */
  function HeadingOf(line: string): (b: Block)
    requires line != []
    ensures b.Heading?
    ensures line[0] == '#' ==> 1 <= b.level <= 6
  {
    var n := HashRun(line);
    Heading(Min(n, 6), TrimStart(line[n..]))
  }

  /** Flushing the pending paragraph: one paragraph block of the lines joined by spaces, if any. */
  function Flush(para: seq<string>): (r: seq<Block>)
    ensures para == [] ==> r == []
    ensures para != [] ==> r == [Paragraph(Join(para, " "))]
  {
    if para == [] then [] else [Paragraph(Join(para, " "))]
  }

  /** What one trimmed line does: the blocks it emits and the paragraph lines
      pending after it. */
  function Emit(line: string, para: seq<string>): (seq<Block>, seq<string>) {
    match Classify(line)
    case Blank => (Flush(para), [])
    case Plain => ([], para + [line])
    case Own(b) => (Flush(para) + [b], [])
  }

  /** The blocks the converter produces from the (untrimmed) `lines` with the
      paragraph lines `para` still pending. */
  function Convert(lines: seq<string>, para: seq<string>): (r: seq<Block>)
    decreases |lines|
  {
    if lines == [] then Flush(para)
    else
      var e := Emit(Trim(lines[0]), para);
      e.0 + Convert(lines[1..], e.1)
  }

  /** The flush the loop performs before a blank line or a block line: the
      pending lines become one paragraph and the buffer is emptied. */
  method FlushPending(blocks: seq<Block>, para: seq<string>) returns (blocks': seq<Block>, para': seq<string>)
    ensures blocks' == blocks + Flush(para) && para' == []
  {
    blocks', para' := blocks, para;
    if |para'| > 0 {
      blocks' := blocks' + [Paragraph(Join(para', " "))];
      para' := [];
    }
  }

  /** The body of the converter's loop for one trimmed line. */
  method ConsumeLine(line: string, blocks: seq<Block>, para: seq<string>) returns (blocks': seq<Block>, para': seq<string>)
    ensures blocks' == blocks + Emit(line, para).0 && para' == Emit(line, para).1
  {
    if line == [] {
      blocks', para' := FlushPending(blocks, para);
      return;
    }
    if StartsWith(line, "#") {
      blocks', para' := FlushPending(blocks, para);
      var level := HashRun(line);
      var b := Heading(Min(level, 6), TrimStart(line[level..]));
      blocks' := blocks' + [b];
      OwnLine(line, para, blocks, b);
      return;
    }
    if StartsWith(line, "- ") || StartsWith(line, "* ") || StartsWith(line, "• ") {
      blocks', para' := FlushPending(blocks, para);
      var b := ListBlock(TrimStart(line[1..]));
      blocks' := blocks' + [b];
      OwnLine(line, para, blocks, b);
      return;
    }
    if StartsWith(line, ">") {
      blocks', para' := FlushPending(blocks, para);
      var b := Quote(TrimStart(line[1..]));
      blocks' := blocks' + [b];
      OwnLine(line, para, blocks, b);
      return;
    }
    para' := para + [line];
    blocks' := blocks;
  }

  /** A line that is a block of its own flushes the buffer and adds its block. */
  lemma OwnLine(line: string, para: seq<string>, blocks: seq<Block>, b: Block)
    requires Classify(line) == Own(b)
    ensures blocks + Flush(para) + [b] == blocks + Emit(line, para).0 && Emit(line, para).1 == []
  {
  }

  /** `markdownToBlocks(markdown)`: one pass over the trimmed lines with a
      pending paragraph buffer, flushed at the end. */
  method MarkdownToBlocks(markdown: string) returns (blocks: seq<Block>)
    ensures blocks == Convert(Split(markdown, '\n'), [])
  {
    var lines := Split(markdown, '\n');
    blocks := [];
    var para: seq<string> := [];
    for i := 0 to |lines|
      invariant blocks + Convert(lines[i..], para) == Convert(lines, [])
    {
      ConvertStep(lines, i, blocks, para);
      blocks, para := ConsumeLine(Trim(lines[i]), blocks, para);
    }
    if |para| > 0 {
      blocks := blocks + [Paragraph(Join(para, " "))];
    }
  }

  /** One line of the converter's loop, in terms of `Convert`. */
  lemma ConvertStep(lines: seq<string>, i: nat, blocks: seq<Block>, para: seq<string>)
    requires i < |lines|
    ensures var e := Emit(Trim(lines[i]), para);
      blocks + Convert(lines[i..], para) == (blocks + e.0) + Convert(lines[i + 1..], e.1)
  {
    assert lines[i..][1..] == lines[i + 1..];
  }

  /** No paragraph is empty and every heading level is between 1 and 6. */
  predicate WellFormed(b: Block) {
    match b
    case Paragraph(text) => text != []
    case Heading(level, _) => 1 <= level <= 6
    case _ => true
  }

  lemma JoinNonEmpty(parts: seq<string>, sep: string)
    requires parts != [] && parts[0] != []
    ensures Join(parts, sep) != []
  {
  }

  /** A line with a block of its own gives a well-formed block; a plain line is not empty. */
  lemma ClassifyWellFormed(line: string)
    ensures Classify(line).Own? ==> WellFormed(Classify(line).block)
    ensures Classify(line).Plain? ==> line != []
  {
    if line != [] && StartsWith(line, "#") {
      assert line[0] == "#"[0];
    }
  }

  /** Every block the converter produces is well formed, given pending lines
      that are themselves non-empty. */
  lemma {:induction false} ConvertWellFormed(lines: seq<string>, para: seq<string>)
    requires forall i :: 0 <= i < |para| ==> para[i] != []
    ensures forall b :: b in Convert(lines, para) ==> WellFormed(b)
    decreases |lines|
  {
    if para != [] {
      JoinNonEmpty(para, " ");
    }
    if lines != [] {
      var line := Trim(lines[0]);
      ClassifyWellFormed(line);
      var e := Emit(line, para);
      assert forall b :: b in e.0 ==> WellFormed(b);
      ConvertWellFormed(lines[1..], e.1);
    }
  }

  /** The blocks of a document are well formed. */
  lemma DocumentWellFormed(markdown: string)
    ensures forall b :: b in Convert(Split(markdown, '\n'), []) ==> WellFormed(b)
  {
    ConvertWellFormed(Split(markdown, '\n'), []);
  }

  /** The empty document has no blocks. */
  lemma EmptyDocument(markdown: string)
    requires markdown == []
    ensures Convert(Split(markdown, '\n'), []) == []
  {
    var lines := Split(markdown, '\n');
    assert IndexOf(markdown, '\n') == 0;
    assert lines == [[]];
    assert Trim(lines[0]) == [] && lines[1..] == [];
  }

  /** Whether a line opens a block of its own. */
  predicate Structural(line: string) {
    Classify(Trim(line)).Own?
  }

  predicate IsStructural(b: Block) {
    !b.Paragraph?
  }

  /** The blocks one line emits: a single structural block for a heading,
      list or quote line, none for any other line. */
  lemma EmitCount(line: string, para: seq<string>)
    ensures Count(Emit(line, para).0, IsStructural) == if Classify(line).Own? then 1 else 0
  {
    CountNone(Flush(para), IsStructural);
    if Classify(line).Own? {
      CountAppend(Flush(para), [Classify(line).block], IsStructural);
      assert [Classify(line).block][..0] == [];
    }
  }

  /** Every heading, list and quote line yields exactly one block; no other line does. */
  lemma {:induction false} StructuralCount(lines: seq<string>, para: seq<string>)
    ensures Count(Convert(lines, para), IsStructural) == Count(lines, Structural)
    decreases |lines|
  {
    if lines == [] {
      CountNone(Flush(para), IsStructural);
    } else {
      var e := Emit(Trim(lines[0]), para);
      StructuralCount(lines[1..], e.1);
      CountFront(lines, Structural);
      EmitCount(Trim(lines[0]), para);
      CountAppend(e.0, Convert(lines[1..], e.1), IsStructural);
    }
  }

  /** Counting from the front: the first element, then the rest. */
  lemma CountFront<T>(s: seq<T>, p: T -> bool)
    requires s != []
    ensures Count(s, p) == (if p(s[0]) then 1 else 0) + Count(s[1..], p)
  {
    assert s == [s[0]] + s[1..];
    CountAppend([s[0]], s[1..], p);
  }

  function Trimmed(lines: seq<string>): (r: seq<string>)
    ensures |r| == |lines| && forall i :: 0 <= i < |lines| ==> r[i] == Trim(lines[i])
  {
    if lines == [] then [] else [Trim(lines[0])] + Trimmed(lines[1..])
  }

  /** Consecutive plain lines, with no blank or structural line between them,
      end up in one paragraph joined by single spaces. */
  lemma {:induction false} PlainLinesMerge(lines: seq<string>, para: seq<string>)
    requires forall i :: 0 <= i < |lines| ==> Classify(Trim(lines[i])).Plain?
    ensures Convert(lines, para) == Flush(para + Trimmed(lines))
    decreases |lines|
  {
    if lines == [] {
      assert para + Trimmed(lines) == para;
    } else {
      var line := Trim(lines[0]);
      PlainStep(lines, para);
      PlainLinesMerge(lines[1..], para + [line]);
      assert para + [line] + Trimmed(lines[1..]) == para + Trimmed(lines);
    }
  }

  /** The converter never emits more blocks than there are lines, plus one
      for a paragraph still pending at the start. */
  lemma {:induction false} ConvertLength(lines: seq<string>, para: seq<string>)
    ensures |Convert(lines, para)| <= |lines| + (if para == [] then 0 else 1)
    decreases |lines|
  {
    if lines != [] {
      var e := Emit(Trim(lines[0]), para);
      ConvertLength(lines[1..], e.1);
    }
  }

  /** A plain line only joins the pending paragraph. */
  lemma PlainStep(lines: seq<string>, para: seq<string>)
    requires lines != [] && Classify(Trim(lines[0])).Plain?
    ensures Convert(lines, para) == Convert(lines[1..], para + [Trim(lines[0])])
  {
    assert Emit(Trim(lines[0]), para) == ([], para + [Trim(lines[0])]);
  }

  /** A stored `content` value: a string or anything else. */
  datatype Content = Str(s: string) | NotString

  /** Rows whose content is a string not starting, once trimmed, with `[` are converted. */
  predicate NeedsMigration(c: Content) {
    c.Str? && !StartsWith(Trim(c.s), "[")
  }

  /** The rows of the `articles` table: id and content. */
  datatype Row = Row(id: int, content: Content)

  /** The updates the migration issues for `rows`, in row order: the id and the
      converted blocks of each row that needs migration. */
  function Updates(rows: seq<Row>): seq<(int, seq<Block>)> {
    if rows == [] then []
    else
      var last := rows[|rows| - 1];
      Updates(rows[..|rows| - 1])
      + (if NeedsMigration(last.content) then [(last.id, Convert(Split(last.content.s, '\n'), []))] else [])
  }

  /** One update per row that needs migration. */
  lemma {:induction false} UpdatesCount(rows: seq<Row>)
    ensures |Updates(rows)| == Count(rows, (r: Row) => NeedsMigration(r.content))
  {
    if rows != [] {
      UpdatesCount(rows[..|rows| - 1]);
    }
  }

  /** An update is issued exactly for the rows that need migration, carrying
      their converted content. */
  lemma {:induction false} UpdatesAreTheMigratedRows(rows: seq<Row>, u: (int, seq<Block>))
    ensures u in Updates(rows) <==>
      exists r :: r in rows && NeedsMigration(r.content) && u == (r.id, Convert(Split(r.content.s, '\n'), []))
  {
    if rows != [] {
      var init, last := rows[..|rows| - 1], rows[|rows| - 1];
      UpdatesAreTheMigratedRows(init, u);
      assert rows == init + [last];
      var tail := if NeedsMigration(last.content) then [(last.id, Convert(Split(last.content.s, '\n'), []))] else [];
      assert Updates(rows) == Updates(init) + tail;
      if u in Updates(rows) && u !in Updates(init) {
        assert u in tail && last in rows;
      }
      if exists r :: r in rows && NeedsMigration(r.content) && u == (r.id, Convert(Split(r.content.s, '\n'), [])) {
        var r :| r in rows && NeedsMigration(r.content) && u == (r.id, Convert(Split(r.content.s, '\n'), []));
        if r !in init {
          assert r == last && u in tail;
        }
      }
    }
  }

  /** `migrateArticles` over the rows read: an update per row that needs
      migration, the others counted as skipped. */
  method MigrateArticles(rows: seq<Row>) returns (updates: seq<(int, seq<Block>)>, skipped: nat)
    ensures updates == Updates(rows)
    ensures |updates| + skipped == |rows|
  {
    updates, skipped := [], 0;
    for i := 0 to |rows|
      invariant updates == Updates(rows[..i])
      invariant |updates| + skipped == i
    {
      var row := rows[i];
      assert rows[..i + 1][..i] == rows[..i];
      if row.content.Str? && !StartsWith(Trim(row.content.s), "[") {
        var blocks := MarkdownToBlocks(row.content.s);
        updates := updates + [(row.id, blocks)];
      } else {
        skipped := skipped + 1;
      }
    }
    assert rows[..|rows|] == rows;
  }
}
