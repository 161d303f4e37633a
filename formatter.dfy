/**
  The progressive reader's text rendering of chunks (pkg/formatter). Each
  rendering is specified as the sequence of lines written to the
  `strings.Builder`, every one followed by "\n"; the text returned is
  `Unlines` of that sequence.
*/
module Formatter {
  import opened GoStrings
  import Chunker

  /** `truncate(s, m)`: `s` when it fits, otherwise its first `m - 3` characters and "...". */
  function Truncate(s: string, m: nat): (r: string)
    requires m >= 3
    ensures |r| <= m && |r| <= |s|
    ensures |s| <= m ==> r == s
    ensures |s| > m ==> |r| == m && r[..m - 3] == s[..m - 3] && r[m - 3..] == "..."
  {
    if |s| <= m then s else s[..m - 3] + "..."
  }

  // ---------------------------------------------------------------------------
  // The lines of a rendered chunk

  const TopBorder := "┌─────────────────────────────────────────────────────┐"
  const BottomBorder := "└─────────────────────────────────────────────────────┘"
  const MoreLine := "│ More content available                              │"
  const EndLine := "│ End of file                                          │"
  const FilePrefix := "│ File: "
  const LinesPrefix := "│ Lines: "
  const TypePrefix := "│ Type: "
  const NamePrefix := "│ Name: "
  const ContextPrefix := "│ Context: "
  const SavedPrefix := "│ Continuation token saved to: "
  const UsePrefix := "│ Use: progressive-reader --continue-file "

  /** The header text "Chunk {CurrentChunk+1}/{TotalChunks}". */
  function Header(c: Chunker.Chunk): string {
    "Chunk " + IntToString(c.currentChunk + 1) + "/" + IntToString(c.totalChunks)
  }

  /**
    The top of the info box: the header padded with "─" to 54 characters.
    `strings.Repeat` panics on a negative count, which the model's `Repeat`
    turns into ""; `FormatChunk` asks for a header that fits.
  */
  function HeaderLine(header: string): string {
    "┌─ " + (header + (Repeat("─", 54 - |header|) + "┐"))
  }

  function FileLine(filePath: string): string {
    FilePrefix + (PadRight(Truncate(filePath, 47), 47) + "│")
  }

  function LinesLine(startLine: int, endLine: int): string {
    LinesPrefix + (PadRight(IntToString(startLine) + "-" + IntToString(endLine), 46) + "│")
  }

  function TypeLine(chunkType: string): string {
    TypePrefix + (PadRight(chunkType, 47) + "│")
  }

  function NameLine(name: string): string {
    NamePrefix + (PadRight(Truncate(name, 47), 47) + "│")
  }

  function ContextLine(context: string): string {
    ContextPrefix + (PadRight(Truncate(context, 44), 44) + "│")
  }

  /** A content line with its number right-aligned in six columns (`%6d  %s`). */
  function BodyLine(n: int, line: string): string {
    PadLeft(IntToString(n), 6) + "  " + line
  }

  function SavedLine(pathDisplay: string): string {
    SavedPrefix + (PadRight(pathDisplay, 23) + "│")
  }

  function UseLine(pathDisplay: string): string {
    UsePrefix + (pathDisplay + Repeat(" ", 11 - |pathDisplay| + 38) + "│")
  }

  /** The Type line is shown for every type but "", "code" and "text". */
  predicate TypeShown(t: string) {
    t != "" && t != "code" && t != "text"
  }

  /** The lines `FormatChunk` writes, by kind and with the values they show. */
  datatype Row =
    | HeaderRow(header: string)
    | FileRow(path: string)
    | LinesRow(startLine: int, endLine: int)
    | TypeRow(chunkType: string)
    | NameRow(name: string)
    | ContextRow(context: string)
    | BottomRow
    | BlankRow
    | BodyRow(number: int, text: string)
    | TopRow
    | MoreRow
    | SavedRow(pathDisplay: string)
    | UseRow(pathDisplay: string)
    | EndRow

  /** The text of a row, as its `WriteString` call formats it (without the "\n"). */
  function Render(row: Row): string {
    match row
    case HeaderRow(header) => HeaderLine(header)
    case FileRow(path) => FileLine(path)
    case LinesRow(startLine, endLine) => LinesLine(startLine, endLine)
    case TypeRow(chunkType) => TypeLine(chunkType)
    case NameRow(name) => NameLine(name)
    case ContextRow(context) => ContextLine(context)
    case BottomRow => BottomBorder
    case BlankRow => ""
    case BodyRow(number, text) => BodyLine(number, text)
    case TopRow => TopBorder
    case MoreRow => MoreLine
    case SavedRow(pathDisplay) => SavedLine(pathDisplay)
    case UseRow(pathDisplay) => UseLine(pathDisplay)
    case EndRow => EndLine
  }

  function Rendered(rows: seq<Row>): seq<string> {
    Map(Render, rows)
  }

  /** The info box: header, file, lines, the optional type, name and context rows, then the bottom border. */
  function InfoRows(c: Chunker.Chunk, filePath: string): seq<Row> {
    var fixed := [HeaderRow(Header(c)), FileRow(filePath), LinesRow(c.startLine, c.endLine)];
    var withType := if TypeShown(c.chunkType) then fixed + [TypeRow(c.chunkType)] else fixed;
    var withName := if c.name != "" then withType + [NameRow(c.name)] else withType;
    var withContext := if c.context != "" then withName + [ContextRow(c.context)] else withName;
    withContext + [BottomRow]
  }

  /** The content lines numbered consecutively from `start`. */
  function BodyRows(lines: seq<string>, start: int): (body: seq<Row>)
    ensures |body| == |lines|
    ensures forall i :: 0 <= i < |lines| ==> body[i] == BodyRow(start + i, lines[i])
  {
    seq(|lines|, i requires 0 <= i < |lines| => BodyRow(start + i, lines[i]))
  }

  /** The continuation box: "More content available" (with the token rows when there is a token path) or "End of file". */
  function FooterRows(hasMore: bool, tokenPath: string): seq<Row> {
    if hasMore then
      [TopRow, MoreRow]
      + (if tokenPath != "" then [SavedRow(Truncate(tokenPath, 38)), UseRow(Truncate(tokenPath, 38))] else [])
      + [BottomRow]
    else [TopRow, EndRow, BottomRow]
  }

  /** Every row `FormatChunk` writes, in order. */
  function ChunkRows(c: Chunker.Chunk, filePath: string, tokenPath: string): seq<Row> {
    InfoRows(c, filePath) + [BlankRow] + BodyRows(Split(c.content, '\n'), c.startLine) + [BlankRow]
    + FooterRows(c.hasMore, tokenPath)
  }

  /** The text of every line `FormatChunk` writes. */
  function ChunkLines(c: Chunker.Chunk, filePath: string, tokenPath: string): seq<string> {
    Rendered(ChunkRows(c, filePath, tokenPath))
  }

  // ---------------------------------------------------------------------------
  // FormatChunk

  /** The info box, one row at a time. */
  method WriteInfo(c: Chunker.Chunk, filePath: string) returns (rows: seq<Row>)
    ensures rows == InfoRows(c, filePath)
  {
    var header := "Chunk " + IntToString(c.currentChunk + 1) + "/" + IntToString(c.totalChunks);
    rows := [HeaderRow(header), FileRow(filePath), LinesRow(c.startLine, c.endLine)];
    if c.chunkType != "" && c.chunkType != "code" && c.chunkType != "text" {
      rows := rows + [TypeRow(c.chunkType)];
    }
    if c.name != "" {
      rows := rows + [NameRow(c.name)];
    }
    if c.context != "" {
      rows := rows + [ContextRow(c.context)];
    }
    rows := rows + [BottomRow];
  }

  /** The numbered content rows, with the `lineNum` counter. */
  method WriteBody(content: string, startLine: int) returns (rows: seq<Row>)
    ensures rows == BodyRows(Split(content, '\n'), startLine)
  {
    rows := [];
    var lines := Split(content, '\n');
    var lineNum := startLine;
    for i := 0 to |lines|
      invariant lineNum == startLine + i
      invariant rows == BodyRows(lines[..i], startLine)
    {
      assert BodyRows(lines[..i + 1], startLine) == BodyRows(lines[..i], startLine) + [BodyRow(lineNum, lines[i])];
      rows := rows + [BodyRow(lineNum, lines[i])];
      lineNum := lineNum + 1;
    }
    assert lines[..|lines|] == lines;
  }

  /** The continuation box. */
  method WriteFooter(hasMore: bool, tokenPath: string) returns (rows: seq<Row>)
    ensures rows == FooterRows(hasMore, tokenPath)
  {
    if hasMore {
      rows := [TopRow, MoreRow];
      if tokenPath != "" {
        var pathDisplay := Truncate(tokenPath, 38);
        rows := rows + [SavedRow(pathDisplay)];
        rows := rows + [UseRow(pathDisplay)];
      }
      rows := rows + [BottomRow];
    } else {
      rows := [TopRow, EndRow, BottomRow];
    }
  }

  /**
    `FormatChunk`: the info box, an empty line, the numbered content, an empty
    line and the continuation box, each row written as its text and "\n".
  */
  method FormatChunk(c: Chunker.Chunk, filePath: string, tokenPath: string) returns (output: string)
    requires |Header(c)| <= 54
    ensures output == Unlines(ChunkLines(c, filePath, tokenPath))
  {
    var rows := WriteInfo(c, filePath);
    rows := rows + [BlankRow];
    var body := WriteBody(c.content, c.startLine);
    rows := rows + body + [BlankRow];
    var footer := WriteFooter(c.hasMore, tokenPath);
    rows := rows + footer;
    output := Unlines(Rendered(rows));
  }

  // ---------------------------------------------------------------------------
  // Which rows appear

  /** The content rows are all numbered lines. */
  lemma BodyOnly(lines: seq<string>, start: int, r: Row)
    requires r in BodyRows(lines, start)
    ensures r.BodyRow?
  {
  }

  /** What a written row says about the chunk and the token path: an optional row only when its condition holds, and with the chunk's own value. */
  predicate Fits(c: Chunker.Chunk, tokenPath: string, r: Row) {
    && (r.TypeRow? ==> TypeShown(c.chunkType) && r.chunkType == c.chunkType)
    && (r.NameRow? ==> c.name != "" && r.name == c.name)
    && (r.ContextRow? ==> c.context != "" && r.context == c.context)
    && (r.MoreRow? ==> c.hasMore)
    && (r.EndRow? ==> !c.hasMore)
    && (r.SavedRow? || r.UseRow? ==> c.hasMore && tokenPath != "" && r.pathDisplay == Truncate(tokenPath, 38))
  }

  lemma InfoFits(c: Chunker.Chunk, filePath: string, tokenPath: string, r: Row)
    requires r in InfoRows(c, filePath)
    ensures Fits(c, tokenPath, r)
  {
  }

  lemma FooterFits(c: Chunker.Chunk, tokenPath: string, r: Row)
    requires r in FooterRows(c.hasMore, tokenPath)
    ensures Fits(c, tokenPath, r)
  {
  }

  /** Every row written fits the chunk. */
  lemma ChunkFits(c: Chunker.Chunk, filePath: string, tokenPath: string)
    ensures forall r :: r in ChunkRows(c, filePath, tokenPath) ==> Fits(c, tokenPath, r)
  {
    forall r | r in ChunkRows(c, filePath, tokenPath) ensures Fits(c, tokenPath, r) {
      if r in InfoRows(c, filePath) {
        InfoFits(c, filePath, tokenPath, r);
      } else if r in FooterRows(c.hasMore, tokenPath) {
        FooterFits(c, tokenPath, r);
      } else if r in BodyRows(Split(c.content, '\n'), c.startLine) {
        BodyOnly(Split(c.content, '\n'), c.startLine, r);
      }
    }
  }

  /** Every optional row whose condition holds is written. */
  lemma ChunkHas(c: Chunker.Chunk, filePath: string, tokenPath: string)
    ensures TypeShown(c.chunkType) ==> TypeRow(c.chunkType) in ChunkRows(c, filePath, tokenPath)
    ensures c.name != "" ==> NameRow(c.name) in ChunkRows(c, filePath, tokenPath)
    ensures c.context != "" ==> ContextRow(c.context) in ChunkRows(c, filePath, tokenPath)
    ensures c.hasMore ==> MoreRow in ChunkRows(c, filePath, tokenPath)
    ensures !c.hasMore ==> EndRow in ChunkRows(c, filePath, tokenPath)
    ensures c.hasMore && tokenPath != "" ==>
              SavedRow(Truncate(tokenPath, 38)) in ChunkRows(c, filePath, tokenPath)
              && UseRow(Truncate(tokenPath, 38)) in ChunkRows(c, filePath, tokenPath)
  {
    var info := InfoRows(c, filePath);
    assert TypeShown(c.chunkType) ==> TypeRow(c.chunkType) in info;
    assert c.name != "" ==> NameRow(c.name) in info;
    assert c.context != "" ==> ContextRow(c.context) in info;
  }

  /** The "More content available" row is written exactly when the chunk has more. */
  lemma MoreShown(c: Chunker.Chunk, filePath: string, tokenPath: string)
    ensures MoreRow in ChunkRows(c, filePath, tokenPath) <==> c.hasMore
  {
    ChunkFits(c, filePath, tokenPath);
    ChunkHas(c, filePath, tokenPath);
  }

  /** The "End of file" row is written exactly when the chunk is the last. */
  lemma EndShown(c: Chunker.Chunk, filePath: string, tokenPath: string)
    ensures EndRow in ChunkRows(c, filePath, tokenPath) <==> !c.hasMore
  {
    ChunkFits(c, filePath, tokenPath);
    ChunkHas(c, filePath, tokenPath);
  }

  /** The "Continuation token saved to" row is written exactly when the chunk has more and a token path is given, showing the path cut to 38 characters. */
  lemma SavedShown(c: Chunker.Chunk, filePath: string, tokenPath: string)
    ensures SavedRow(Truncate(tokenPath, 38)) in ChunkRows(c, filePath, tokenPath) <==> c.hasMore && tokenPath != ""
    ensures forall r :: r in ChunkRows(c, filePath, tokenPath) && r.SavedRow? ==> r == SavedRow(Truncate(tokenPath, 38))
  {
    ChunkFits(c, filePath, tokenPath);
    ChunkHas(c, filePath, tokenPath);
  }

  /** The "Use: progressive-reader --continue-file" row is written exactly when the chunk has more and a token path is given, showing the path cut to 38 characters. */
  lemma UseShown(c: Chunker.Chunk, filePath: string, tokenPath: string)
    ensures UseRow(Truncate(tokenPath, 38)) in ChunkRows(c, filePath, tokenPath) <==> c.hasMore && tokenPath != ""
    ensures forall r :: r in ChunkRows(c, filePath, tokenPath) && r.UseRow? ==> r == UseRow(Truncate(tokenPath, 38))
  {
    ChunkFits(c, filePath, tokenPath);
    ChunkHas(c, filePath, tokenPath);
  }

  /** The Type row is written exactly when the type is not "", "code" or "text", and shows the chunk's type. */
  lemma TypeShownIff(c: Chunker.Chunk, filePath: string, tokenPath: string)
    ensures TypeRow(c.chunkType) in ChunkRows(c, filePath, tokenPath) <==> TypeShown(c.chunkType)
    ensures forall r :: r in ChunkRows(c, filePath, tokenPath) && r.TypeRow? ==> r == TypeRow(c.chunkType)
  {
    ChunkFits(c, filePath, tokenPath);
    ChunkHas(c, filePath, tokenPath);
  }

  /** The Name row is written exactly when the chunk has a name, and shows that name. */
  lemma NameShown(c: Chunker.Chunk, filePath: string, tokenPath: string)
    ensures NameRow(c.name) in ChunkRows(c, filePath, tokenPath) <==> c.name != ""
    ensures forall r :: r in ChunkRows(c, filePath, tokenPath) && r.NameRow? ==> r == NameRow(c.name)
  {
    ChunkFits(c, filePath, tokenPath);
    ChunkHas(c, filePath, tokenPath);
  }

  /** The Context row is written exactly when the chunk has a context, and shows that context. */
  lemma ContextShown(c: Chunker.Chunk, filePath: string, tokenPath: string)
    ensures ContextRow(c.context) in ChunkRows(c, filePath, tokenPath) <==> c.context != ""
    ensures forall r :: r in ChunkRows(c, filePath, tokenPath) && r.ContextRow? ==> r == ContextRow(c.context)
  {
    ChunkFits(c, filePath, tokenPath);
    ChunkHas(c, filePath, tokenPath);
  }

  /**
    The body has one numbered row per "\n"-separated content line, numbered
    consecutively from the chunk's start line, between two empty rows that
    separate it from the info box and the continuation box.
  */
  lemma BodyNumbering(c: Chunker.Chunk, filePath: string, tokenPath: string)
    ensures var rows := ChunkRows(c, filePath, tokenPath);
            var lines := Split(c.content, '\n');
            var n := |InfoRows(c, filePath)|;
            && |rows| == n + 1 + |lines| + 1 + |FooterRows(c.hasMore, tokenPath)|
            && rows[n] == BlankRow && rows[n + 1 + |lines|] == BlankRow
            && (forall i :: 0 <= i < |lines| ==> rows[n + 1 + i] == BodyRow(c.startLine + i, lines[i]))
  {
    BodyFramed(InfoRows(c, filePath), Split(c.content, '\n'), c.startLine, FooterRows(c.hasMore, tokenPath));
  }

  lemma BodyFramed(info: seq<Row>, lines: seq<string>, start: int, footer: seq<Row>)
    ensures var rows := info + [BlankRow] + BodyRows(lines, start) + [BlankRow] + footer;
            && |rows| == |info| + 1 + |lines| + 1 + |footer|
            && rows[|info|] == BlankRow && rows[|info| + 1 + |lines|] == BlankRow
            && (forall i :: 0 <= i < |lines| ==> rows[|info| + 1 + i] == BodyRow(start + i, lines[i]))
  {
    Framed(info, BlankRow, BodyRows(lines, start), footer);
  }

  /** The shape of the rows `FormatChunk` writes: info, a blank, the body, a blank, the footer. */
  lemma Framed<T>(info: seq<T>, blank: T, body: seq<T>, footer: seq<T>)
    ensures var rows := info + [blank] + body + [blank] + footer;
            && |rows| == |info| + 1 + |body| + 1 + |footer|
            && rows[|info|] == blank && rows[|info| + 1 + |body|] == blank
            && forall i :: 0 <= i < |body| ==> rows[|info| + 1 + i] == body[i]
  {
  }

  /** The info box opens with the header row, then the File and Lines rows. */
  lemma HeaderShown(c: Chunker.Chunk, filePath: string, tokenPath: string)
    ensures var rows := ChunkRows(c, filePath, tokenPath);
            && |rows| > 2
            && rows[0] == HeaderRow(Header(c))
            && rows[1] == FileRow(filePath)
            && rows[2] == LinesRow(c.startLine, c.endLine)
  {
    assert InfoRows(c, filePath)[..3] == [HeaderRow(Header(c)), FileRow(filePath), LinesRow(c.startLine, c.endLine)];
  }

  /** A header that fits gives a header line of 58 characters, "┌─ ", the header, a run of "─" and "┐". */
  lemma HeaderWidth(header: string)
    requires |header| <= 54
    ensures |HeaderLine(header)| == 58
    ensures HeaderLine(header)[..3] == "┌─ " && HeaderLine(header)[3..3 + |header|] == header
    ensures HeaderLine(header)[57] == '┐'
    ensures forall k :: 3 + |header| <= k < 57 ==> HeaderLine(header)[k] == '─'
  {
    var tail := Repeat("─", 54 - |header|) + "┐";
    Middle("┌─ ", header, tail);
    assert HeaderLine(header)[3 + |header|..] == tail;
  }

  lemma Middle(a: string, m: string, b: string)
    ensures |a + (m + b)| == |a| + |m| + |b|
    ensures (a + (m + b))[|a|..|a| + |m|] == m
  {
    assert (a + (m + b))[|a|..] == m + b;
  }

  // ---------------------------------------------------------------------------
  // FormatChunkList

  /** "Type", or "Type: Name" when the chunk has a name. */
  function TypeInfo(c: Chunker.Chunk): string {
    if c.name != "" then c.chunkType + ": " + c.name else c.chunkType
  }

  /** One line of the chunk list, before it is rendered to text. */
  datatype ListRow =
    | ListFileRow(path: string)
    | ListTotalRow(count: int)
    | ListBlankRow
    | EntryRow(number: int, total: int, startLine: int, endLine: int, typeInfo: string)
    | EntryContextRow(context: string)

  /** "Chunk number/total (lines s-e): type info". */
  function EntryLine(number: int, total: int, startLine: int, endLine: int, typeInfo: string): string {
    "Chunk " + IntToString(number) + "/" + IntToString(total)
    + " (lines " + IntToString(startLine) + "-" + IntToString(endLine) + "): " + typeInfo
  }

  /** The context line of a chunk in the list: its context cut to 70 characters. */
  function EntryContextLine(context: string): string {
    "  " + Truncate(context, 70)
  }

  /** The text of one row of the list. */
  function RenderEntry(row: ListRow): string {
    match row
    case ListFileRow(path) => "File: " + path
    case ListTotalRow(count) => "Total chunks: " + IntToString(count)
    case ListBlankRow => ""
    case EntryRow(number, total, startLine, endLine, typeInfo) => EntryLine(number, total, startLine, endLine, typeInfo)
    case EntryContextRow(context) => EntryContextLine(context)
  }

  /** The rows listing chunk `i` of `n`: its entry, then its context when it has one. */
  function EntryRows(i: int, n: int, c: Chunker.Chunk): (rows: seq<ListRow>)
    ensures |rows| == if c.context != "" then 2 else 1
  {
    var entry := EntryRow(i + 1, n, c.startLine, c.endLine, TypeInfo(c));
    if c.context != "" then [entry, EntryContextRow(c.context)] else [entry]
  }

  /** The listing of every chunk, in order. */
  function Entries(chunks: seq<Chunker.Chunk>): (entries: seq<seq<ListRow>>)
    ensures |entries| == |chunks|
    ensures forall i :: 0 <= i < |chunks| ==> entries[i] == EntryRows(i, |chunks|, chunks[i])
  {
    seq(|chunks|, i requires 0 <= i < |chunks| => EntryRows(i, |chunks|, chunks[i]))
  }

  /** The two header rows and the empty row of the list. */
  function ListHead(chunks: seq<Chunker.Chunk>, filePath: string): seq<ListRow> {
    [ListFileRow(filePath), ListTotalRow(|chunks|), ListBlankRow]
  }

  /** Every row `FormatChunkList` writes, in order. */
  function ListRows(chunks: seq<Chunker.Chunk>, filePath: string): seq<ListRow> {
    ListHead(chunks, filePath) + Concat(Entries(chunks))
  }

  /** Every line `FormatChunkList` writes, in order. */
  function ListLines(chunks: seq<Chunker.Chunk>, filePath: string): seq<string> {
    Map(RenderEntry, ListRows(chunks, filePath))
  }

  /** `FormatChunkList`, with its loop over the chunks. */
  method FormatChunkList(chunks: seq<Chunker.Chunk>, filePath: string) returns (output: string)
    ensures output == Unlines(ListLines(chunks, filePath))
  {
    var rows := [ListFileRow(filePath), ListTotalRow(|chunks|), ListBlankRow];
    ghost var entries := Entries(chunks);
    for i := 0 to |chunks|
      invariant rows == ListHead(chunks, filePath) + Concat(entries[..i])
    {
      var chunk := chunks[i];
      var typeInfo := chunk.chunkType;
      if chunk.name != "" {
        typeInfo := chunk.chunkType + ": " + chunk.name;
      }
      ghost var before := rows;
      rows := rows + [EntryRow(i + 1, |chunks|, chunk.startLine, chunk.endLine, typeInfo)];
      if chunk.context != "" {
        rows := rows + [EntryContextRow(chunk.context)];
      }
      assert rows == before + entries[i];
      ConcatSnoc(entries, i);
    }
    assert entries[..|chunks|] == entries;
    output := Unlines(Map(RenderEntry, rows));
  }

  /** How many of the first `i` chunks have a context line. */
  function ContextsBefore(chunks: seq<Chunker.Chunk>, i: nat): nat
    requires i <= |chunks|
  {
    if i == 0 then 0 else ContextsBefore(chunks, i - 1) + (if chunks[i - 1].context != "" then 1 else 0)
  }

  /** The number of rows each chunk takes in the list. */
  function EntrySizes(chunks: seq<Chunker.Chunk>): (sizes: seq<nat>)
    ensures |sizes| == |chunks|
  {
    seq(|chunks|, i requires 0 <= i < |chunks| => if chunks[i].context != "" then 2 else 1)
  }

  lemma {:induction false} SizesBefore(chunks: seq<Chunker.Chunk>, i: nat)
    requires i <= |chunks|
    ensures Sum(EntrySizes(chunks)[..i]) == i + ContextsBefore(chunks, i)
  {
    if i > 0 {
      SizesBefore(chunks, i - 1);
      assert EntrySizes(chunks)[..i][..i - 1] == EntrySizes(chunks)[..i - 1];
    }
  }

  /** Each chunk adds its entry row and, when it has a context, one more. */
  lemma EntriesLength(chunks: seq<Chunker.Chunk>, i: nat)
    requires i <= |chunks|
    ensures |Concat(Entries(chunks)[..i])| == i + ContextsBefore(chunks, i)
  {
    var parts := Entries(chunks)[..i];
    var sizes := EntrySizes(chunks)[..i];
    forall j | 0 <= j < i
      ensures |parts[j]| == sizes[j]
    {
      assert |Entries(chunks)[j]| == EntrySizes(chunks)[j];
    }
    ConcatLength(parts, sizes);
    SizesBefore(chunks, i);
  }

  /** The list opens with the "File: path" row, the "Total chunks: n" row and an empty row, and has one or two rows per chunk. */
  lemma ListHeader(chunks: seq<Chunker.Chunk>, filePath: string)
    ensures var rows := ListRows(chunks, filePath);
      && |rows| == 3 + |chunks| + ContextsBefore(chunks, |chunks|)
      && rows[..3] == [ListFileRow(filePath), ListTotalRow(|chunks|), ListBlankRow]
  {
    EntriesLength(chunks, |chunks|);
    assert Entries(chunks)[..|chunks|] == Entries(chunks);
  }

  /** Where chunk `i`'s rows sit in the list. */
  lemma EntryAt(chunks: seq<Chunker.Chunk>, filePath: string, i: nat)
    requires i < |chunks|
    ensures var rows := ListRows(chunks, filePath);
      var at := 3 + i + ContextsBefore(chunks, i);
      var entry := EntryRows(i, |chunks|, chunks[i]);
      at + |entry| <= |rows| && rows[at..at + |entry|] == entry
  {
    EntriesLength(chunks, i);
    PartAt(ListHead(chunks, filePath), Entries(chunks), i, 3 + i + ContextsBefore(chunks, i), EntryRows(i, |chunks|, chunks[i]));
  }

  lemma PartAt<T>(head: seq<T>, parts: seq<seq<T>>, i: nat, at: nat, part: seq<T>)
    requires i < |parts| && at == |head| + |Concat(parts[..i])| && part == parts[i]
    ensures at + |part| <= |head + Concat(parts)| && (head + Concat(parts))[at..at + |part|] == part
  {
    ConcatAfter(head, parts, i);
  }

  /**
    Chunk i's entry row "Chunk i+1/n (lines s-e): type info" and, when it
    has a context, its context row come after the header rows and the i
    earlier entries and their context rows.
  */
  lemma ListEntry(chunks: seq<Chunker.Chunk>, filePath: string, i: nat)
    requires i < |chunks|
    ensures var rows := ListRows(chunks, filePath);
      var c := chunks[i];
      var at := 3 + i + ContextsBefore(chunks, i);
      && at < |rows|
      && rows[at] == EntryRow(i + 1, |chunks|, c.startLine, c.endLine, TypeInfo(c))
      && (c.context != "" ==> at + 1 < |rows| && rows[at + 1] == EntryContextRow(c.context))
  {
    var c := chunks[i];
    var rows := ListRows(chunks, filePath);
    var at := 3 + i + ContextsBefore(chunks, i);
    var entry := EntryRows(i, |chunks|, c);
    EntryAt(chunks, filePath, i);
    assert rows[at] == entry[0];
    if c.context != "" {
      assert rows[at + 1] == entry[1];
    }
  }
}
