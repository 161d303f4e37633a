/**
  The progressive reader's chunker (pkg/chunker). A source file is split into
  lines; the chunk list is produced either by a walk over the syntax tree that
  packs the lines of "target" nodes into chunks of bounded token estimate, or
  by a fixed line window. A post-pass numbers the chunks and gives each a
  one-line context.

  The four language-specific walks of the source differ only in their target
  node types and their type-naming function, so they are modelled once,
  parameterised by the language.
*/
module Chunker {
  import opened Wrappers
  import opened GoStrings
  import opened SyntaxTree
  import ReaderParser

  datatype Chunk = Chunk(
    content: string,
    startLine: int,
    endLine: int,
    chunkType: string,
    name: string,
    context: string,
    hasMore: bool,
    totalChunks: int,
    currentChunk: int)

  /** The `Chunker` value: the parser, the source and its lines, and the token budget. */
  datatype Chunker = Chunker(
    parser: ReaderParser.Parser,
    sourceCode: string,
    sourceLines: seq<string>,
    maxTokens: int)

  /** `NewChunker`: the parser error is passed on; otherwise the source is split at every "\n". */
  function NewChunker(filePath: string, sourceCode: string, maxTokens: int): (r: Result<Chunker>)
    ensures r.Ok? <==> ReaderParser.NewParser(filePath).Ok?
    ensures r.Ok? ==> && r.value.parser.langName in ReaderParser.Supported
                      && r.value.parser.langName == ReaderParser.DetectLanguage(filePath)
                      && r.value.sourceLines == Split(sourceCode, '\n')
                      && r.value.sourceCode == sourceCode
                      && r.value.maxTokens == maxTokens
    ensures r.Err? ==> r.msg == ReaderParser.NewParser(filePath).msg
  {
    match ReaderParser.NewParser(filePath)
    case Err(msg) => Err(msg)
    case Ok(p) => Ok(Chunker(p, sourceCode, Split(sourceCode, '\n'), maxTokens))
  }

  // ---------------------------------------------------------------------------
  // Line ranges and token estimates

  /** `getLinesRange`: the "\n"-join of lines start..end, with start raised to 0 and end lowered to the last line. */
  function LinesRange(lines: seq<string>, start: int, end: int): string {
    var s := if start < 0 then 0 else start;
    var e := if end >= |lines| then |lines| - 1 else end;
    if s <= e then Join(lines[s..e + 1], "\n") else ""
  }

  method GetLinesRange(lines: seq<string>, start: int, end: int) returns (text: string)
    ensures text == LinesRange(lines, start, end)
  {
    var s := start;
    var e := end;
    if s < 0 {
      s := 0;
    }
    if e >= |lines| {
      e := |lines| - 1;
    }
    var collected: seq<string> := [];
    var i := s;
    while i <= e
      invariant s <= i && (s <= e ==> i <= e + 1)
      invariant s <= e ==> collected == lines[s..i]
      invariant s > e ==> collected == []
    {
      collected := collected + [lines[i]];
      i := i + 1;
    }
    text := Join(collected, "\n");
  }

  /** The text of a line range splits back into exactly the clamped lines. */
  lemma LinesRangeSplits(lines: seq<string>, start: int, end: int)
    requires forall i :: 0 <= i < |lines| ==> '\n' !in lines[i]
    ensures var s := if start < 0 then 0 else start;
            var e := if end >= |lines| then |lines| - 1 else end;
            s <= e ==> Split(LinesRange(lines, start, end), '\n') == lines[s..e + 1]
  {
    var s := if start < 0 then 0 else start;
    var e := if end >= |lines| then |lines| - 1 else end;
    if s <= e {
      var part := lines[s..e + 1];
      assert forall i :: 0 <= i < |part| ==> '\n' !in part[i] by {
        forall i | 0 <= i < |part| ensures '\n' !in part[i] {
          assert part[i] == lines[s + i];
        }
      }
      SplitJoin(part, '\n');
    }
  }

  /** `estimateTokens`: a quarter of the length, rounded down. */
  function EstimateTokens(text: string): (n: nat)
    ensures n * 4 <= |text| < n * 4 + 4
  {
    |text| / 4
  }

  // ---------------------------------------------------------------------------
  // Node types and names

  /** The node types that `extractNodeType` (TypeScript and JavaScript) names. */
  const TsTypeNames: map<string, string> := map[
    "class_declaration" := "class",
    "function_declaration" := "function",
    "method_definition" := "method",
    "interface_declaration" := "interface",
    "type_alias_declaration" := "type"]

  /** The node types that `extractPythonNodeType` names. */
  const PythonTypeNames: map<string, string> := map[
    "class_definition" := "class",
    "function_definition" := "function",
    "decorated_definition" := "decorated"]

  /** The node types that `extractGoNodeType` names. */
  const GoTypeNames: map<string, string> := map[
    "function_declaration" := "function",
    "method_declaration" := "method",
    "type_declaration" := "type",
    "const_declaration" := "const",
    "var_declaration" := "var"]

  /** `extractNodeType`: total, "code" for every unlisted type. */
  function ExtractNodeType(nodeType: string): (t: string)
    ensures t == if nodeType in TsTypeNames then TsTypeNames[nodeType] else "code"
  {
    if nodeType == "class_declaration" then "class"
    else if nodeType == "function_declaration" then "function"
    else if nodeType == "method_definition" then "method"
    else if nodeType == "interface_declaration" then "interface"
    else if nodeType == "type_alias_declaration" then "type"
    else "code"
  }

  /** `extractPythonNodeType`: total, "code" for every unlisted type. */
  function ExtractPythonNodeType(nodeType: string): (t: string)
    ensures t == if nodeType in PythonTypeNames then PythonTypeNames[nodeType] else "code"
  {
    if nodeType == "class_definition" then "class"
    else if nodeType == "function_definition" then "function"
    else if nodeType == "decorated_definition" then "decorated"
    else "code"
  }

  /** `extractGoNodeType`: total, "code" for every unlisted type. */
  function ExtractGoNodeType(nodeType: string): (t: string)
    ensures t == if nodeType in GoTypeNames then GoTypeNames[nodeType] else "code"
  {
    if nodeType == "function_declaration" then "function"
    else if nodeType == "method_declaration" then "method"
    else if nodeType == "type_declaration" then "type"
    else if nodeType == "const_declaration" then "const"
    else if nodeType == "var_declaration" then "var"
    else "code"
  }

  /** The type-naming function each language's walk uses (JavaScript shares TypeScript's). */
  function TypeName(lang: string, nodeType: string): string {
    if lang == "python" then ExtractPythonNodeType(nodeType)
    else if lang == "go" then ExtractGoNodeType(nodeType)
    else ExtractNodeType(nodeType)
  }

  /** The `targetNodeTypes` table of each language's walk. */
  function TargetNodeTypes(lang: string): set<string> {
    if lang == "typescript" then
      {"class_declaration", "function_declaration", "method_definition", "interface_declaration",
       "type_alias_declaration", "export_statement", "lexical_declaration"}
    else if lang == "javascript" then
      {"class_declaration", "function_declaration", "method_definition", "lexical_declaration",
       "variable_declaration", "export_statement"}
    else if lang == "python" then
      {"class_definition", "function_definition", "decorated_definition"}
    else if lang == "go" then
      {"function_declaration", "method_declaration", "type_declaration", "const_declaration",
       "var_declaration"}
    else {}
  }

  predicate IsIdentifier(n: Node) {
    n.kind == "identifier" || n.kind == "type_identifier"
  }

  /** A child `extractNodeName` may take its text from. */
  predicate NameCandidate(n: Node, source: string) {
    IsIdentifier(n) && n.startByte <= n.endByte <= |source|
  }

  /** Child `i` is a candidate and no child before it is one. */
  predicate FirstCandidate(kids: seq<Node>, i: int, source: string)
    requires 0 <= i < |kids|
  {
    NameCandidate(kids[i], source) && forall j :: 0 <= j < i ==> !NameCandidate(kids[j], source)
  }

  /** `extractNodeName`: the text of the first identifier child whose span lies in the source. */
  function ExtractNodeName(node: Node, source: string): (name: string)
    ensures (forall i :: 0 <= i < |node.children| ==> !NameCandidate(node.children[i], source)) ==> name == ""
    ensures forall i :: 0 <= i < |node.children| && FirstCandidate(node.children, i, source) ==>
                          name == Text(source, node.children[i])
  {
    NameFrom(node.children, source)
  }

  function NameFrom(kids: seq<Node>, source: string): (name: string)
    ensures (forall i :: 0 <= i < |kids| ==> !NameCandidate(kids[i], source)) ==> name == ""
    ensures forall i :: 0 <= i < |kids| && FirstCandidate(kids, i, source) ==> name == Text(source, kids[i])
  {
    if kids == [] then ""
    else if NameCandidate(kids[0], source) then
      assert forall i :: 0 < i < |kids| ==> !FirstCandidate(kids, i, source);
      Text(source, kids[0])
    else
      var r := NameFrom(kids[1..], source);
      assert forall i :: 1 <= i < |kids| && FirstCandidate(kids, i, source) ==> FirstCandidate(kids[1..], i - 1, source) by {
        forall i | 1 <= i < |kids| && FirstCandidate(kids, i, source) ensures FirstCandidate(kids[1..], i - 1, source) {
          assert kids[1..][i - 1] == kids[i];
          forall j | 0 <= j < i - 1 ensures !NameCandidate(kids[1..][j], source) {
            assert kids[1..][j] == kids[j + 1];
          }
        }
      }
      r
  }

  // ---------------------------------------------------------------------------
  // Context line

  predicate IsCommentLine(trimmed: string) {
    HasPrefix(trimmed, "//") || HasPrefix(trimmed, "/*") || HasPrefix(trimmed, "*")
  }

  // A comment line with its three comment markers (in source order) and the surrounding space removed.
  function CommentText(trimmed: string): string {
    TrimSpace(TrimPrefix(TrimPrefix(TrimPrefix(trimmed, "//"), "/*"), "*"))
  }

  /** What a line gives the first loop of `extractContext`: the comment text, when the line is a non-empty comment. */
  function CommentOf(line: string): (r: Option<string>)
    ensures r.Some? ==> r.value != "" && r.value == CommentText(TrimSpace(line))
  {
    var trimmed := TrimSpace(line);
    if IsCommentLine(trimmed) && CommentText(trimmed) != "" then Some(CommentText(trimmed)) else None
  }

  /** What a line gives the second loop: the trimmed line, when it is neither blank nor an import. */
  function CodeOf(line: string): (r: Option<string>)
    ensures r.Some? ==> r.value != ""
  {
    var trimmed := TrimSpace(line);
    if trimmed != "" && !HasPrefix(trimmed, "import") then Some(trimmed) else None
  }

  /** What `f` gives the first line it gives something for, scanning in order. */
  function First(f: string -> Option<string>, lines: seq<string>): (r: Option<string>)
    ensures r.Some? ==> exists i :: 0 <= i < |lines| && f(lines[i]) == r
  {
    if lines == [] then None
    else if f(lines[0]).Some? then f(lines[0])
    else
      var r := First(f, lines[1..]);
      assert r.Some? ==> exists i :: 0 <= i < |lines| && f(lines[i]) == r by {
        if r.Some? {
          var j :| 0 <= j < |lines[1..]| && f(lines[1..][j]) == r;
          assert lines[1..][j] == lines[j + 1];
        }
      }
      r
  }

  /** The first loop of `extractContext`. */
  function FirstComment(lines: seq<string>): Option<string> {
    First(CommentOf, lines)
  }

  /** The second loop of `extractContext`. */
  function FirstCode(lines: seq<string>): Option<string> {
    First(CodeOf, lines)
  }

  /** At most the first 60 characters. */
  function Cut60(s: string): (r: string)
    ensures |r| <= 60 && (|s| <= 60 ==> r == s) && (|s| > 60 ==> r == s[..60])
  {
    if |s| > 60 then s[..60] else s
  }

  /** `extractContext`: the first comment text, else the first code line, else "Code chunk", cut to 60 characters. */
  function ContextOf(content: string): (ctx: string)
    ensures 0 < |ctx| <= 60
  {
    var lines := Split(content, '\n');
    match FirstComment(lines)
    case Some(c) =>
      assert c != "" by { FirstNonEmpty(CommentOf, lines); }
      Cut60(c)
    case None =>
      match FirstCode(lines)
      case Some(t) =>
        assert t != "" by { FirstNonEmpty(CodeOf, lines); }
        Cut60(t)
      case None => "Code chunk"
  }

  lemma FirstNonEmpty(f: string -> Option<string>, lines: seq<string>)
    requires forall line :: f(line).Some? ==> f(line).value != ""
    ensures First(f, lines).Some? ==> First(f, lines).value != ""
  {
  }

  /** The first line `f` gives something for decides the result. */
  lemma {:induction false} FirstAt(f: string -> Option<string>, lines: seq<string>, k: nat)
    requires k < |lines| && f(lines[k]).Some?
    requires forall i :: 0 <= i < k ==> f(lines[i]).None?
    ensures First(f, lines) == f(lines[k])
  {
    if k > 0 {
      assert f(lines[0]).None?;
      assert forall i :: 0 <= i < k - 1 ==> lines[1..][i] == lines[i + 1];
      FirstAt(f, lines[1..], k - 1);
    }
  }

  /** Without a line `f` gives something for, the result is `None`. */
  lemma {:induction false} FirstNone(f: string -> Option<string>, lines: seq<string>)
    requires forall i :: 0 <= i < |lines| ==> f(lines[i]).None?
    ensures First(f, lines).None?
  {
    if lines != [] {
      assert f(lines[0]).None?;
      assert forall i :: 0 <= i < |lines| - 1 ==> lines[1..][i] == lines[i + 1];
      FirstNone(f, lines[1..]);
    }
  }

  /**
    A comment line wins over every code line, wherever they stand: the
    context comes from the first comment line when there is one.
  */
  lemma ContextPrefersComment(content: string, k: nat)
    requires k < |Split(content, '\n')| && CommentOf(Split(content, '\n')[k]).Some?
    requires forall i :: 0 <= i < k ==> CommentOf(Split(content, '\n')[i]).None?
    ensures ContextOf(content) == Cut60(CommentOf(Split(content, '\n')[k]).value)
  {
    FirstAt(CommentOf, Split(content, '\n'), k);
  }

  /** Without any comment line, the context is the first code line. */
  lemma ContextFromCode(content: string, k: nat)
    requires forall i :: 0 <= i < |Split(content, '\n')| ==> CommentOf(Split(content, '\n')[i]).None?
    requires k < |Split(content, '\n')| && CodeOf(Split(content, '\n')[k]).Some?
    requires forall i :: 0 <= i < k ==> CodeOf(Split(content, '\n')[i]).None?
    ensures ContextOf(content) == Cut60(CodeOf(Split(content, '\n')[k]).value)
  {
    FirstNone(CommentOf, Split(content, '\n'));
    FirstAt(CodeOf, Split(content, '\n'), k);
  }

  /** Without comment and code lines, the context is "Code chunk". */
  lemma ContextDefault(content: string)
    requires forall i :: 0 <= i < |Split(content, '\n')| ==> CommentOf(Split(content, '\n')[i]).None?
    requires forall i :: 0 <= i < |Split(content, '\n')| ==> CodeOf(Split(content, '\n')[i]).None?
    ensures ContextOf(content) == "Code chunk"
  {
    FirstNone(CommentOf, Split(content, '\n'));
    FirstNone(CodeOf, Split(content, '\n'));
  }

  /** `extractContext`, with its two loops and early returns. */
  method ExtractContext(content: string) returns (ctx: string)
    ensures ctx == ContextOf(content)
  {
    var lines := Split(content, '\n');
    for i := 0 to |lines|
      invariant FirstComment(lines[i..]) == FirstComment(lines)
    {
      assert lines[i..][1..] == lines[i + 1..];
      var trimmed := TrimSpace(lines[i]);
      if IsCommentLine(trimmed) {
        var comment := CommentText(trimmed);
        if |comment| > 60 {
          return comment[..60];
        }
        if |comment| > 0 {
          return comment;
        }
      }
    }
    assert lines[|lines|..] == [];
    for i := 0 to |lines|
      invariant FirstCode(lines[i..]) == FirstCode(lines)
    {
      assert lines[i..][1..] == lines[i + 1..];
      var trimmed := TrimSpace(lines[i]);
      if |trimmed| > 0 && !HasPrefix(trimmed, "import") {
        if |trimmed| > 60 {
          return trimmed[..60];
        }
        return trimmed;
      }
    }
    assert lines[|lines|..] == [];
    return "Code chunk";
  }

  // ---------------------------------------------------------------------------
  // Post-pass numbering

  /** The post-pass of every chunking path. */
  function Numbered(chunks: seq<Chunk>): (r: seq<Chunk>)
    ensures |r| == |chunks|
  {
    seq(|chunks|, i requires 0 <= i < |chunks| =>
      chunks[i].(totalChunks := |chunks|, currentChunk := i, hasMore := i < |chunks| - 1,
                 context := ContextOf(chunks[i].content)))
  }

  /**
    After the post-pass every chunk knows the total and its own index, only the
    last one has no more to come, its context is taken from its content, and
    its text, lines, type and name are as before.
  */
  lemma NumberedFields(chunks: seq<Chunk>, i: nat)
    requires i < |chunks|
    ensures var c := Numbered(chunks)[i];
            && c.totalChunks == |chunks| && c.currentChunk == i
            && (c.hasMore <==> i != |chunks| - 1)
            && c.context == ContextOf(chunks[i].content)
            && c.content == chunks[i].content
            && c.startLine == chunks[i].startLine && c.endLine == chunks[i].endLine
            && c.chunkType == chunks[i].chunkType && c.name == chunks[i].name
  {
  }

  /** The loop `for i := range chunks { ... }` of every chunking path, updating each chunk in turn. */
  method NumberChunks(chunks: seq<Chunk>) returns (numbered: seq<Chunk>)
    ensures numbered == Numbered(chunks)
  {
    numbered := chunks;
    for i := 0 to |chunks|
      invariant |numbered| == |chunks|
      invariant forall j :: 0 <= j < i ==> numbered[j] == Numbered(chunks)[j]
      invariant forall j :: i <= j < |chunks| ==> numbered[j] == chunks[j]
    {
      var ctx := ExtractContext(numbered[i].content);
      numbered := numbered[i := numbered[i].(totalChunks := |chunks|, currentChunk := i,
                                              hasMore := i < |chunks| - 1, context := ctx)];
    }
  }

  // ---------------------------------------------------------------------------
  // The structured walk

  /** What a walk reads: the source lines and text, the token budget and the language. */
  datatype WalkConfig = WalkConfig(lines: seq<string>, source: string, maxTokens: int, lang: string)

  /** The walk's mutable variables: `chunks`, `currentChunk`, `currentStartLine`, `currentTokens`. */
  datatype WalkState = WalkState(chunks: seq<Chunk>, current: seq<string>, startLine: int, tokens: int)

  const EmptyWalk := WalkState([], [], 0, 0)

  /** The lines the copy loop appends for a node: rows start..end, stopping at the last line. */
  function NodeLines(lines: seq<string>, start: nat, end: nat): seq<string> {
    if start <= end && start < |lines| then
      lines[start..if end + 1 < |lines| then end + 1 else |lines|]
    else []
  }

  /** The chunk built from the pending lines, before the post-pass. */
  function PendingChunk(st: WalkState, chunkType: string, name: string): Chunk {
    Chunk(Join(st.current, "\n"), st.startLine + 1, st.startLine + |st.current|, chunkType, name, "", false, 0, 0)
  }

  /** Whether taking `node` on top of the pending lines flushes them first. */
  predicate Flushes(cfg: WalkConfig, st: WalkState, node: Node) {
    st.tokens + EstimateTokens(LinesRange(cfg.lines, node.startRow, node.endRow)) > cfg.maxTokens
      && |st.current| > 0
  }

  /** One target node taken by the walk (the body of the `if` in `walkNodes`). */
  function PackNode(cfg: WalkConfig, st: WalkState, node: Node): WalkState {
    var nodeTokens := EstimateTokens(LinesRange(cfg.lines, node.startRow, node.endRow));
    var st1 :=
      if Flushes(cfg, st, node) then
        WalkState(st.chunks + [PendingChunk(st, TypeName(cfg.lang, node.kind), ExtractNodeName(node, cfg.source))],
                  [], node.startRow, 0)
      else st;
    var st2 := if |st1.current| == 0 then st1.(startLine := node.startRow) else st1;
    st2.(current := st2.current + NodeLines(cfg.lines, node.startRow, node.endRow),
         tokens := st2.tokens + nodeTokens)
  }

  /** The copy loop of `walkNodes`: rows start..end of `lines`, stopping at the last line, appended to `taken`. */
  method AppendLines(taken: seq<string>, lines: seq<string>, start: nat, end: nat) returns (r: seq<string>)
    ensures r == taken + NodeLines(lines, start, end)
  {
    r := taken;
    var i := start;
    while i <= end && i < |lines|
      invariant start <= i <= start + |NodeLines(lines, start, end)|
      invariant r == taken + NodeLines(lines, start, end)[..i - start]
    {
      r := r + [lines[i]];
      i := i + 1;
    }
    assert NodeLines(lines, start, end)[..i - start] == NodeLines(lines, start, end);
  }

  /** `walkNodes(node)`: a target node (or the root) is packed whole; any other node passes its children on. */
  function WalkSpec(cfg: WalkConfig, st: WalkState, node: Node, isRoot: bool): WalkState
    decreases node, |node.children| + 1
  {
    if node.kind in TargetNodeTypes(cfg.lang) || isRoot then PackNode(cfg, st, node)
    else WalkChildren(cfg, st, node, 0)
  }

  /** The children of `node` from index `i` on, walked in order. */
  function WalkChildren(cfg: WalkConfig, st: WalkState, node: Node, i: nat): WalkState
    requires i <= |node.children|
    decreases node, |node.children| - i
  {
    if i == |node.children| then st
    else WalkChildren(cfg, WalkSpec(cfg, st, node.children[i], false), node, i + 1)
  }

  /**
    The pending lines flushed as a final "code" chunk with an empty name:
    the chunks so far are kept, and one chunk is added exactly when lines are pending.
  */
  function Finished(st: WalkState): (r: seq<Chunk>)
    ensures |r| == |st.chunks| + (if |st.current| > 0 then 1 else 0) && r[..|st.chunks|] == st.chunks
    ensures |st.current| > 0 ==> var last := r[|st.chunks|];
      && last.content == Join(st.current, "\n")
      && last.startLine == st.startLine + 1 && last.endLine == st.startLine + |st.current|
      && last.chunkType == "code" && last.name == ""
  {
    if |st.current| > 0 then st.chunks + [PendingChunk(st, "code", "")] else st.chunks
  }

  /** The result of `chunkTypeScript`, `chunkJavaScript`, `chunkPython` or `chunkGo` on a tree. */
  function StructuredChunks(cfg: WalkConfig, root: Node): seq<Chunk> {
    Numbered(Finished(WalkSpec(cfg, EmptyWalk, root, true)))
  }

  /** The closure state of `walkNodes`, with the walk as a recursive method. */
  class ChunkWalk {
    const cfg: WalkConfig
    var chunks: seq<Chunk>
    var currentChunk: seq<string>
    var currentStartLine: int
    var currentTokens: int

    function State(): WalkState
      reads this
    {
      WalkState(chunks, currentChunk, currentStartLine, currentTokens)
    }

    constructor (cfg: WalkConfig)
      ensures this.cfg == cfg && State() == EmptyWalk
    {
      this.cfg := cfg;
      chunks := [];
      currentChunk := [];
      currentStartLine := 0;
      currentTokens := 0;
    }

    /** The pending lines become a chunk named after `node`, and a new chunk starts at its first row. */
    method Flush(node: Node)
      modifies this
      ensures State() == WalkState(old(chunks) + [PendingChunk(old(State()), TypeName(cfg.lang, node.kind),
                                                               ExtractNodeName(node, cfg.source))],
                                   [], node.startRow, 0)
    {
      var chunkContent := Join(currentChunk, "\n");
      var chunk := Chunk(chunkContent, currentStartLine + 1, currentStartLine + |currentChunk|,
                         TypeName(cfg.lang, node.kind), ExtractNodeName(node, cfg.source), "", false, 0, 0);
      assert chunk == PendingChunk(State(), TypeName(cfg.lang, node.kind), ExtractNodeName(node, cfg.source));
      chunks := chunks + [chunk];
      currentChunk := [];
      currentStartLine := node.startRow;
      currentTokens := 0;
    }

    /** The body of the target branch of `walkNodes`: flush if over budget, then take the node's lines. */
    method Take(node: Node)
      modifies this
      ensures State() == PackNode(cfg, old(State()), node)
    {
      var startLine := node.startRow;
      var endLine := node.endRow;
      var nodeContent := GetLinesRange(cfg.lines, startLine, endLine);
      var nodeTokens := EstimateTokens(nodeContent);

      if currentTokens + nodeTokens > cfg.maxTokens && |currentChunk| > 0 {
        Flush(node);
      }
      if |currentChunk| == 0 {
        currentStartLine := startLine;
      }

      currentChunk := AppendLines(currentChunk, cfg.lines, startLine, endLine);
      currentTokens := currentTokens + nodeTokens;
    }

    method WalkNodes(node: Node, isRoot: bool)
      modifies this
      ensures State() == WalkSpec(cfg, old(State()), node, isRoot)
      decreases node
    {
      if node.kind in TargetNodeTypes(cfg.lang) || isRoot {
        Take(node);
        return;
      }

      var i := 0;
      while i < |node.children|
        invariant 0 <= i <= |node.children|
        invariant WalkChildren(cfg, State(), node, i) == WalkChildren(cfg, old(State()), node, 0)
      {
        WalkNodes(node.children[i], false);
        i := i + 1;
      }
    }

    /** The flush after the walk: the pending lines become a last "code" chunk. */
    method Finish() returns (result: seq<Chunk>)
      modifies this
      ensures result == Finished(old(State()))
      ensures chunks == result
      ensures currentChunk == old(currentChunk) && currentStartLine == old(currentStartLine)
      ensures currentTokens == old(currentTokens)
    {
      if |currentChunk| > 0 {
        var chunkContent := Join(currentChunk, "\n");
        chunks := chunks + [Chunk(chunkContent, currentStartLine + 1, currentStartLine + |currentChunk|,
                                  "code", "", "", false, 0, 0)];
      }
      result := chunks;
    }
  }

  /** The structured path: walk from the root, flush, then number. */
  method ChunkStructured(cfg: WalkConfig, root: Node) returns (chunks: seq<Chunk>)
    ensures chunks == StructuredChunks(cfg, root)
  {
    var walk := new ChunkWalk(cfg);
    walk.WalkNodes(root, true);
    var raw := walk.Finish();
    chunks := NumberChunks(raw);
  }

  /** The root always passes the target test, so the walk packs the root's rows and never visits a child. */
  lemma WalkTakesRootOnly(cfg: WalkConfig, root: Node)
    ensures WalkSpec(cfg, EmptyWalk, root, true) == PackNode(cfg, EmptyWalk, root)
    ensures !Flushes(cfg, EmptyWalk, root)
  {
  }

  /**
    The structured path yields exactly one chunk, of type "code" with an empty
    name, covering the root's rows up to the last line, when those rows hold a
    line, and no chunk otherwise.
  */
  lemma StructuredSingleChunk(cfg: WalkConfig, root: Node)
    ensures var cs := StructuredChunks(cfg, root);
            var n := |cfg.lines|;
            var s := root.startRow;
            var end := if root.endRow + 1 < n then root.endRow + 1 else n;
            if s <= root.endRow && s < n then
              && |cs| == 1
              && cs[0].content == Join(cfg.lines[s..end], "\n")
              && cs[0].startLine == s + 1
              && cs[0].endLine == end
              && cs[0].chunkType == "code" && cs[0].name == ""
              && !cs[0].hasMore && cs[0].totalChunks == 1 && cs[0].currentChunk == 0
              && cs[0].context == ContextOf(cs[0].content)
            else cs == []
  {
    var st := WalkSpec(cfg, EmptyWalk, root, true);
    WalkTakesRootOnly(cfg, root);
    assert st.current == NodeLines(cfg.lines, root.startRow, root.endRow);
    assert st.chunks == [] && st.startLine == root.startRow;
  }

  /** When the root spans every row of the file, the one chunk is the whole source text. */
  lemma StructuredCoversSource(source: string, maxTokens: int, lang: string, root: Node)
    requires root.startRow == 0 && root.endRow + 1 >= |Split(source, '\n')|
    ensures var cs := StructuredChunks(WalkConfig(Split(source, '\n'), source, maxTokens, lang), root);
            |cs| == 1 && cs[0].content == source && cs[0].startLine == 1
            && cs[0].endLine == |Split(source, '\n')|
  {
    var lines := Split(source, '\n');
    var end := if root.endRow + 1 < |lines| then root.endRow + 1 else |lines|;
    assert end == |lines|;
    StructuredSingleChunk(WalkConfig(lines, source, maxTokens, lang), root);
    assert lines[0..end] == lines;
    JoinSplit(source, '\n');
  }

  /**
    The greedy packing rule: the pending lines are flushed exactly when the
    node's estimate would take them over the budget and there are some; the
    node's lines are always taken whole, even past the budget, and earlier
    chunks never change. A flushed chunk carries the type and name of the node
    that caused the flush.
  */
  lemma PackNodeGreedy(cfg: WalkConfig, st: WalkState, node: Node)
    ensures var st' := PackNode(cfg, st, node);
            var nodeTokens := EstimateTokens(LinesRange(cfg.lines, node.startRow, node.endRow));
            var taken := NodeLines(cfg.lines, node.startRow, node.endRow);
            && (|st'.chunks| == |st.chunks| + 1 <==> st.tokens + nodeTokens > cfg.maxTokens && |st.current| > 0)
            && st'.chunks[..|st.chunks|] == st.chunks
            && (Flushes(cfg, st, node) ==>
                  && st'.chunks[|st.chunks|].content == Join(st.current, "\n")
                  && st'.chunks[|st.chunks|].chunkType == TypeName(cfg.lang, node.kind)
                  && st'.current == taken && st'.tokens == nodeTokens
                  && st'.startLine == node.startRow)
            && (!Flushes(cfg, st, node) ==>
                  && st'.chunks == st.chunks
                  && st'.current == st.current + taken && st'.tokens == st.tokens + nodeTokens)
  {
  }

  // ---------------------------------------------------------------------------
  // The line-window fallback

  /** The chunks of `chunkFallback` from line index `i` on, before the post-pass. */
  function FallbackFrom(lines: seq<string>, size: nat, i: nat): seq<Chunk>
    requires size > 0
    decreases |lines| - i
  {
    if i >= |lines| then []
    else
      var end := if i + size > |lines| then |lines| else i + size;
      [Chunk(Join(lines[i..end], "\n"), i + 1, end, "text", "", "", false, 0, 0)] + FallbackFrom(lines, size, i + size)
  }

  /** `chunkFallback`: windows of `maxTokens * 4` lines. */
  function FallbackChunks(lines: seq<string>, maxTokens: int): seq<Chunk>
    requires maxTokens > 0
  {
    Numbered(FallbackFrom(lines, maxTokens * 4, 0))
  }

  /**
    `chunkFallback`, with its `i += chunkSize` loop. A budget of zero or less
    makes the Go loop spin forever or slice with a negative index, so the
    model asks for a positive budget.
  */
  method ChunkFallback(lines: seq<string>, maxTokens: int) returns (chunks: seq<Chunk>)
    requires maxTokens > 0
    ensures chunks == FallbackChunks(lines, maxTokens)
  {
    var raw: seq<Chunk> := [];
    var chunkSize := maxTokens * 4;
    var i := 0;
    while i < |lines|
      invariant 0 <= i
      invariant raw + FallbackFrom(lines, chunkSize, i) == FallbackFrom(lines, chunkSize, 0)
      decreases |lines| - i
    {
      var end := i + chunkSize;
      if end > |lines| {
        end := |lines|;
      }
      var content := Join(lines[i..end], "\n");
      raw := raw + [Chunk(content, i + 1, end, "text", "", "", false, 0, 0)];
      i := i + chunkSize;
    }
    chunks := NumberChunks(raw);
  }

  function Min(a: int, b: int): int { if a <= b then a else b }

  /** Chunk k of the windows starting at line index `i` covers lines i + k*size + 1 .. min(i + (k+1)*size, n). */
  lemma {:induction false} FallbackFromWindow(lines: seq<string>, size: nat, i: nat, k: nat)
    requires size > 0 && k < |FallbackFrom(lines, size, i)|
    decreases k
    ensures var c := FallbackFrom(lines, size, i)[k];
            var start := i + k * size;
            var end := Min(start + size, |lines|);
            && start < |lines|
            && c.startLine == start + 1 && c.endLine == end
            && c.content == Join(lines[start..end], "\n")
            && c.chunkType == "text" && c.name == ""
  {
    if k > 0 {
      FallbackFromWindow(lines, size, i + size, k - 1);
      assert i + size + (k - 1) * size == i + k * size;
    }
  }

  /** The last window ends at the last line. */
  lemma {:induction false} FallbackFromEnd(lines: seq<string>, size: nat, i: nat)
    requires size > 0 && i < |lines|
    ensures var cs := FallbackFrom(lines, size, i);
            |cs| >= 1 && cs[|cs| - 1].endLine == |lines|
    decreases |lines| - i
  {
    if i + size < |lines| {
      FallbackFromEnd(lines, size, i + size);
    }
  }

  /**
    Fallback chunk k covers lines k*S+1 .. min((k+1)*S, n) for S = maxTokens*4,
    consecutive chunks are contiguous, and the last one ends at line n.
  */
  lemma FallbackCoverage(lines: seq<string>, maxTokens: int)
    requires maxTokens > 0 && |lines| > 0
    ensures var cs := FallbackChunks(lines, maxTokens);
            var size := maxTokens * 4;
            && |cs| >= 1
            && (forall k :: 0 <= k < |cs| ==>
                  cs[k].startLine == k * size + 1 && cs[k].endLine == Min((k + 1) * size, |lines|))
            && (forall k :: 0 <= k < |cs| - 1 ==> cs[k].endLine + 1 == cs[k + 1].startLine)
            && cs[|cs| - 1].endLine == |lines|
  {
    var size := maxTokens * 4;
    var raw := FallbackFrom(lines, size, 0);
    FallbackFromEnd(lines, size, 0);
    forall k | 0 <= k < |raw|
      ensures raw[k].startLine == k * size + 1 && raw[k].endLine == Min((k + 1) * size, |lines|)
    {
      FallbackFromWindow(lines, size, 0, k);
      assert k * size + size == (k + 1) * size;
    }
    forall k | 0 <= k < |raw| - 1
      ensures raw[k].endLine + 1 == raw[k + 1].startLine
    {
      FallbackFromWindow(lines, size, 0, k);
      FallbackFromWindow(lines, size, 0, k + 1);
      assert k * size + size == (k + 1) * size;
    }
  }

  function Contents(chunks: seq<Chunk>): (r: seq<string>)
    ensures |r| == |chunks| && forall i :: 0 <= i < |chunks| ==> r[i] == chunks[i].content
  {
    seq(|chunks|, i requires 0 <= i < |chunks| => chunks[i].content)
  }

  lemma {:induction false} FallbackFromJoin(lines: seq<string>, size: nat, i: nat)
    requires size > 0 && i < |lines|
    ensures Join(Contents(FallbackFrom(lines, size, i)), "\n") == Join(lines[i..], "\n")
    decreases |lines| - i
  {
    var end := if i + size > |lines| then |lines| else i + size;
    var cs := FallbackFrom(lines, size, i);
    var first := Join(lines[i..end], "\n");
    if end == |lines| {
      assert Contents(cs) == [first];
      assert lines[i..end] == lines[i..];
    } else {
      FallbackFromJoin(lines, size, i + size);
      var rest := FallbackFrom(lines, size, i + size);
      ContentsCons(cs[0], rest);
      JoinStep(lines[i..end], Contents(rest), lines[end..]);
      assert lines[i..end] + lines[end..] == lines[i..];
    }
  }

  lemma ContentsCons(c: Chunk, rest: seq<Chunk>)
    ensures Contents([c] + rest) == [c.content] + Contents(rest)
  {
  }

  /** Joining a joined group with the rest joins the group and the rest. */
  lemma JoinStep(group: seq<string>, rest: seq<string>, restLines: seq<string>)
    requires |group| >= 1 && |rest| >= 1 && |restLines| >= 1
    requires Join(rest, "\n") == Join(restLines, "\n")
    ensures Join([Join(group, "\n")] + rest, "\n") == Join(group + restLines, "\n")
  {
    JoinAppend([Join(group, "\n")], rest, "\n");
    JoinAppend(group, restLines, "\n");
  }

  /** Joining the fallback chunks' contents with "\n" gives back the source text. */
  lemma FallbackReproducesSource(source: string, maxTokens: int)
    requires maxTokens > 0
    ensures Join(Contents(FallbackChunks(Split(source, '\n'), maxTokens)), "\n") == source
  {
    var lines := Split(source, '\n');
    var raw := FallbackFrom(lines, maxTokens * 4, 0);
    assert Contents(FallbackChunks(lines, maxTokens)) == Contents(raw);
    FallbackFromJoin(lines, maxTokens * 4, 0);
    assert lines[0..] == lines;
    JoinSplit(source, '\n');
  }

  // ---------------------------------------------------------------------------
  // ChunkFile

  function ConfigOf(c: Chunker): WalkConfig {
    WalkConfig(c.sourceLines, c.sourceCode, c.maxTokens, c.parser.langName)
  }

  /**
    `ChunkFile`: the tree-sitter parse is an input (`None` when it fails); the
    four supported languages take the structured walk, any other the fallback.
  */
  method ChunkFile(c: Chunker, tree: Option<Node>) returns (r: Result<seq<Chunk>>)
    requires c.parser.langName !in ReaderParser.Supported ==> c.maxTokens > 0
    ensures tree.None? ==> r == Err("failed to parse file: failed to parse source code")
    ensures tree.Some? && c.parser.langName in ReaderParser.Supported ==>
              r == Ok(StructuredChunks(ConfigOf(c), tree.value))
    ensures tree.Some? && c.parser.langName !in ReaderParser.Supported ==>
              r == Ok(FallbackChunks(c.sourceLines, c.maxTokens))
  {
    if tree.None? {
      return Err("failed to parse file: failed to parse source code");
    }
    var lang := c.parser.GetLanguage();
    if lang == "typescript" || lang == "javascript" || lang == "python" || lang == "go" {
      var chunks := ChunkStructured(ConfigOf(c), tree.value);
      return Ok(chunks);
    }
    var chunks := ChunkFallback(c.sourceLines, c.maxTokens);
    return Ok(chunks);
  }

  /**
    Every chunker that `NewChunker` builds takes the structured path:
    `chunkFallback` is unreachable through it. A parsed file yields at most one chunk.
  */
  lemma FallbackUnreachable(filePath: string, sourceCode: string, maxTokens: int, root: Node)
    requires NewChunker(filePath, sourceCode, maxTokens).Ok?
    ensures var c := NewChunker(filePath, sourceCode, maxTokens).value;
            c.parser.langName in ReaderParser.Supported
            && |StructuredChunks(ConfigOf(c), root)| <= 1
  {
    StructuredSingleChunk(ConfigOf(NewChunker(filePath, sourceCode, maxTokens).value), root);
  }
}
