# Progressive reader and dependency scanner, modelled in Dafny

This project models the core of two Go command-line tools and proves
properties of the model.

**progressive-reader** splits a source file into chunks that fit a token
budget. It prints one chunk at a time in a framed box and saves a
continuation token, so a reader can pick up at the next chunk.

| module (file) | Go package |
|---|---|
| `Chunker` (`chunker.dfy`) | `pkg/chunker` |
| `ReaderParser` (`reader_parser.dfy`) | `pkg/parser`: language detection |
| `Continuation` (`continuation.dfy`) | `pkg/token` |
| `Formatter` (`formatter.dfy`) | `pkg/formatter` |

For supported languages the chunker walks the syntax tree. It packs nodes greedily into chunks: a node's tokens are its line range's length divided by four. Every other file is cut into windows of `maxTokens * 4` lines. Each chunk is then numbered and given a short context line.

The continuation token is a small `CONTINUE:key=value` file with a
SHA-256 checksum of the file content.

The formatter renders a chunk as a boxed header, a numbered body and a footer. It also renders a chunk list. Both renderings are modelled as sequences of rows (`Row`, `ListRow`), and the text is those rows rendered one per line.

**dependency-scanner** walks a source tree and parses every TypeScript, JavaScript, Go and Python file. For each file it records imports and exports, and resolves import paths to scanned files. It then fills in each file's importers, detects import cycles with Tarjan's strongly-connected-components algorithm, lists files that nobody imports, and writes a line-oriented TOON file.

| module (file) | Go source |
|---|---|
| `DepParser` (`dep_parser.dfy`) | `parser.go` |
| `DepScanner` (`dep_scanner.dfy`) | `scanner.go` |
| `DepGraph` (`dep_graph.dfy`) | `graph.go` |
| `DepAlgorithms` (`dep_algorithms.dfy`) | `algorithms.go` |
| `DepReach` (`dep_reach.dfy`) | reachability and the invariant of Tarjan's algorithm |

The shared modules are:
- `GoStrings`: the Go standard-library string functions the code calls.
- `SyntaxTree`: a tree-sitter node as a value.
- `Wrappers`: `Option` and `Result`.

Model form:
- Pure code is functions and lemmas.
- Loops are methods proved against those functions.
- State that the Go code updates in place lives in classes:
  - the structured walk's closure state, `Chunker.ChunkWalk`;
  - the dependency graph, `DepGraph.DependencyGraph`;
  - the scanner, `DepScanner.Scanner`;
  - the closure state of cycle detection, `DepAlgorithms.Tarjan`.

The file system, the syntax trees tree-sitter produces, SHA-256, the clock and Go's map iteration order are parameters of the model.

How the code behaves, which the model follows:
- **Structured chunking.** The target test `targetNodeTypes[nodeType] || node == root` (chunker.go:90) always accepts the root. So a structured walk takes the whole tree as one node and emits at most one chunk, of type "code" (`Chunker.StructuredSingleChunk`). The per-language target tables and the flush inside the walk are modelled, but no input reaches them.
- **Resuming.** Resuming re-chunks the file from a saved token file.

## Model

| member | source | states |
|---|---|---|
| `Chunker.NewChunker` | tools/progressive-reader/pkg/chunker/chunker.go:30-44 | succeeds exactly when the parser accepts the path; then the language is the detected one, the lines are the source split at "\n", and the budget is kept; otherwise the parser's error |
| `Chunker.GetLinesRange` | tools/progressive-reader/pkg/chunker/chunker.go:432-445 | the loop joins the clamped line range, as `LinesRange` defines |
| `Chunker.LinesRangeSplits` | tools/progressive-reader/pkg/chunker/chunker.go:432-445 | splitting the joined range at "\n" gives back exactly the clamped lines `start..end` |
| `Chunker.EstimateTokens` | tools/progressive-reader/pkg/chunker/chunker.go:447-449 | the estimate is the length divided by four, rounded down: `4n <= len < 4n + 4` |
| `Chunker.ExtractNodeType` | tools/progressive-reader/pkg/chunker/chunker.go:451-466 | a TypeScript/JavaScript node kind maps to its display name from the table, any other kind to "code" |
| `Chunker.ExtractPythonNodeType` | tools/progressive-reader/pkg/chunker/chunker.go:482-493 | a Python node kind maps to its display name, any other kind to "code" |
| `Chunker.ExtractGoNodeType` | tools/progressive-reader/pkg/chunker/chunker.go:495-510 | a Go node kind maps to its display name, any other kind to "code" |
| `Chunker.ExtractNodeName` | tools/progressive-reader/pkg/chunker/chunker.go:468-480 | the name is the text of the first child of an identifier kind whose span lies in the source, and is "" when no child is one |
| `Chunker.NameFrom` | tools/progressive-reader/pkg/chunker/chunker.go:470-477 | the child loop returns the text of the first candidate child (`FirstCandidate`), and "" when there is none |
| `Chunker.CommentOf` | tools/progressive-reader/pkg/chunker/chunker.go:515-525 | a line that yields a comment yields `CommentText` of the trimmed line, which has the markers stripped, and it is never empty |
| `Chunker.CodeOf` | tools/progressive-reader/pkg/chunker/chunker.go:531-535 | a non-blank line not starting with "import" yields its non-empty trimmed text |
| `Chunker.First` | tools/progressive-reader/pkg/chunker/chunker.go:514-528 | the first hit of a line scan comes from some line of the input |
| `Chunker.Cut60` | tools/progressive-reader/pkg/chunker/chunker.go:521-524 | a text longer than 60 characters is cut to its first 60, a shorter one is kept |
| `Chunker.ContextOf` | tools/progressive-reader/pkg/chunker/chunker.go:512-541 | the context is never empty and never longer than 60 characters |
| `Chunker.FirstAt` | tools/progressive-reader/pkg/chunker/chunker.go:514-528 | the scan returns the hit of the first line that has one |
| `Chunker.FirstNone` | tools/progressive-reader/pkg/chunker/chunker.go:514-528 | the scan finds nothing when no line has a hit |
| `Chunker.ContextPrefersComment` | tools/progressive-reader/pkg/chunker/chunker.go:514-528 | the first comment line gives the context, cut to 60, before any code line is looked at |
| `Chunker.ContextFromCode` | tools/progressive-reader/pkg/chunker/chunker.go:530-538 | with no comment line, the first code line gives the context, cut to 60 |
| `Chunker.ContextDefault` | tools/progressive-reader/pkg/chunker/chunker.go:540 | with neither a comment nor a code line, the context is "Code chunk" |
| `Chunker.ExtractContext` | tools/progressive-reader/pkg/chunker/chunker.go:512-541 | the two loops compute `ContextOf` |
| `Chunker.NumberedFields` | tools/progressive-reader/pkg/chunker/chunker.go:144-149 | after numbering, chunk i has total = count, current = i, hasMore iff it is not the last, context = `ContextOf` of its content; its other fields are unchanged |
| `Chunker.NumberChunks` | tools/progressive-reader/pkg/chunker/chunker.go:144-149 | the numbering loop computes `Numbered` |
| `Chunker.AppendLines` | tools/progressive-reader/pkg/chunker/chunker.go:115-117 | the copy loop appends the node's lines, clamped to the file |
| `Chunker.ChunkWalk.constructor` | tools/progressive-reader/pkg/chunker/chunker.go:70-74 | the walk starts with no chunks, no pending lines and zero tokens |
| `Chunker.ChunkWalk.Flush` | tools/progressive-reader/pkg/chunker/chunker.go:97-109 | the pending lines become a chunk typed and named after the node; the pending state restarts at the node |
| `Chunker.ChunkWalk.Take` | tools/progressive-reader/pkg/chunker/chunker.go:91-120 | taking a node leaves the state `PackNode` describes |
| `Chunker.ChunkWalk.WalkNodes` | tools/progressive-reader/pkg/chunker/chunker.go:87-129 | the recursive walk leaves the state `WalkSpec` describes |
| `Chunker.ChunkWalk.Finish` | tools/progressive-reader/pkg/chunker/chunker.go:133-142 | the chunks become `Finished` of the old state: the earlier chunks kept, plus a final unnamed "code" chunk of the pending lines when there are any; the result is the new chunk list, and the pending lines, start line and tokens are unchanged |
| `Chunker.Finished` | tools/progressive-reader/pkg/chunker/chunker.go:133-142 | the earlier chunks are kept, and exactly when lines are pending one chunk is added: their join, lines start+1 to start+count, type "code", no name |
| `Chunker.ChunkStructured` | tools/progressive-reader/pkg/chunker/chunker.go:69-152 | the structured chunking of a tree computes `StructuredChunks` |
| `Chunker.WalkTakesRootOnly` | tools/progressive-reader/pkg/chunker/chunker.go:90 | the walk takes the root as a single node and never flushes |
| `Chunker.StructuredSingleChunk` | tools/progressive-reader/pkg/chunker/chunker.go:69-152 | structured chunking yields exactly one chunk when the root's range meets the file, else none; that chunk is the root's lines: type "code", no name, 1 of 1, no more |
| `Chunker.StructuredCoversSource` | tools/progressive-reader/pkg/chunker/chunker.go:69-152 | when the root spans the whole file, the one chunk's content is the source itself, lines 1 to the last |
| `Chunker.PackNodeGreedy` | tools/progressive-reader/pkg/chunker/chunker.go:96-118 | a new chunk is cut iff the node would overflow the budget and lines are pending; earlier chunks are kept; otherwise the node's lines and tokens are added |
| `Chunker.ChunkFallback` | tools/progressive-reader/pkg/chunker/chunker.go:402-430 | the window loop computes `FallbackChunks` |
| `Chunker.FallbackFromWindow` | tools/progressive-reader/pkg/chunker/chunker.go:406-420 | window k starts at line `k*size + 1`, ends at the smaller of the next start and the file end, holds those lines, and is "text" with no name |
| `Chunker.FallbackFromEnd` | tools/progressive-reader/pkg/chunker/chunker.go:406-420 | the last window ends at the last line |
| `Chunker.FallbackCoverage` | tools/progressive-reader/pkg/chunker/chunker.go:402-430 | the windows are consecutive, without gaps or overlaps, from line 1 to the last line |
| `Chunker.FallbackFromJoin` | tools/progressive-reader/pkg/chunker/chunker.go:406-420 | joining the windows' contents with "\n" gives the joined lines |
| `Chunker.FallbackReproducesSource` | tools/progressive-reader/pkg/chunker/chunker.go:402-430 | joining all fallback chunks with "\n" gives back the source text |
| `Chunker.ChunkFile` | tools/progressive-reader/pkg/chunker/chunker.go:46-67 | no tree is the error "failed to parse file: failed to parse source code"; a supported language chunks structurally, any other falls back to windows |
| `Chunker.FallbackUnreachable` | tools/progressive-reader/pkg/chunker/chunker.go:46-67 | a chunker that `NewChunker` builds always has a supported language, so `ChunkFile` gives at most one chunk |
| `ReaderParser.DetectLanguage` | tools/progressive-reader/pkg/parser/parser.go:60-74 | the language is a supported one, or "text" exactly when the lower-cased extension is unknown |
| `ReaderParser.LanguageOfExtension` | tools/progressive-reader/pkg/parser/parser.go:62-73 | an extension maps to a supported language, or to "text" exactly when it is unknown |
| `ReaderParser.NewParser` | tools/progressive-reader/pkg/parser/parser.go:21-46 | succeeds iff the extension is known; `GetLanguage` is then the detected language; else the error "unsupported language: " plus the detected language |
| `ReaderParser.DetectLanguageIgnoresCase` | tools/progressive-reader/pkg/parser/parser.go:61 | lower-casing the path does not change the detected language |
| `ReaderParser.NoExtensionIsText` | tools/progressive-reader/pkg/parser/parser.go:60-74 | a path without a dot is "text", and the parser refuses it |
| `Continuation.NewContinuationToken` | tools/progressive-reader/pkg/token/continuation.go:22-34 | current chunk = offset - 1; hasMore iff offset < total; the checksum is the digest of the content; the other fields are the arguments |
| `Continuation.ValidateChecksum` | tools/progressive-reader/pkg/token/continuation.go:131-139 | succeeds iff the content's digest equals the stored checksum; otherwise the error "file has been modified since token was created" |
| `Continuation.NewTokenValidates` | tools/progressive-reader/pkg/token/continuation.go:131-139 | a fresh token validates its own content, and rejects content whose digest differs |
| `Continuation.SavedLines` | tools/progressive-reader/pkg/token/continuation.go:45-56 | the token file has eight lines, the last being "---" |
| `Continuation.SaveToFile` | tools/progressive-reader/pkg/token/continuation.go:36-59 | writes `SavedText`, the saved lines each ended by "\n" |
| `Continuation.ScanLines` | tools/progressive-reader/pkg/token/continuation.go:69-72 | the line scanner yields lines without "\n", each shorter than 64 KiB, and stops with an error exactly when some line is 64 KiB or longer |
| `Continuation.ScanUnlines` | tools/progressive-reader/pkg/token/continuation.go:69-72 | scanning newline-terminated lines shorter than 64 KiB gives those lines back, without error |
| `Continuation.LineField` | tools/progressive-reader/pkg/token/continuation.go:78-88 | a field line is "CONTINUE:" + key + "=" + value, where the key has no "=" |
| `Continuation.LineFieldOfFieldLine` | tools/progressive-reader/pkg/token/continuation.go:82-88 | parsing a written field line gives back its key and value |
| `Continuation.ApplyField` | tools/progressive-reader/pkg/token/continuation.go:90-117 | fails iff the key is one of the three integer keys and `Atoi` rejects the value (not an integer, or outside the 64-bit range) |
| `Continuation.Load` | tools/progressive-reader/pkg/token/continuation.go:61-129 | a missing file is "failed to open token file"; a loaded token always has a file path |
| `Continuation.LoadFromFile` | tools/progressive-reader/pkg/token/continuation.go:61-129 | the loader computes `Load` |
| `Continuation.ScanLoop` | tools/progressive-reader/pkg/token/continuation.go:71-122 | the scan loop computes `ParseLines` from an empty token, including the read error reported when the lines run out |
| `Continuation.ScanSavedText` | tools/progressive-reader/pkg/token/continuation.go:45-56 | scanning a saved file gives back the saved lines, without a read error |
| `Continuation.ParseSavedLines` | tools/progressive-reader/pkg/token/continuation.go:90-117 | parsing the saved lines from an empty token rebuilds the token |
| `Continuation.RoundTrip` | tools/progressive-reader/pkg/token/continuation.go:36-129 | loading what `SaveToFile` wrote gives back the token, for every token with a path, no line breaks in its strings, text lines shorter than 64 KiB and 64-bit integers |
| `Continuation.SavedTokenValidates` | tools/progressive-reader/pkg/token/continuation.go:22-139 | a new token, saved then loaded, still validates the same content |
| `Continuation.StopsAtTerminator` | tools/progressive-reader/pkg/token/continuation.go:74-76 | nothing after a "---" line is read, and a scanner error after it does not matter |
| `Continuation.RepeatedKeyOverwrites` | tools/progressive-reader/pkg/token/continuation.go:90-117 | a repeated key overwrites the earlier value |
| `Continuation.HasMoreOnlyTrue` | tools/progressive-reader/pkg/token/continuation.go:115-116 | hasMore never fails and is true iff the value is exactly "true" |
| `Continuation.BadIntegerFails` | tools/progressive-reader/pkg/token/continuation.go:93-113 | an offset, totalChunks or currentChunk that is not an integer, or lies outside the 64-bit range, fails the load |
| `Continuation.ReadErrorFails` | tools/progressive-reader/pkg/token/continuation.go:120-122 | when the scanner stopped with an error and no "---" line came first, the load fails with "error reading token file" |
| `Continuation.LongPathFails` | tools/progressive-reader/pkg/token/continuation.go:69-122 | a saved token whose file line is 64 KiB or longer does not load |
| `Continuation.OffsetOutOfRangeFails` | tools/progressive-reader/pkg/token/continuation.go:93-97 | a saved token whose offset lies outside the 64-bit range does not load: "invalid offset value" |
| `Continuation.MissingFileFails` | tools/progressive-reader/pkg/token/continuation.go:124-126 | a token file that sets no file path is "invalid token file: missing file path" |
| `Formatter.Truncate` | tools/progressive-reader/pkg/formatter/formatter.go:87-92 | short strings are kept; a longer one becomes its first m-3 characters plus "..." and is exactly m long |
| `Formatter.BodyRows` | tools/progressive-reader/pkg/formatter/formatter.go:37-42 | one body row per content line, numbered from the chunk's start line |
| `Formatter.WriteInfo` | tools/progressive-reader/pkg/formatter/formatter.go:19-32 | the info writes are the rows `InfoRows` lists |
| `Formatter.WriteBody` | tools/progressive-reader/pkg/formatter/formatter.go:37-42 | the body loop writes `BodyRows` of the content's lines |
| `Formatter.WriteFooter` | tools/progressive-reader/pkg/formatter/formatter.go:44-59 | the footer writes are the rows `FooterRows` lists |
| `Formatter.FormatChunk` | tools/progressive-reader/pkg/formatter/formatter.go:10-62 | the output is the chunk's rows rendered one per line |
| `Formatter.ChunkFits` | tools/progressive-reader/pkg/formatter/formatter.go:19-59 | every optional row appears only under its condition and shows the chunk's own value (the token path truncated to 38) |
| `Formatter.ChunkHas` | tools/progressive-reader/pkg/formatter/formatter.go:19-59 | every optional row appears when its condition holds |
| `Formatter.MoreShown` | tools/progressive-reader/pkg/formatter/formatter.go:45-46 | the "more chunks" row appears iff the chunk has more |
| `Formatter.EndShown` | tools/progressive-reader/pkg/formatter/formatter.go:56-58 | the end-of-file row appears iff the chunk has no more |
| `Formatter.SavedShown` | tools/progressive-reader/pkg/formatter/formatter.go:47-51 | the "token saved" row appears iff there are more chunks and a token path, showing the path truncated to 38 |
| `Formatter.UseShown` | tools/progressive-reader/pkg/formatter/formatter.go:47-52 | the usage row appears iff there are more chunks and a token path, showing the path truncated to 38 |
| `Formatter.TypeShownIff` | tools/progressive-reader/pkg/formatter/formatter.go:22-24 | the type row appears iff the type is not "", "code" or "text", and only with the chunk's type |
| `Formatter.NameShown` | tools/progressive-reader/pkg/formatter/formatter.go:26-28 | the name row appears iff the name is non-empty |
| `Formatter.ContextShown` | tools/progressive-reader/pkg/formatter/formatter.go:30-32 | the context row appears iff the context is non-empty |
| `Formatter.BodyNumbering` | tools/progressive-reader/pkg/formatter/formatter.go:34-44 | the body sits between two blank rows after the info rows; line i is numbered start + i |
| `Formatter.HeaderShown` | tools/progressive-reader/pkg/formatter/formatter.go:13-20 | the first rows are the header, the file row and the lines row |
| `Formatter.HeaderWidth` | tools/progressive-reader/pkg/formatter/formatter.go:13-17 | a header of up to 54 characters gives a top border exactly 58 characters wide, holding the header and closed by "┐" |
| `Formatter.Entries` | tools/progressive-reader/pkg/formatter/formatter.go:70-82 | one entry per chunk, numbered by position |
| `Formatter.EntryRows` | tools/progressive-reader/pkg/formatter/formatter.go:76-81 | an entry has a context row exactly when the context is non-empty |
| `Formatter.FormatChunkList` | tools/progressive-reader/pkg/formatter/formatter.go:64-85 | the output is the list rows rendered one per line |
| `Formatter.EntriesLength` | tools/progressive-reader/pkg/formatter/formatter.go:70-82 | the first i entries take i rows plus one per non-empty context |
| `Formatter.ListHeader` | tools/progressive-reader/pkg/formatter/formatter.go:67-68 | the list starts with the file row, the total row and a blank row, and has one row per chunk plus one per context |
| `Formatter.EntryAt` | tools/progressive-reader/pkg/formatter/formatter.go:70-82 | entry i sits at row 3 + i + (contexts before it) |
| `Formatter.ListEntry` | tools/progressive-reader/pkg/formatter/formatter.go:71-81 | chunk i's row shows i+1 of n, its line range and its type info, followed by its context when it has one |
| `GoStrings.TrimPrefix` | tools/dependency-scanner/scanner.go:94 | a present prefix is removed, otherwise the string is kept |
| `GoStrings.Split` | tools/progressive-reader/pkg/chunker/chunker.go:36 | at least one part, none containing the separator |
| `GoStrings.JoinSplit` | tools/progressive-reader/pkg/chunker/chunker.go:36 | joining the split parts with the separator gives back the string |
| `GoStrings.SplitJoin` | tools/progressive-reader/pkg/chunker/chunker.go:412 | splitting joined separator-free parts gives back the parts |
| `GoStrings.SplitUnlines` | tools/progressive-reader/pkg/formatter/formatter.go:37 | splitting newline-terminated lines gives the lines plus a final "" |
| `GoStrings.TrimLeft` | tools/progressive-reader/pkg/chunker/chunker.go:515 | only cut characters are removed from the front, and the result starts with none |
| `GoStrings.TrimRight` | tools/progressive-reader/pkg/chunker/chunker.go:515 | only cut characters are removed from the back, and the result ends with none |
| `GoStrings.TrimSpaceTrimmed` | tools/dependency-scanner/scanner.go:92 | the trimmed string neither starts nor ends with white space, and trimming again changes nothing |
| `GoStrings.ToLower` | tools/progressive-reader/pkg/parser/parser.go:61 | same length, each character lower-cased |
| `GoStrings.Ext` | tools/dependency-scanner/parser.go:118 | the extension is "" or a suffix of the path that starts with "." and has no other "." or "/"; with `ExtFound`, it is non-empty exactly when the final element has a "." |
| `GoStrings.ExtFound` | tools/dependency-scanner/parser.go:118 | the extension is non-empty exactly when some "." of the path has no "/" after it, that is, when the final path element has a "." |
| `GoStrings.ExtToLower` | tools/progressive-reader/pkg/parser/parser.go:61 | the extension of the lower-cased path is the lower-cased extension |
| `GoStrings.IntToString` | tools/progressive-reader/pkg/token/continuation.go:46 | decimal digits with an optional leading "-" |
| `GoStrings.Atoi` | tools/progressive-reader/pkg/token/continuation.go:94 | succeeds exactly when the text is a signed decimal whose value fits Go's 64-bit `int` |
| `GoStrings.IntToStringShort` | tools/progressive-reader/pkg/token/continuation.go:46 | a 64-bit integer prints in at most 20 characters |
| `GoStrings.AtoiIntToString` | tools/progressive-reader/pkg/token/continuation.go:94 | parsing a printed integer gives it back when it fits 64 bits, and fails otherwise |
| `GoStrings.Repeat` | tools/progressive-reader/pkg/formatter/formatter.go:16 | length n·len(s), or "" for n <= 0, every character taken from s |
| `GoStrings.RepeatCopies` | tools/progressive-reader/pkg/formatter/formatter.go:16 | the result is n copies of s in a row: characters k·len(s) up to (k+1)·len(s) are s, for every k < n |
| `GoStrings.PadRight` | tools/progressive-reader/pkg/formatter/formatter.go:19 | the string followed by spaces up to the width |
| `GoStrings.PadLeft` | tools/progressive-reader/pkg/formatter/formatter.go:40 | spaces up to the width, followed by the string |
| `SyntaxTree.Text` | tools/dependency-scanner/parser.go:174 | a node's text is its byte range of the content |
| `DepParser.NewParser` | tools/dependency-scanner/parser.go:23-48 | the loaded languages are exactly the requested names that have a grammar |
| `DepParser.DetectedIffKnownExtension` | tools/dependency-scanner/parser.go:117-139 | a language is detected iff the extension is a source extension |
| `DepParser.DetectedIsGrammar` | tools/dependency-scanner/parser.go:117-139 | a detected language is one of the grammars |
| `DepParser.TsxFallback` | tools/dependency-scanner/parser.go:120-125 | ".tsx" is "tsx" when that grammar is loaded, else "typescript"; only ".tsx" gives "tsx" |
| `DepParser.UpperCaseExtensionUnknown` | tools/dependency-scanner/parser.go:117-139 | an extension with an upper-case letter is not detected |
| `DepParser.Parse` | tools/dependency-scanner/parser.go:51-105 | a parsed file keeps its path and detected language and has no importers yet |
| `DepParser.ParseSucceeds` | tools/dependency-scanner/parser.go:51-105 | parsing succeeds iff the language is detected and loaded, the file reads, and the tree parses |
| `DepParser.ParseFailsBeforeRead` | tools/dependency-scanner/parser.go:53-62 | an unknown or unloaded language fails without looking at the file |
| `DepParser.TsxHasNoExports` | tools/dependency-scanner/parser.go:297-316 | no export query runs for "tsx" |
| `DepParser.ParseFile` | tools/dependency-scanner/parser.go:51-105 | the parse method computes `Parse` |
| `DepParser.FirstOfKind` | tools/dependency-scanner/parser.go:169-186 | finds the first child of a wanted kind, or reports that there is none |
| `DepParser.FirstOfKindAt` | tools/dependency-scanner/parser.go:169-186 | the child loop stops at the first child of a wanted kind |
| `DepParser.FirstPath` | tools/dependency-scanner/parser.go:169-186 | an import statement yields at most one import, on the statement's row |
| `DepParser.FirstPathFound` | tools/dependency-scanner/parser.go:169-186 | an import is found iff some child is a string of the wanted kind |
| `DepParser.PathUnquoted` | tools/dependency-scanner/parser.go:176 | the import path neither starts nor ends with a quote |
| `DepParser.ModuleNames` | tools/dependency-scanner/parser.go:242-257 | one import per dotted-name child, on the statement's row |
| `DepParser.ModuleNamesFromChildren` | tools/dependency-scanner/parser.go:242-257 | every such import's path is the text of a dotted-name child |
| `DepParser.FromModule` | tools/dependency-scanner/parser.go:260-279 | a from-import yields at most one import, with a non-empty path, on its row |
| `DepParser.NodeImports` | tools/dependency-scanner/parser.go:164-279 | a node's own imports all sit on its row |
| `DepParser.CollectInDocumentOrder` | tools/dependency-scanner/parser.go:189-193 | the recursive traversal yields imports sorted by line and within the node's rows |
| `DepParser.ImportsInDocumentOrder` | tools/dependency-scanner/parser.go:142-155 | the extracted imports are in line order and within the file's rows |
| `DepParser.FirstOfKindIn` | tools/dependency-scanner/parser.go:169-186 | the child loop computes `FirstOfKind` |
| `DepParser.FirstPathOf` | tools/dependency-scanner/parser.go:169-186 | the import-statement branch computes `FirstPath` |
| `DepParser.ModuleNamesOf` | tools/dependency-scanner/parser.go:242-257 | the import-statement loop computes `ModuleNames` |
| `DepParser.FromModuleOf` | tools/dependency-scanner/parser.go:260-279 | the from-import loop computes `FromModule` |
| `DepParser.NodeImportsOf` | tools/dependency-scanner/parser.go:164-279 | one node's step computes `NodeImports` |
| `DepParser.Traverse` | tools/dependency-scanner/parser.go:164-197 | the recursive traversal appends `Collect` of the node to the accumulator |
| `DepParser.ExtractImportsOf` | tools/dependency-scanner/parser.go:142-155 | the dispatch computes `ExtractImports` |
| `DepParser.OtherLanguagesNoImports` | tools/dependency-scanner/parser.go:142-155 | a language without a grammar has no imports |
| `DepParser.ExtractExports` | tools/dependency-scanner/parser.go:292-351 | no exports without a query or a query result; otherwise one export per capture, on the capture's row |
| `DepScanner.MergeExcludes` | tools/dependency-scanner/scanner.go:103-110 | the excluded directories are exactly the defaults plus the custom ones |
| `DepScanner.ModuleNameFound` | tools/dependency-scanner/scanner.go:86-101 | a module name is found iff go.mod has a line starting with "module " |
| `DepScanner.ModuleNameTrimmed` | tools/dependency-scanner/scanner.go:92-95 | the module name has no surrounding white space |
| `DepScanner.ReadModuleName` | tools/dependency-scanner/scanner.go:86-101 | no go.mod gives ""; otherwise the name from its first module line |
| `DepScanner.LanguageLines` | tools/dependency-scanner/scanner.go:146-159 | the loaded lines are trimmed, non-empty, not comments, and every such line of the file is loaded |
| `DepScanner.LoadLanguages` | tools/dependency-scanner/scanner.go:127-160 | fails iff the home directory is unknown or the file cannot be read; a success is never empty |
| `DepScanner.LanguagesOrDefaults` | tools/dependency-scanner/scanner.go:146-159 | a file that lists nothing loads the four defaults; otherwise every listed line is loaded |
| `DepScanner.ListedLines` | tools/dependency-scanner/scanner.go:146-159 | nothing is loaded iff no line is listed |
| `DepScanner.ReadLanguageLines` | tools/dependency-scanner/scanner.go:146-159 | the line loop computes `LanguageLines` |
| `DepScanner.SupportedIffDetected` | tools/dependency-scanner/scanner.go:227-241 | a file is supported iff the parser detects a language for it |
| `DepScanner.Candidates` | tools/dependency-scanner/scanner.go:281-301 | a relative import tries the seven suffixes, in order, then the four index files |
| `DepScanner.FirstExisting` | tools/dependency-scanner/scanner.go:284-299 | picks the first candidate that exists, or reports that none does |
| `DepScanner.ModuleImportResolved` | tools/dependency-scanner/scanner.go:262-275 | a module import resolves the same from any file: to a glob match, to the package path plus ".go" when that exists, or to "" when neither exists |
| `DepScanner.ExternalUnresolved` | tools/dependency-scanner/scanner.go:277-279 | an import neither in the module nor relative resolves to "" |
| `DepScanner.RelativeFirstExisting` | tools/dependency-scanner/scanner.go:281-301 | a relative import resolves to the first existing candidate, or to "" when none exists |
| `DepScanner.SuffixBeforeIndex` | tools/dependency-scanner/scanner.go:284-290 | when the bare path does not exist but its ".ts" file does, the ".ts" file is chosen |
| `DepScanner.ResolvedImports` | tools/dependency-scanner/scanner.go:246-251 | resolved imports take the resolved path, unresolved ones are kept; symbols and lines are unchanged |
| `DepScanner.Rebuilt` | tools/dependency-scanner/scanner.go:244-259 | the reverse-import pass keeps the set of files |
| `DepScanner.HitsPositive` | tools/dependency-scanner/scanner.go:246-256 | a file's imports reach a target iff one of them resolves to it |
| `DepScanner.ImportersIff` | tools/dependency-scanner/scanner.go:244-259 | a file is listed as an importer iff one of its imports resolves to the target |
| `DepScanner.ImportersCount` | tools/dependency-scanner/scanner.go:244-259 | an importer is listed once per import of it that resolves to the target |
| `DepScanner.NoImportersIff` | tools/dependency-scanner/scanner.go:244-259 | a file ends with no importers iff no file's import resolves to it |
| `DepScanner.ReverseImports` | tools/dependency-scanner/scanner.go:244-259 | the nested loops compute `Rebuilt` |
| `DepScanner.VisitFile` | tools/dependency-scanner/scanner.go:245-257 | one file's turn of the outer loop |
| `DepScanner.VisitImport` | tools/dependency-scanner/scanner.go:247-256 | one import's turn of the inner loop |
| `DepScanner.VisitingStep` | tools/dependency-scanner/scanner.go:247-256 | one import step rewrites the importer's import and appends the importer to the target |
| `DepScanner.WalkSound` | tools/dependency-scanner/scanner.go:169-204 | every walked path lies under no excluded directory |
| `DepScanner.WalkComplete` | tools/dependency-scanner/scanner.go:169-204 | a walk without error hands on every non-directory under non-excluded directories |
| `DepScanner.StoreFile` | tools/dependency-scanner/scanner.go:185-201 | the callback stores the parse of a supported file that parses |
| `DepScanner.StoredIff` | tools/dependency-scanner/scanner.go:185-201 | a file is stored iff it is supported, its language is loaded, it reads and it parses |
| `DepScanner.ParsedKeys` | tools/dependency-scanner/scanner.go:169-204 | after the walk, the files are the earlier ones plus the stored walked paths |
| `DepScanner.ParsedUnimported` | tools/dependency-scanner/scanner.go:169-204 | before the reverse pass, no file has importers |
| `DepScanner.MapOrder` | tools/dependency-scanner/scanner.go:245 | Go's map iteration visits every key exactly once |
| `DepScanner.Scanner.constructor` | tools/dependency-scanner/scanner.go:116-123 | the scanner keeps its configuration and owns an empty graph |
| `DepScanner.Scanner.AddFiles` | tools/dependency-scanner/scanner.go:169-204 | the walk callback adds the parsed files and leaves the rest of the graph alone |
| `DepScanner.Scanner.BuildReverseImports` | tools/dependency-scanner/scanner.go:244-259 | the graph's files become `Rebuilt`, and nothing else changes |
| `DepScanner.Scanner.Scan` | tools/dependency-scanner/scanner.go:163-224 | a walk error is returned as it stands; otherwise imports are resolved, the dead files are exactly those without importers, and every cycle has at least two distinct, mutually reachable scanned files, disjoint from the other cycles |
| `DepScanner.NewScanner` | tools/dependency-scanner/scanner.go:69-124 | fails iff the languages cannot be loaded, with the error wrapped; else the loaded grammars, the module name and the exclusions are as configured, and the graph is empty |
| `DepGraph.DependencyGraph.constructor` | tools/dependency-scanner/graph.go:40-47 | the graph starts empty, stamped with the given time |
| `DepGraph.DependencyGraph.SaveToon` | tools/dependency-scanner/graph.go:58-122 | the TOON text is the graph's rows rendered one per line |
| `DepGraph.DependencyGraph.WriteRecords` | tools/dependency-scanner/graph.go:61-97 | the record loop writes `RecordRows` |
| `DepGraph.DependencyGraph.WriteCycles` | tools/dependency-scanner/graph.go:99-106 | the cycle section is written as `CycleSection` |
| `DepGraph.DependencyGraph.WriteDeadCode` | tools/dependency-scanner/graph.go:108-115 | the dead-code section is written as `DeadSection` |
| `DepGraph.DependencyGraph.LanguageCounts` | tools/dependency-scanner/graph.go:125-128 | each language is counted once per file of that language |
| `DepGraph.CountStep` | tools/dependency-scanner/graph.go:126-127 | counting one more file keeps the counts exact |
| `DepGraph.CircularRows` | tools/dependency-scanner/graph.go:100-103 | one row per cycle, in order |
| `DepGraph.DeadRows` | tools/dependency-scanner/graph.go:109-112 | one row per dead file, in order |
| `DepGraph.RecordRows` | tools/dependency-scanner/graph.go:61-97 | six rows per file |
| `DepGraph.RecordAt` | tools/dependency-scanner/graph.go:61-97 | file k's record is rows 6k to 6k+5 |
| `DepGraph.ToonRecords` | tools/dependency-scanner/graph.go:58-97 | the TOON file begins with the records of the files, in map order |
| `DepGraph.CycleSectionShape` | tools/dependency-scanner/graph.go:99-106 | the cycle section is absent without cycles, else one row per cycle plus an end row |
| `DepGraph.DeadSectionShape` | tools/dependency-scanner/graph.go:108-115 | the dead-code section is absent without dead files, else one row per file plus an end row |
| `DepGraph.ToonSize` | tools/dependency-scanner/graph.go:58-122 | the file has 6 rows per file, then the two sections, then one META row |
| `DepGraph.ToonCycles` | tools/dependency-scanner/graph.go:99-106 | the cycle rows follow the records |
| `DepGraph.ToonDead` | tools/dependency-scanner/graph.go:108-115 | the dead-code rows follow the cycle section, and one row comes after them |
| `DepGraph.MetaLast` | tools/dependency-scanner/graph.go:117-119 | the META row is last and is the only one |
| `DepGraph.ListFieldsEmpty` | tools/dependency-scanner/graph.go:70-94 | an IMPORTS or EXPORTS field is bare exactly when its list is empty |
| `DepGraph.ImportFieldParts` | tools/dependency-scanner/graph.go:74 | an import field is the path, ":", then the line, which parses back when it fits 64 bits |
| `DepGraph.ToonLines` | tools/dependency-scanner/graph.go:58-122 | the text has one line per row; the last is "META:lastUpdated=" + time; no earlier line starts with "META:" |
| `DepGraph.SumFilesOf` | tools/dependency-scanner/graph.go:125-128 | the counts over distinct languages add up to the files of those languages |
| `DepGraph.CountsSum` | tools/dependency-scanner/graph.go:124-141 | the language counts add up to the number of files |
| `DepAlgorithms.KnownTargets` | tools/dependency-scanner/algorithms.go:10-14 | the edges of a file are paths of its imports that name scanned files, every such import included; order and multiplicity are stated by the two lemmas below |
| `DepAlgorithms.KnownTargetsInOrder` | tools/dependency-scanner/algorithms.go:10-14 | there is one edge per import naming a scanned file (`KnownCount`), and such an import sits at the position counted by the such imports before it, so the edges keep import order |
| `DepAlgorithms.KnownTargetsFilled` | tools/dependency-scanner/algorithms.go:10-14 | every edge position holds such an import, so nothing else is in the list |
| `DepAlgorithms.Adjacency` | tools/dependency-scanner/algorithms.go:7-16 | one adjacency entry per file, and every edge ends at a file |
| `DepAlgorithms.KnownTargetsOf` | tools/dependency-scanner/algorithms.go:10-14 | the import loop computes `KnownTargets` |
| `DepAlgorithms.BuildAdjacency` | tools/dependency-scanner/algorithms.go:7-16 | the adjacency loop computes `Adjacency` |
| `DepAlgorithms.Tarjan.constructor` | tools/dependency-scanner/algorithms.go:19-24 | the closure state starts empty and satisfies the invariant |
| `DepAlgorithms.Tarjan.Pop` | tools/dependency-scanner/algorithms.go:52-54 | pops the top node off the stack and the on-stack set, keeping the invariant |
| `DepAlgorithms.Tarjan.PopTo` | tools/dependency-scanner/algorithms.go:51-59 | pops down to and including v and returns the nodes in pop order |
| `DepAlgorithms.Tarjan.PopComponent` | tools/dependency-scanner/algorithms.go:50-65 | pops the stack down to v; when two or more nodes were popped, exactly one component is appended, holding them in pop order; otherwise nothing is appended |
| `DepAlgorithms.Tarjan.Push` | tools/dependency-scanner/algorithms.go:29-33 | v gets the next index as index and lowlink and is pushed |
| `DepAlgorithms.Tarjan.Number` | tools/dependency-scanner/algorithms.go:29-31 | v gets the next index as index and lowlink |
| `DepAlgorithms.Tarjan.PushNumbered` | tools/dependency-scanner/algorithms.go:32-33 | v is pushed onto the stack and the on-stack set |
| `DepAlgorithms.Tarjan.Lower` | tools/dependency-scanner/algorithms.go:40-46 | lowers v's lowlink to the index of a stack node v reaches |
| `DepAlgorithms.Tarjan.StrongConnect` | tools/dependency-scanner/algorithms.go:28-66 | v gets the next index, every node indexed during the call is reachable from v, and the stack above the caller's is v's chain or empty |
| `DepAlgorithms.Tarjan.Close` | tools/dependency-scanner/algorithms.go:50-65 | at a root, every node above v reaches v, so the popped component is strongly connected |
| `DepAlgorithms.Tarjan.Visit` | tools/dependency-scanner/algorithms.go:36-47 | one successor keeps the loop invariant |
| `DepAlgorithms.Tarjan.Descend` | tools/dependency-scanner/algorithms.go:37-41 | recursion on an unvisited successor keeps the loop invariant |
| `DepAlgorithms.Tarjan.Relink` | tools/dependency-scanner/algorithms.go:40-46 | taking a lower lowlink keeps the loop invariant |
| `DepAlgorithms.Tarjan.Root` | tools/dependency-scanner/algorithms.go:69-73 | a top-level call leaves the stack empty |
| `DepAlgorithms.Tarjan.Run` | tools/dependency-scanner/algorithms.go:69-73 | the driver indexes every node and leaves the stack empty |
| `DepAlgorithms.DetectCircularDependencies` | tools/dependency-scanner/algorithms.go:5-76 | every reported cycle has at least two distinct scanned files, all reaching each other along import edges, and cycles are pairwise disjoint |
| `DepAlgorithms.DetectDeadCode` | tools/dependency-scanner/algorithms.go:80-92 | the dead files are exactly the files without importers, each listed once |
| `DepReach.ReachesTrans` | tools/dependency-scanner/algorithms.go:36-47 | reachability along import edges is transitive |
| `DepReach.ReachesSegmentRoot` | tools/dependency-scanner/algorithms.go:50-58 | every node of the stack segment above a root reaches the root |
| `DepReach.PoppedSegment` | tools/dependency-scanner/algorithms.go:51-59 | the popped nodes are distinct, strongly connected, and none stays on the stack |
| `DepReach.NumberKeepsStack` | tools/dependency-scanner/algorithms.go:29-31 | numbering a fresh node keeps the stack ordered by index |
| `DepReach.PushKeepsStack` | tools/dependency-scanner/algorithms.go:32-33 | pushing the newest node keeps the stack invariant |
| `DepReach.LowerKeepsStack` | tools/dependency-scanner/algorithms.go:40-46 | lowering a lowlink to a reachable stack node's index keeps the witnesses |
| `DepReach.PopKeepsStack` | tools/dependency-scanner/algorithms.go:52-54 | popping the top keeps the stack invariant |
| `DepReach.ReportKeepsComponents` | tools/dependency-scanner/algorithms.go:61-64 | reporting a fresh strongly connected set keeps the components disjoint |
| `DepReach.LowlinksFloor` | tools/dependency-scanner/algorithms.go:69-73 | between top-level calls no stack node has a lowlink below the call's first index |
| `DepReach.ChainJoin` | tools/dependency-scanner/algorithms.go:37-41 | after a recursive call the lowlink chain above v holds with the smaller bound |

## Left out

- Tree-sitter is not part of this model. A syntax tree is an input (`SyntaxTree.Node`), and "parse failed" is an absent tree. The export query engine is an input too: `ExtractExports` receives the captures.
- `DepParser.ExtractExports` records the placeholder export that the code writes for every capture. The query texts are not modelled.
- SHA-256 and its hex rendering are a parameter, `digest`.
- The clock is a parameter, `now`, and RFC 3339 formatting is not modelled.
- I/O is modelled by inputs or by returned text:
  - a file's content is an `Option` input;
  - written output is returned text;
  - create, write and close errors are left out: `SaveToFile` cannot fail in the model, where continuation.go:37-39 returns "failed to create token file".
- The file system is a parameter (`Fs`, `Entry`):
  - existence (`os.Stat`);
  - glob matches in the order returned, none on error;
  - `filepath.Join` and `filepath.Dir`;
  - the directory tree in lexical order.
  - Symbolic links count as non-directories, as `Lstat` reports them.
- Go's map iteration order is an input sequence that lists every key once (`order`, `MapOrder`).
- `SaveJSON` (graph.go:49-56) is left out. It is JSON encoding of the graph through the standard library.
- `PrintStats` and verbose progress output are left out as console printing. `LanguageCounts` models the count it prints.
- `GetGraph` (scanner.go:304-307) and `getLoadedLanguages` (parser.go:108-114) are plain accessors and are not modelled separately.
- The command-line front ends (`cmd/main.go`, `main.go`) are not part of this model.
- Nil checks on grammars, trees and nodes are left out: the inputs are well-formed values. Nil and empty slices are both `[]`.
- Error values keep only the message the Go code writes. The wrapped error (`%w`) is dropped, as in "invalid offset value" for "invalid offset value: <strconv error>" (continuation.go:64, 96, 104, 112, 121), and so is the " (available: %v)" list of loaded grammars after "grammar not loaded for: " (tools/dependency-scanner/parser.go:61).
- `Continuation.NewContinuationToken` computes `offset - 1` without 64-bit wrap-around; it differs from Go only for an offset equal to the smallest 64-bit integer.
- `Continuation.ScanLines` measures the 64 KiB line limit of `bufio.Scanner` in characters, where Go measures bytes.
- Rows and columns are unbounded naturals, so the `uint32` row numbers of tree-sitter cannot overflow.
- Characters stand for bytes, except in `GoStrings.TrimSpace`, whose white-space set holds Go's Unicode white-space code points (U+0085, U+00A0, U+2000 and others), so it works on code points. `GoStrings.ToLower` lowers only ASCII letters. `PadRight`/`PadLeft` count characters where `%-47s` counts runes, so the box-drawing characters are one character each.
- `Chunker.ChunkFallback` requires `maxTokens > 0`. With a zero budget the Go window loop never advances, and with a negative one it slices out of range.
- `Formatter.FormatChunk` requires a header of at most 54 characters. A longer one makes `strings.Repeat` panic on a negative count.
- `Formatter.HeaderWidth` counts the border in characters, not bytes.
- `DepAlgorithms.DetectCircularDependencies` does not prove that each reported cycle is a maximal strongly connected component, nor that every cycle of two or more files is reported. It proves soundness: the size, distinctness, mutual reachability and disjointness of what is reported. Maximality and completeness would need an argument that every node reachable both ways from a root is still above it on the stack when the root pops. That is a completeness argument over the lowlink chain, which the soundness invariants (`Numbered`, `StackOrdered`, `ComponentsReported`) do not provide.
- `DepScanner.Scanner.Scan` states the result of the reverse pass for some enumeration order of the files, the one Go's map happens to yield.
- `Chunker.StructuredSingleChunk`: the flush inside the structured walk is unreachable in the code (see above). `PackNodeGreedy` states the packing rule the walk would apply to any node.
- The per-language chunkers for JavaScript, Python and Go (chunker.go:154-400) are modelled by one walk, parameterised by the language's target kinds and type-name table.
