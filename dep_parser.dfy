/**
  The scanner's front end (`parser.go`): which tree-sitter grammars are
  loaded, the language of a file from its extension, and the imports and
  exports read off a syntax tree. Trees, file contents and the matches of the
  export query are inputs; tree-sitter itself is not modelled.
*/
module DepParser {
  import opened Wrappers
  import opened GoStrings
  import opened SyntaxTree
  import opened DepGraph

  /** The grammars the scanner is built with. */
  const Grammars: set<string> := {"typescript", "tsx", "javascript", "go", "python"}

  /** The extensions `detectLanguage` recognises. */
  const SourceExtensions: set<string> := {".ts", ".tsx", ".js", ".jsx", ".mjs", ".cjs", ".go", ".py", ".pyi"}

  /** `Parser`: the names of the grammars it has loaded. */
  datatype Parser = Parser(languages: set<string>)

  /**
    `NewParser`: every requested name that is a known grammar is loaded;
    unknown names are skipped, and there is no error path.
  */
  method NewParser(languageNames: seq<string>) returns (p: Parser)
    ensures forall lang :: lang in p.languages <==> lang in Grammars && lang in languageNames
  {
    var loaded: set<string> := {};
    for k := 0 to |languageNames|
      invariant forall lang :: lang in loaded <==> lang in Grammars && lang in languageNames[..k]
    {
      var lang := languageNames[k];
      assert languageNames[..k + 1] == languageNames[..k] + [lang];
      if lang in Grammars {
        loaded := loaded + {lang};
      }
    }
    assert languageNames[..|languageNames|] == languageNames;
    p := Parser(loaded);
  }

  // ---------------------------------------------------------------------------
  // Language of a file

  /** `detectLanguage`: the language of a file from its extension, "" when it has none of the known ones. */
  function DetectLanguage(p: Parser, filePath: string): (lang: string) {
    LanguageOfExtension(p, Ext(filePath))
  }

  /** The switch of `detectLanguage` over the extension; matching is exact, so case matters. */
  function LanguageOfExtension(p: Parser, ext: string): (lang: string) {
    if ext == ".tsx" then (if "tsx" in p.languages then "tsx" else "typescript")
    else if ext == ".ts" then "typescript"
    else if ext == ".jsx" then "javascript"
    else if ext == ".js" || ext == ".mjs" || ext == ".cjs" then "javascript"
    else if ext == ".go" then "go"
    else if ext == ".py" || ext == ".pyi" then "python"
    else ""
  }

  /** A file gets a language exactly when its extension is one of the nine known ones. */
  lemma DetectedIffKnownExtension(p: Parser, filePath: string)
    ensures DetectLanguage(p, filePath) == "" <==> Ext(filePath) !in SourceExtensions
  {
    KnownIffExtension(p, Ext(filePath));
  }

  lemma KnownIffExtension(p: Parser, ext: string)
    ensures LanguageOfExtension(p, ext) == "" <==> ext !in SourceExtensions
  {
  }

  /** A detected language is always one of the grammars the scanner is built with. */
  lemma DetectedIsGrammar(p: Parser, filePath: string)
    ensures DetectLanguage(p, filePath) == "" || DetectLanguage(p, filePath) in Grammars
  {
  }

  /** A ".tsx" file is read as tsx when that grammar is loaded and as TypeScript otherwise; no other file is read as tsx. */
  lemma TsxFallback(p: Parser, filePath: string)
    ensures Ext(filePath) == ".tsx" ==>
      DetectLanguage(p, filePath) == (if "tsx" in p.languages then "tsx" else "typescript")
    ensures DetectLanguage(p, filePath) == "tsx" ==> Ext(filePath) == ".tsx"
  {
  }

  /** No character of the text is an upper-case ASCII letter. */
  predicate NoUpper(s: string) {
    forall i :: 0 <= i < |s| ==> !('A' <= s[i] <= 'Z')
  }

  /** Matching is case-sensitive: an extension with an upper-case letter is not recognised. */
  lemma UpperCaseExtensionUnknown(p: Parser, filePath: string)
    requires !NoUpper(Ext(filePath))
    ensures DetectLanguage(p, filePath) == ""
  {
    KnownExtensionsLower();
    DetectedIffKnownExtension(p, filePath);
  }

  lemma KnownExtensionsLower()
    ensures forall e :: e in SourceExtensions ==> NoUpper(e)
  {
  }

  // ---------------------------------------------------------------------------
  // Parsing a file

  /**
    What the environment supplies for one file: the result of reading it, the
    tree tree-sitter builds for it (None when `Parse` returns nil), and the
    nodes captured by the export query (None when the query does not compile).
  */
  datatype Source = Source(read: Result<string>, tree: Option<Node>, captures: Option<seq<Node>>)

  /** `Parse`: the record of one file, or why there is none. */
  function Parse(p: Parser, filePath: string, src: Source): (r: Result<FileNode>)
    ensures r.Ok? ==> r.value.path == filePath && r.value.language == DetectLanguage(p, filePath)
    ensures r.Ok? ==> r.value.importedBy == []
  {
    var lang := DetectLanguage(p, filePath);
    if lang == "" then Err("unsupported file type: " + filePath)
    else if lang !in p.languages then Err("grammar not loaded for: " + lang)
    else
      match src.read
      case Err(msg) => Err(msg)
      case Ok(content) =>
        match src.tree
        case None => Err("failed to parse file")
        case Some(root) =>
          Ok(FileNode(filePath, lang, ExtractImports(root, content, lang), ExtractExports(src.captures, lang), []))
  }

  /** `Parse` succeeds exactly when the language is known and loaded, the file is read and a tree is built. */
  lemma ParseSucceeds(p: Parser, filePath: string, src: Source)
    ensures var lang := DetectLanguage(p, filePath);
      Parse(p, filePath, src).Ok? <==> lang != "" && lang in p.languages && src.read.Ok? && src.tree.Some?
  {
  }

  /**
    An unknown or unloaded language fails before the file is read: the
    outcome is the same whatever the file holds.
  */
  lemma ParseFailsBeforeRead(p: Parser, filePath: string, src: Source, other: Source)
    requires DetectLanguage(p, filePath) == "" || DetectLanguage(p, filePath) !in p.languages
    ensures Parse(p, filePath, src).Err? && Parse(p, filePath, src) == Parse(p, filePath, other)
  {
  }

  /** A file read with the tsx grammar never has exports: there is no tsx export query. */
  lemma TsxHasNoExports(captures: Option<seq<Node>>)
    ensures ExtractExports(captures, "tsx") == []
  {
  }

  /** `Parse` with its tree walks run as the imperative traversals. */
  method ParseFile(p: Parser, filePath: string, src: Source) returns (r: Result<FileNode>)
    ensures r == Parse(p, filePath, src)
  {
    var lang := DetectLanguage(p, filePath);
    if lang == "" {
      return Err("unsupported file type: " + filePath);
    }
    if lang !in p.languages {
      return Err("grammar not loaded for: " + lang);
    }
    if src.read.Err? {
      return Err(src.read.msg);
    }
    var content := src.read.value;
    if src.tree.None? {
      return Err("failed to parse file");
    }
    var imports := ExtractImportsOf(src.tree.value, content, lang);
    r := Ok(FileNode(filePath, lang, imports, ExtractExports(src.captures, lang), []));
  }

  // ---------------------------------------------------------------------------
  // Imports

  /** The three import walks: JavaScript/TypeScript, Go and Python. */
  datatype Walker = JsWalker | GoWalker | PythonWalker

  const JsPathKinds: set<string> := {"string"}
  const GoPathKinds: set<string> := {"interpreted_string_literal", "raw_string_literal"}
  const PythonNameKinds: set<string> := {"dotted_name", "aliased_import"}
  const PythonFromKinds: set<string> := {"dotted_name", "relative_import"}

  /** The position of the first child whose type is one of `kinds`. */
  function FirstOfKind(children: seq<Node>, kinds: set<string>): (r: Option<nat>)
    ensures r.Some? ==> r.value < |children| && children[r.value].kind in kinds
    ensures r.Some? ==> forall j :: 0 <= j < r.value ==> children[j].kind !in kinds
    ensures r.None? ==> forall j :: 0 <= j < |children| ==> children[j].kind !in kinds
  {
    if children == [] then None
    else if children[0].kind in kinds then Some(0)
    else
      match FirstOfKind(children[1..], kinds)
      case None => None
      case Some(i) => Some(i + 1)
  }

  /**
    The import of a JavaScript `import_statement` or a Go `import_spec`: the
    text of its first child of one of `kinds`, with the `quotes` characters
    trimmed from both ends; none when there is no such child.
  */
  function FirstPath(n: Node, content: string, kinds: set<string>, quotes: string): (imps: seq<Import>)
    ensures |imps| <= 1 && Plain(imps, n.startRow + 1)
  {
    match FirstOfKind(n.children, kinds)
    case None => []
    case Some(i) => [Import(Unquote(content, n.children[i], quotes), [], false, n.startRow + 1)]
  }

  /** A JavaScript or Go import statement yields an import exactly when it has a string-literal child. */
  lemma FirstPathFound(n: Node, content: string, kinds: set<string>, quotes: string)
    ensures |FirstPath(n, content, kinds, quotes)| == 1 <==> exists i :: 0 <= i < |n.children| && n.children[i].kind in kinds
  {
    if FirstOfKind(n.children, kinds).None? {
      assert forall i :: 0 <= i < |n.children| ==> n.children[i].kind !in kinds;
    }
  }

  /** Imports as the walks record them: all at `line`, with no symbols and not default. */
  predicate Plain(imps: seq<Import>, line: int) {
    forall k :: 0 <= k < |imps| ==> imps[k].line == line && imps[k].symbols == [] && !imps[k].isDefault
  }

  /** The text of a string-literal node with the `quotes` characters trimmed from both ends. */
  function Unquote(content: string, literal: Node, quotes: string): string {
    Trim(Text(content, literal), quotes)
  }

  /** The number of nodes whose type is one of `kinds`. */
  function CountKinds(nodes: seq<Node>, kinds: set<string>): nat {
    if nodes == [] then 0
    else CountKinds(nodes[..|nodes| - 1], kinds) + (if nodes[|nodes| - 1].kind in kinds then 1 else 0)
  }

  /** The imports of a Python `import_statement`: one per `dotted_name` or `aliased_import` child, in order. */
  function ModuleNames(children: seq<Node>, content: string, line: int): (imps: seq<Import>)
    ensures |imps| == CountKinds(children, PythonNameKinds) && Plain(imps, line)
  {
    if children == [] then []
    else
      var last := children[|children| - 1];
      var init := ModuleNames(children[..|children| - 1], content, line);
      init + (if last.kind in PythonNameKinds then [Import(Text(content, last), [], false, line)] else [])
  }

  /** Every Python module name is the text of a `dotted_name` or `aliased_import` child. */
  lemma {:induction false} ModuleNamesFromChildren(children: seq<Node>, content: string, line: int)
    ensures forall k :: 0 <= k < |ModuleNames(children, content, line)| ==>
      exists i :: 0 <= i < |children| && children[i].kind in PythonNameKinds
        && ModuleNames(children, content, line)[k].path == Text(content, children[i])
  {
    if children != [] {
      var init := children[..|children| - 1];
      var last := children[|children| - 1];
      ModuleNamesFromChildren(init, content, line);
      var prefix := ModuleNames(init, content, line);
      var imps := ModuleNames(children, content, line);
      assert imps == prefix + (if last.kind in PythonNameKinds then [Import(Text(content, last), [], false, line)] else []);
      forall k | 0 <= k < |imps|
        ensures exists i :: 0 <= i < |children| && children[i].kind in PythonNameKinds && imps[k].path == Text(content, children[i])
      {
        if k < |prefix| {
          assert imps[k] == prefix[k];
          var i :| 0 <= i < |init| && init[i].kind in PythonNameKinds && prefix[k].path == Text(content, init[i]);
          assert children[i] == init[i];
        } else {
          assert imps[k].path == Text(content, children[|children| - 1]);
        }
      }
    } else {
      assert ModuleNames(children, content, line) == [];
    }
  }

  /**
    The import of a Python `import_from_statement`: the text of its first
    `dotted_name` or `relative_import` child, unless that text is empty.
  */
  function FromModule(n: Node, content: string): (imps: seq<Import>)
    ensures |imps| <= 1 && Plain(imps, n.startRow + 1)
    ensures forall k :: 0 <= k < |imps| ==> imps[k].path != ""
  {
    match FirstOfKind(n.children, PythonFromKinds)
    case None => []
    case Some(i) =>
      var path := Text(content, n.children[i]);
      if path != "" then [Import(path, [], false, n.startRow + 1)] else []
  }

  /** The imports a node yields by itself, before its children are visited. */
  function NodeImports(w: Walker, n: Node, content: string): (imps: seq<Import>)
    ensures Plain(imps, n.startRow + 1)
  {
    match w
    case JsWalker =>
      if n.kind == "import_statement" then FirstPath(n, content, JsPathKinds, "'\"") else []
    case GoWalker =>
      if n.kind == "import_spec" then FirstPath(n, content, GoPathKinds, "`\"") else []
    case PythonWalker =>
      (if n.kind == "import_statement" then ModuleNames(n.children, content, n.startRow + 1) else [])
      + (if n.kind == "import_from_statement" then FromModule(n, content) else [])
  }

  /** The imports each node yields by itself under walker `w`. */
  function OwnImports(w: Walker, content: string): Node -> seq<Import> {
    (n: Node) => NodeImports(w, n, content)
  }

  /** Every node's own imports are plain imports on the node's first line. */
  ghost predicate OnOwnRow(own: Node -> seq<Import>) {
    forall m: Node :: Plain(own(m), m.startRow + 1)
  }

  lemma OwnImportsOnOwnRow(w: Walker, content: string)
    ensures OnOwnRow(OwnImports(w, content))
  {
    forall m: Node
      ensures Plain(OwnImports(w, content)(m), m.startRow + 1)
    {
      assert OwnImports(w, content)(m) == NodeImports(w, m, content);
    }
  }

  /** The pre-order walk: a node's own imports, then those of its children in order, matches included. */
  function Collect(own: Node -> seq<Import>, n: Node): seq<Import>
    decreases n, |n.children| + 1
  {
    own(n) + CollectChildren(own, n, |n.children|)
  }

  /** The walks of the first `i` children of `n`, one after another. */
  function CollectChildren(own: Node -> seq<Import>, n: Node, i: nat): seq<Import>
    requires i <= |n.children|
    decreases n, i
  {
    if i == 0 then [] else CollectChildren(own, n, i - 1) + Collect(own, n.children[i - 1])
  }

  /** `extractImports`: the walk for the file's language; TSX is walked as JavaScript, other languages give none. */
  function ExtractImports(root: Node, content: string, lang: string): (imps: seq<Import>)
  {
    if lang == "typescript" || lang == "javascript" || lang == "tsx" then Collect(OwnImports(JsWalker, content), root)
    else if lang == "go" then Collect(OwnImports(GoWalker, content), root)
    else if lang == "python" then Collect(OwnImports(PythonWalker, content), root)
    else []
  }

  /** A JavaScript or Go import path has no quote character left at either end. */
  lemma PathUnquoted(n: Node, content: string, kinds: set<string>, quotes: string)
    requires FirstPath(n, content, kinds, quotes) != []
    ensures var path := FirstPath(n, content, kinds, quotes)[0].path;
      path == [] || (path[0] !in quotes && path[|path| - 1] !in quotes)
  {
    var i := FirstOfKind(n.children, kinds).value;
    TrimEnds(Text(content, n.children[i]), quotes);
  }

  /** `strings.Trim` leaves no character of the cut set at either end. */
  lemma {:induction false} TrimEnds(s: string, cutset: string)
    ensures var t := Trim(s, cutset);
      t == [] || (t[0] !in cutset && t[|t| - 1] !in cutset)
  {
    if s != [] && s[0] in cutset {
      TrimEnds(s[1..], cutset);
    } else if s != [] && s[|s| - 1] in cutset {
      TrimEnds(s[..|s| - 1], cutset);
    }
  }

  /** Lines never decrease along the list. */
  predicate LinesSorted(imps: seq<Import>) {
    forall i, j :: 0 <= i < j < |imps| ==> imps[i].line <= imps[j].line
  }

  /** Every line lies between `lo` and `hi`. */
  predicate LinesWithin(imps: seq<Import>, lo: int, hi: int) {
    forall i :: 0 <= i < |imps| ==> lo <= imps[i].line <= hi
  }

  lemma SortedAppend(a: seq<Import>, b: seq<Import>, lo: int, mid: int, hi: int)
    requires lo <= mid <= hi
    requires LinesSorted(a) && LinesWithin(a, lo, mid)
    requires LinesSorted(b) && LinesWithin(b, mid, hi)
    ensures LinesSorted(a + b) && LinesWithin(a + b, lo, hi)
  {
  }

  /**
    When the tree's positions nest, the walk yields imports in document order:
    lines never decrease, and all lie within the node's rows.
  */
  lemma {:induction false} CollectInDocumentOrder(own: Node -> seq<Import>, n: Node)
    requires OnOwnRow(own) && RowsNested(n)
    ensures LinesSorted(Collect(own, n))
    ensures LinesWithin(Collect(own, n), n.startRow + 1, n.endRow + 1)
    decreases n, |n.children| + 1
  {
    var m := |n.children|;
    CollectChildrenInOrder(own, n, m);
    var hi := if m == 0 then n.startRow + 1 else n.children[m - 1].endRow + 1;
    assert Plain(own(n), n.startRow + 1);
    SortedAppend(own(n), CollectChildren(own, n, m), n.startRow + 1, n.startRow + 1, hi);
  }

  lemma {:induction false} CollectChildrenInOrder(own: Node -> seq<Import>, n: Node, i: nat)
    requires OnOwnRow(own) && RowsNested(n) && i <= |n.children|
    ensures var s := CollectChildren(own, n, i);
      LinesSorted(s) && LinesWithin(s, n.startRow + 1, if i == 0 then n.startRow + 1 else n.children[i - 1].endRow + 1)
    decreases n, i
  {
    if i > 0 {
      var child := n.children[i - 1];
      var mid := if i == 1 then n.startRow + 1 else n.children[i - 2].endRow + 1;
      ChildNested(n, i - 1);
      CollectChildrenInOrder(own, n, i - 1);
      CollectInDocumentOrder(own, child);
      ChildrenAppend(own, n, i, mid, child.endRow + 1);
    }
  }

  lemma ChildrenAppend(own: Node -> seq<Import>, n: Node, i: nat, mid: int, hi: int)
    requires 0 < i <= |n.children|
    requires n.startRow + 1 <= mid <= hi
    requires LinesSorted(CollectChildren(own, n, i - 1)) && LinesWithin(CollectChildren(own, n, i - 1), n.startRow + 1, mid)
    requires LinesSorted(Collect(own, n.children[i - 1])) && LinesWithin(Collect(own, n.children[i - 1]), mid, hi)
    ensures LinesSorted(CollectChildren(own, n, i)) && LinesWithin(CollectChildren(own, n, i), n.startRow + 1, hi)
  {
    SortedAppend(CollectChildren(own, n, i - 1), Collect(own, n.children[i - 1]), n.startRow + 1, mid, hi);
  }

  /** When the tree's positions nest, every language's imports come out in document order. */
  lemma ImportsInDocumentOrder(root: Node, content: string, lang: string)
    requires RowsNested(root)
    ensures LinesSorted(ExtractImports(root, content, lang))
    ensures LinesWithin(ExtractImports(root, content, lang), root.startRow + 1, root.endRow + 1)
  {
    var w := if lang == "go" then GoWalker else if lang == "python" then PythonWalker else JsWalker;
    OwnImportsOnOwnRow(w, content);
    CollectInDocumentOrder(OwnImports(w, content), root);
  }

  /** What `RowsNested` says about one child. */
  lemma ChildNested(n: Node, i: nat)
    requires RowsNested(n) && i < |n.children|
    ensures var child := n.children[i];
      && RowsNested(child) && n.startRow <= child.startRow && child.endRow <= n.endRow
      && (i >= 1 ==> n.children[i - 1].endRow <= child.startRow)
  {
  }

  // ---------------------------------------------------------------------------
  // The imperative walks

  /** The loop over a node's children that stops at the first one of `kinds`. */
  method FirstOfKindIn(children: seq<Node>, kinds: set<string>) returns (r: Option<nat>)
    ensures r == FirstOfKind(children, kinds)
  {
    r := None;
    var i := 0;
    while i < |children|
      invariant i <= |children|
      invariant forall j :: 0 <= j < i ==> children[j].kind !in kinds
      invariant r == None
    {
      if children[i].kind in kinds {
        FirstOfKindAt(children, kinds, i);
        r := Some(i);
        break;
      }
      i := i + 1;
    }
    if r == None {
      FirstOfKindNone(children, kinds);
    }
  }

  /** The import of an `import_statement` or `import_spec`, found by that loop. */
  method FirstPathOf(n: Node, content: string, kinds: set<string>, quotes: string) returns (imps: seq<Import>)
    ensures imps == FirstPath(n, content, kinds, quotes)
  {
    var first := FirstOfKindIn(n.children, kinds);
    imps := [];
    if first.Some? {
      imps := [Import(Unquote(content, n.children[first.value], quotes), [], false, n.startRow + 1)];
    }
  }

  lemma FirstOfKindAt(children: seq<Node>, kinds: set<string>, i: nat)
    requires i < |children| && children[i].kind in kinds
    requires forall j :: 0 <= j < i ==> children[j].kind !in kinds
    ensures FirstOfKind(children, kinds) == Some(i)
  {
  }

  lemma FirstOfKindNone(children: seq<Node>, kinds: set<string>)
    requires forall j :: 0 <= j < |children| ==> children[j].kind !in kinds
    ensures FirstOfKind(children, kinds) == None
  {
  }

  /** The loop over an `import_statement`'s children, one import per module name. */
  method ModuleNamesOf(n: Node, content: string) returns (imps: seq<Import>)
    ensures imps == ModuleNames(n.children, content, n.startRow + 1)
  {
    imps := [];
    for i := 0 to |n.children|
      invariant imps == ModuleNames(n.children[..i], content, n.startRow + 1)
    {
      var child := n.children[i];
      assert n.children[..i + 1][..i] == n.children[..i];
      if child.kind in PythonNameKinds {
        imps := imps + [Import(Text(content, child), [], false, n.startRow + 1)];
      }
    }
    assert n.children[..|n.children|] == n.children;
  }

  /** The loop that finds the module of an `import_from_statement`, then the check that it is not empty. */
  method FromModuleOf(n: Node, content: string) returns (imps: seq<Import>)
    ensures imps == FromModule(n, content)
  {
    var modulePath := "";
    var i := 0;
    while i < |n.children|
      invariant i <= |n.children|
      invariant forall j :: 0 <= j < i ==> n.children[j].kind !in PythonFromKinds
      invariant modulePath == ""
    {
      var child := n.children[i];
      if child.kind in PythonFromKinds {
        modulePath := Text(content, child);
        break;
      }
      i := i + 1;
    }
    imps := if modulePath != "" then [Import(modulePath, [], false, n.startRow + 1)] else [];
  }

  /** What the walk does at one node before recursing. */
  method NodeImportsOf(w: Walker, n: Node, content: string) returns (imps: seq<Import>)
    ensures imps == NodeImports(w, n, content)
  {
    imps := [];
    match w
    case JsWalker =>
      if n.kind == "import_statement" {
        imps := FirstPathOf(n, content, JsPathKinds, "'\"");
      }
    case GoWalker =>
      if n.kind == "import_spec" {
        imps := FirstPathOf(n, content, GoPathKinds, "`\"");
      }
    case PythonWalker =>
      if n.kind == "import_statement" {
        imps := ModuleNamesOf(n, content);
      }
      if n.kind == "import_from_statement" {
        var from := FromModuleOf(n, content);
        imps := imps + from;
      }
  }

  /**
    The recursive `traverse` closure: appends the node's own imports to the
    imports found so far, then walks every child in order.
  */
  method Traverse(w: Walker, n: Node, content: string, acc: seq<Import>) returns (out: seq<Import>)
    ensures out == acc + Collect(OwnImports(w, content), n)
    decreases n
  {
    ghost var own := OwnImports(w, content);
    var mine := NodeImportsOf(w, n, content);
    assert mine == own(n);
    var pre := acc + mine;
    var found := pre;
    var i := 0;
    while i < |n.children|
      invariant i <= |n.children|
      invariant found == pre + CollectChildren(own, n, i)
    {
      var child := n.children[i];
      ghost var before := found;
      found := Traverse(w, child, content, found);
      TraverseStep(own, n, i, pre, before, found);
      i := i + 1;
    }
    TraverseDone(own, n, acc, found);
    out := found;
  }

  lemma TraverseStep(own: Node -> seq<Import>, n: Node, i: nat, pre: seq<Import>, before: seq<Import>, after: seq<Import>)
    requires i < |n.children|
    requires before == pre + CollectChildren(own, n, i)
    requires after == before + Collect(own, n.children[i])
    ensures after == pre + CollectChildren(own, n, i + 1)
  {
    Associative(pre, CollectChildren(own, n, i), Collect(own, n.children[i]));
  }

  lemma TraverseDone(own: Node -> seq<Import>, n: Node, acc: seq<Import>, found: seq<Import>)
    requires found == acc + own(n) + CollectChildren(own, n, |n.children|)
    ensures found == acc + Collect(own, n)
  {
    Associative(acc, own(n), CollectChildren(own, n, |n.children|));
  }

  lemma Associative(a: seq<Import>, b: seq<Import>, c: seq<Import>)
    ensures a + b + c == a + (b + c)
  {
  }

  /** `extractImports` with the walks run imperatively. */
  method ExtractImportsOf(root: Node, content: string, lang: string) returns (imps: seq<Import>)
    ensures imps == ExtractImports(root, content, lang)
  {
    imps := [];
    if lang == "typescript" || lang == "javascript" || lang == "tsx" {
      imps := Traverse(JsWalker, root, content, []);
    } else if lang == "go" {
      imps := Traverse(GoWalker, root, content, []);
    } else if lang == "python" {
      imps := Traverse(PythonWalker, root, content, []);
    }
  }

  /** A language with no walk yields no imports. */
  lemma OtherLanguagesNoImports(root: Node, content: string, lang: string)
    requires lang !in Grammars
    ensures ExtractImports(root, content, lang) == []
  {
  }

  // ---------------------------------------------------------------------------
  // Exports

  /** The languages that have an export query; "tsx" has none. */
  const ExportLanguages: set<string> := {"typescript", "javascript", "go", "python"}

  /** The export `extractExports` records for one captured node. */
  function CapturedExport(node: Node): Export {
    Export("exported_symbol", "function", false, node.startRow + 1)
  }

  /**
    `extractExports`: one placeholder export per captured node, at the node's
    line, for the languages with a query; none otherwise or when the query
    does not compile.
  */
  function ExtractExports(captures: Option<seq<Node>>, lang: string): (exps: seq<Export>)
    ensures lang !in ExportLanguages || captures.None? ==> exps == []
    ensures lang in ExportLanguages && captures.Some? ==>
      |exps| == |captures.value| && forall i :: 0 <= i < |exps| ==> exps[i].line == captures.value[i].startRow + 1
  {
    if lang !in ExportLanguages then []
    else
      match captures
      case None => []
      case Some(nodes) => Map(CapturedExport, nodes)
  }
}
