/**
  The scanner of `scanner.go`: its configuration (excluded directories, the Go
  module name, the languages to load), which files it parses, how an import
  path is resolved to a file, the reverse-import pass, and the scan that ties
  the parser, the graph and the graph algorithms together. The file system is
  an input: what exists, what a glob matches, how paths join, the directory
  tree the walk visits, and what each file holds.
*/
module DepScanner {
  import opened Wrappers
  import opened GoStrings
  import opened SyntaxTree
  import opened DepGraph
  import opened DepParser
  import opened DepReach
  import opened DepAlgorithms

  /** The directory names every scan skips. */
  const DefaultExcludeDirs: set<string> := {
    ".git", ".svn", ".hg",
    "node_modules", "vendor", "bower_components",
    "venv", ".venv", "virtualenv", ".virtualenv", "env", ".env", "__pycache__",
    ".pytest_cache", ".mypy_cache", "site-packages",
    "dist", "build", ".next", "out", "target", "_build", ".output",
    ".idea", ".vscode",
    ".data", ".cache", "cache",
    "coverage", ".coverage", "htmlcov"
  }

  /** The languages loaded when the languages file is missing or lists none. */
  const DefaultLanguages: seq<string> := ["typescript", "javascript", "go", "python"]

  // ---------------------------------------------------------------------------
  // Excluded directories

  /**
    The exclusion loops of `NewScanner`: every default name, then every custom
    name. Nothing is ever removed, so the result is exactly the union.
  */
  method MergeExcludes(customExcludes: seq<string>) returns (excludeDirs: set<string>)
    ensures forall d :: d in excludeDirs <==> d in DefaultExcludeDirs || d in customExcludes
  {
    excludeDirs := {};
    var rest := DefaultExcludeDirs;
    while rest != {}
      invariant rest <= DefaultExcludeDirs
      invariant forall d :: d in excludeDirs <==> d in DefaultExcludeDirs - rest
      decreases |rest|
    {
      var dir :| dir in rest;
      excludeDirs := excludeDirs + {dir};
      rest := rest - {dir};
    }
    for k := 0 to |customExcludes|
      invariant forall d :: d in excludeDirs <==> d in DefaultExcludeDirs || d in customExcludes[..k]
    {
      assert customExcludes[..k + 1] == customExcludes[..k] + [customExcludes[k]];
      excludeDirs := excludeDirs + {customExcludes[k]};
    }
    assert customExcludes[..|customExcludes|] == customExcludes;
  }

  // ---------------------------------------------------------------------------
  // The go.mod module line

  /**
    The module name: the rest of the first trimmed line that starts with
    "module ", trimmed; "" when no line does.
  */
  function ModuleName(lines: seq<string>): string {
    if lines == [] then ""
    else
      var line := TrimSpace(lines[0]);
      if HasPrefix(line, "module ") then TrimSpace(TrimPrefix(line, "module"))
      else ModuleName(lines[1..])
  }

  /** Some trimmed line starts with "module ". */
  predicate HasModuleLine(lines: seq<string>) {
    exists i :: 0 <= i < |lines| && HasPrefix(TrimSpace(lines[i]), "module ")
  }

  /**
    The name is non-empty exactly when a module line exists: the line is
    trimmed, so something other than white space follows "module ".
  */
  lemma {:induction false} ModuleNameFound(lines: seq<string>)
    ensures ModuleName(lines) != "" <==> HasModuleLine(lines)
  {
    if lines != [] {
      var line := TrimSpace(lines[0]);
      if HasPrefix(line, "module ") {
        ModuleLineNotEmpty(lines[0]);
      } else {
        ModuleNameFound(lines[1..]);
        if HasModuleLine(lines) {
          var i :| 0 <= i < |lines| && HasPrefix(TrimSpace(lines[i]), "module ");
          assert i > 0 && HasPrefix(TrimSpace(lines[1..][i - 1]), "module ");
        }
        if HasModuleLine(lines[1..]) {
          var i :| 0 <= i < |lines[1..]| && HasPrefix(TrimSpace(lines[1..][i]), "module ");
          assert HasPrefix(TrimSpace(lines[i + 1]), "module ");
        }
      }
    }
  }

  /** What follows "module " on a trimmed line is not blank. */
  lemma ModuleLineNotEmpty(raw: string)
    requires HasPrefix(TrimSpace(raw), "module ")
    ensures TrimSpace(TrimPrefix(TrimSpace(raw), "module")) != ""
  {
    var line := TrimSpace(raw);
    TrimSpaceTrimmed(raw);
    var rest := TrimPrefix(line, "module");
    assert line[..6] == "module";
    assert HasPrefix(line, "module") && rest == line[6..];
    assert rest[|rest| - 1] == line[|line| - 1];
    NotAllSpace(rest, |rest| - 1);
  }

  /** A text with a character outside white space does not trim to nothing. */
  lemma NotAllSpace(s: string, i: nat)
    requires i < |s| && s[i] !in WhiteSpace
    ensures TrimSpace(s) != ""
  {
    TrimSpaceIsTrim(s);
    var l := TrimLeft(s, WhiteSpace);
    assert |s| - |l| <= i;
    assert l[0] !in WhiteSpace;
  }

  /** The module name never starts or ends with white space. */
  lemma ModuleNameTrimmed(lines: seq<string>)
    ensures var name := ModuleName(lines);
      name == [] || (name[0] !in WhiteSpace && name[|name| - 1] !in WhiteSpace)
    decreases |lines|
  {
    if lines != [] {
      var line := TrimSpace(lines[0]);
      if HasPrefix(line, "module ") {
        TrimSpaceTrimmed(TrimPrefix(line, "module"));
      } else {
        ModuleNameTrimmed(lines[1..]);
      }
    }
  }

  /** The loop of `NewScanner` over the lines of go.mod, which stops at the first module line. */
  method ReadModuleName(goMod: Option<string>) returns (moduleName: string)
    ensures goMod.None? ==> moduleName == ""
    ensures goMod.Some? ==> moduleName == ModuleName(Split(goMod.value, '\n'))
  {
    moduleName := "";
    if goMod.Some? {
      var lines := Split(goMod.value, '\n');
      var i := 0;
      while i < |lines|
        invariant i <= |lines|
        invariant ModuleName(lines) == ModuleName(lines[i..])
        invariant moduleName == ""
      {
        var line := TrimSpace(lines[i]);
        if HasPrefix(line, "module ") {
          moduleName := TrimSpace(TrimPrefix(line, "module"));
          break;
        }
        assert lines[i..][1..] == lines[i + 1..];
        i := i + 1;
      }
    }
  }

  // ---------------------------------------------------------------------------
  // The languages file

  /** The languages a file lists: its trimmed lines that are neither empty nor comments, in order. */
  function LanguageLines(lines: seq<string>): (langs: seq<string>)
    ensures forall k :: 0 <= k < |langs| ==> langs[k] != "" && !HasPrefix(langs[k], "#")
    ensures forall k :: 0 <= k < |langs| ==> exists i :: 0 <= i < |lines| && langs[k] == TrimSpace(lines[i])
    ensures forall i :: 0 <= i < |lines| && TrimSpace(lines[i]) != "" && !HasPrefix(TrimSpace(lines[i]), "#") ==>
      TrimSpace(lines[i]) in langs
  {
    if lines == [] then []
    else
      var init := lines[..|lines| - 1];
      var line := TrimSpace(lines[|lines| - 1]);
      var langs := LanguageLines(init);
      assert forall k :: 0 <= k < |langs| ==> exists i :: 0 <= i < |lines| && langs[k] == TrimSpace(lines[i]) by {
        forall k | 0 <= k < |langs|
          ensures exists i :: 0 <= i < |lines| && langs[k] == TrimSpace(lines[i])
        {
          var i :| 0 <= i < |init| && langs[k] == TrimSpace(init[i]);
          assert init[i] == lines[i];
        }
      }
      if line != "" && !HasPrefix(line, "#") then langs + [line] else langs
  }

  /**
    Where `loadDetectedLanguages` gets its text: the home directory may be
    unknown, the file may be absent or unreadable, or it has contents.
  */
  datatype LanguageFile = HomeUnknown(msg: string) | Absent | ReadFailed(msg: string) | Present(content: string)

  /** `loadDetectedLanguages`: the listed languages, or the defaults when there is no file or it lists none. */
  function LoadLanguages(file: LanguageFile): (r: Result<seq<string>>)
    ensures r.Ok? ==> |r.value| > 0
    ensures r.Err? <==> file.HomeUnknown? || file.ReadFailed?
  {
    match file
    case HomeUnknown(msg) => Err(msg)
    case Absent => Ok(DefaultLanguages)
    case ReadFailed(msg) => Err(msg)
    case Present(content) =>
      var langs := LanguageLines(Split(content, '\n'));
      if |langs| == 0 then Ok(DefaultLanguages) else Ok(langs)
  }

  /**
    A languages file that lists nothing but blank and comment lines loads
    the defaults; otherwise every listed line is loaded.
  */
  lemma LanguagesOrDefaults(content: string)
    ensures ListsNothing(content) ==> LoadLanguages(Present(content)) == Ok(DefaultLanguages)
    ensures !ListsNothing(content) ==>
      (forall line :: line in Split(content, '\n') && Listed(line) ==> TrimSpace(line) in LoadLanguages(Present(content)).value)
  {
    var lines := Split(content, '\n');
    ListedLines(lines);
  }

  /** No line of the languages file names a language. */
  predicate ListsNothing(content: string) {
    var lines := Split(content, '\n');
    forall i :: 0 <= i < |lines| ==> !Listed(lines[i])
  }

  /** A line of the languages file that names a language: not blank and not a "#" comment. */
  predicate Listed(line: string) {
    TrimSpace(line) != "" && !HasPrefix(TrimSpace(line), "#")
  }

  /** A file lists no language exactly when none of its lines is `Listed`; each listed line is loaded. */
  lemma ListedLines(lines: seq<string>)
    ensures LanguageLines(lines) == [] <==> forall i :: 0 <= i < |lines| ==> !Listed(lines[i])
    ensures forall i :: 0 <= i < |lines| && Listed(lines[i]) ==> TrimSpace(lines[i]) in LanguageLines(lines)
  {
    var langs := LanguageLines(lines);
    if langs != [] {
      var i :| 0 <= i < |lines| && langs[0] == TrimSpace(lines[i]);
      assert Listed(lines[i]);
    }
  }

  /** The loop over the lines of the languages file. */
  method ReadLanguageLines(content: string) returns (langs: seq<string>)
    ensures langs == LanguageLines(Split(content, '\n'))
  {
    var lines := Split(content, '\n');
    langs := [];
    for i := 0 to |lines|
      invariant langs == LanguageLines(lines[..i])
    {
      var line := TrimSpace(lines[i]);
      assert lines[..i + 1][..i] == lines[..i];
      if line != "" && !HasPrefix(line, "#") {
        langs := langs + [line];
      }
    }
    assert lines[..|lines|] == lines;
  }

  // ---------------------------------------------------------------------------
  // Supported files

  /** The extensions `isSupportedFile` accepts. */
  const SupportedExtensions: set<string> := {".ts", ".tsx", ".js", ".jsx", ".mjs", ".cjs", ".go", ".py", ".pyi"}

  /** `isSupportedFile`: the file's extension is one of the supported ones. */
  predicate IsSupportedFile(path: string) {
    Ext(path) in SupportedExtensions
  }

  /** The scanner parses exactly the files the parser can give a language. */
  lemma SupportedIffDetected(p: Parser, path: string)
    ensures IsSupportedFile(path) <==> DetectLanguage(p, path) != ""
  {
    DetectedIffKnownExtension(p, path);
    assert SupportedExtensions == SourceExtensions;
  }

  // ---------------------------------------------------------------------------
  // Resolving an import path

  /**
    The file system as the scanner sees it: whether a path exists (`os.Stat`
    succeeds), the matches of a glob pattern in the order `filepath.Glob`
    returns them (none on error), `filepath.Join` of two paths,
    `filepath.Dir`, and what parsing a file finds in it.
  */
  datatype Fs = Fs(
    statOk: string -> bool,
    glob: string -> seq<string>,
    join: (string, string) -> string,
    dir: string -> string,
    source: string -> Source)

  /** The suffixes tried, in order, after the joined path of a relative import. */
  const ImportSuffixes: seq<string> := ["", ".ts", ".tsx", ".js", ".jsx", ".go", ".py"]

  /** The index files tried, in order, inside the joined path. */
  const IndexFiles: seq<string> := ["index.ts", "index.tsx", "index.js", "index.jsx"]

  /** The paths tried for a relative import, in order: the seven suffixes, then the four index files. */
  function Candidates(fs: Fs, resolved: string): (c: seq<string>)
    ensures |c| == |ImportSuffixes| + |IndexFiles|
    ensures forall k :: 0 <= k < |ImportSuffixes| ==> c[k] == resolved + ImportSuffixes[k]
    ensures forall k :: 0 <= k < |IndexFiles| ==> c[|ImportSuffixes| + k] == fs.join(resolved, IndexFiles[k])
  {
    Map(s => resolved + s, ImportSuffixes) + Map(f => fs.join(resolved, f), IndexFiles)
  }

  /** The position of the first candidate that exists. */
  function FirstExisting(fs: Fs, candidates: seq<string>): (r: Option<nat>)
    ensures r.Some? ==> r.value < |candidates| && fs.statOk(candidates[r.value])
    ensures r.Some? ==> forall j :: 0 <= j < r.value ==> !fs.statOk(candidates[j])
    ensures r.None? ==> forall j :: 0 <= j < |candidates| ==> !fs.statOk(candidates[j])
  {
    if candidates == [] then None
    else if fs.statOk(candidates[0]) then Some(0)
    else
      match FirstExisting(fs, candidates[1..])
      case None => None
      case Some(i) => Some(i + 1)
  }

  /** The import is written relative to a directory: it starts with "." or "/". */
  predicate IsRelative(importPath: string) {
    HasPrefix(importPath, ".") || HasPrefix(importPath, "/")
  }

  /** The import names a package of the scanned Go module. */
  predicate InModule(moduleName: string, importPath: string) {
    moduleName != "" && HasPrefix(importPath, moduleName + "/")
  }

  /**
    `resolveImport`: the file an import of `fromFile` refers to, or "" when
    it refers to none. A package of the module resolves to the first Go file
    its directory globs to, else to the directory path plus ".go" when that
    exists. A relative import resolves to its first existing candidate. Any
    other import is external.
  */
  function ResolveImport(fs: Fs, rootPath: string, moduleName: string, fromFile: string, importPath: string): string {
    if InModule(moduleName, importPath) then
      var packageDir := fs.join(rootPath, TrimPrefix(importPath, moduleName + "/"));
      var matches := fs.glob(fs.join(packageDir, "*.go"));
      if |matches| > 0 then matches[0]
      else if fs.statOk(packageDir + ".go") then packageDir + ".go"
      else ""
    else if !IsRelative(importPath) then ""
    else
      var candidates := Candidates(fs, fs.join(fs.dir(fromFile), importPath));
      match FirstExisting(fs, candidates)
      case None => ""
      case Some(i) => candidates[i]
  }

  /** An import that is neither in the module nor relative is external and resolves to nothing. */
  lemma ExternalUnresolved(fs: Fs, rootPath: string, moduleName: string, fromFile: string, importPath: string)
    requires !InModule(moduleName, importPath) && !IsRelative(importPath)
    ensures ResolveImport(fs, rootPath, moduleName, fromFile, importPath) == ""
  {
  }

  /**
    An import of a package of the module resolves the same from every
    importing file: to a Go file its directory globs to, to the directory
    path plus ".go" when that exists, or to nothing.
  */
  lemma ModuleImportResolved(fs: Fs, rootPath: string, moduleName: string, fromFile: string, other: string,
                             importPath: string)
    requires InModule(moduleName, importPath)
    ensures var packageDir := fs.join(rootPath, importPath[|moduleName| + 1..]);
      var r := ResolveImport(fs, rootPath, moduleName, fromFile, importPath);
      && r == ResolveImport(fs, rootPath, moduleName, other, importPath)
      && (r == "" || r in fs.glob(fs.join(packageDir, "*.go")) || (r == packageDir + ".go" && fs.statOk(r)))
      && (fs.glob(fs.join(packageDir, "*.go")) == [] && !fs.statOk(packageDir + ".go") ==> r == "")
  {
    assert TrimPrefix(importPath, moduleName + "/") == importPath[|moduleName| + 1..];
  }

  /**
    A relative import resolves to the first candidate that exists, in the
    order the candidates are tried; to "" when none exists.
  */
  lemma RelativeFirstExisting(fs: Fs, rootPath: string, moduleName: string, fromFile: string, importPath: string)
    requires !InModule(moduleName, importPath) && IsRelative(importPath)
    ensures var candidates := Candidates(fs, fs.join(fs.dir(fromFile), importPath));
      var r := ResolveImport(fs, rootPath, moduleName, fromFile, importPath);
      && (r != "" ==> exists k :: 0 <= k < |candidates| && r == candidates[k] && fs.statOk(r)
                                  && forall j :: 0 <= j < k ==> !fs.statOk(candidates[j]))
      && ((forall k :: 0 <= k < |candidates| ==> !fs.statOk(candidates[k])) ==> r == "")
  {
    var candidates := Candidates(fs, fs.join(fs.dir(fromFile), importPath));
    var first := FirstExisting(fs, candidates);
    if first.Some? {
      assert candidates[first.value] == ResolveImport(fs, rootPath, moduleName, fromFile, importPath);
    }
  }

  /** With the joined path itself absent, a ".ts" file beside it wins over every index file. */
  lemma SuffixBeforeIndex(fs: Fs, rootPath: string, moduleName: string, fromFile: string, importPath: string)
    requires !InModule(moduleName, importPath) && IsRelative(importPath)
    requires var resolved := fs.join(fs.dir(fromFile), importPath);
      !fs.statOk(resolved) && fs.statOk(resolved + ".ts")
    ensures ResolveImport(fs, rootPath, moduleName, fromFile, importPath) == fs.join(fs.dir(fromFile), importPath) + ".ts"
  {
    var resolved := fs.join(fs.dir(fromFile), importPath);
    var candidates := Candidates(fs, resolved);
    assert candidates[0] == resolved + "" == resolved;
    assert candidates[1] == resolved + ".ts";
    var first := FirstExisting(fs, candidates);
    assert first == Some(1);
  }

  // ---------------------------------------------------------------------------
  // Reverse imports

  /** How the imports of one file resolve: `ResolveImport` with the scanner's root and module fixed. */
  type Resolver = (string, string) -> string

  function ResolverOf(fs: Fs, rootPath: string, moduleName: string): Resolver {
    (fromFile: string, importPath: string) => ResolveImport(fs, rootPath, moduleName, fromFile, importPath)
  }

  /** The import with its path replaced by the file it resolves to, when it resolves to one. */
  function Rewritten(resolve: Resolver, fromFile: string, imp: Import): Import {
    var target := resolve(fromFile, imp.path);
    if target != "" then imp.(path := target) else imp
  }

  /**
    The imports of `fromFile` after the reverse-import pass: a resolved import
    points at the file it resolves to, an unresolved one is left as it was,
    and nothing but the path changes.
  */
  function ResolvedImports(resolve: Resolver, fromFile: string, imports: seq<Import>): (r: seq<Import>)
    ensures |r| == |imports|
    ensures forall i :: 0 <= i < |r| ==>
      r[i].symbols == imports[i].symbols && r[i].isDefault == imports[i].isDefault && r[i].line == imports[i].line
    ensures forall i :: 0 <= i < |r| && resolve(fromFile, imports[i].path) != "" ==> r[i].path == resolve(fromFile, imports[i].path)
    ensures forall i :: 0 <= i < |r| && resolve(fromFile, imports[i].path) == "" ==> r[i] == imports[i]
  {
    if imports == [] then []
    else ResolvedImports(resolve, fromFile, imports[..|imports| - 1]) + [Rewritten(resolve, fromFile, imports[|imports| - 1])]
  }

  /** How many of the imports resolve to `target` (never to ""). */
  function Hits(resolve: Resolver, fromFile: string, imports: seq<Import>, target: string): nat {
    if imports == [] then 0
    else
      Hits(resolve, fromFile, imports[..|imports| - 1], target)
      + (if target != "" && resolve(fromFile, imports[|imports| - 1].path) == target then 1 else 0)
  }

  /** `n` copies of `f`. */
  function Copies(f: string, n: nat): (r: seq<string>)
    ensures |r| == n && forall i :: 0 <= i < n ==> r[i] == f
  {
    if n == 0 then [] else Copies(f, n - 1) + [f]
  }

  /** The importers appended to `target` by the files of `order`, in that order: each once per import that resolves to it. */
  function Importers(files: map<string, FileNode>, order: seq<string>, target: string, resolve: Resolver): seq<string>
    requires forall k :: 0 <= k < |order| ==> order[k] in files
  {
    if order == [] then []
    else
      var f := order[|order| - 1];
      Importers(files, order[..|order| - 1], target, resolve) + Copies(f, Hits(resolve, f, files[f].imports, target))
  }

  /** The files after `buildReverseImports` has visited them in `order`. */
  function Rebuilt(files: map<string, FileNode>, order: seq<string>, resolve: Resolver): (r: map<string, FileNode>)
    requires forall k :: 0 <= k < |order| ==> order[k] in files
    ensures r.Keys == files.Keys
  {
    map f | f in files ::
      files[f].(imports := ResolvedImports(resolve, f, files[f].imports),
                importedBy := files[f].importedBy + Importers(files, order, f, resolve))
  }

  /** Some import resolves to `target` exactly when the count of such imports is positive. */
  lemma {:induction false} HitsPositive(resolve: Resolver, fromFile: string, imports: seq<Import>, target: string)
    ensures Hits(resolve, fromFile, imports, target) > 0 <==>
      target != "" && exists i :: 0 <= i < |imports| && resolve(fromFile, imports[i].path) == target
  {
    if imports != [] {
      var init := imports[..|imports| - 1];
      HitsPositive(resolve, fromFile, init, target);
      if exists i :: 0 <= i < |init| && resolve(fromFile, init[i].path) == target {
        var i :| 0 <= i < |init| && resolve(fromFile, init[i].path) == target;
        assert imports[i] == init[i];
      }
      if exists i :: 0 <= i < |imports| && resolve(fromFile, imports[i].path) == target {
        var i :| 0 <= i < |imports| && resolve(fromFile, imports[i].path) == target;
        if i < |init| {
          assert init[i] == imports[i];
        }
      }
    }
  }

  /**
    `f` is among the importers of `target` exactly when it is one of the
    visited files and one of its imports resolves to `target`.
  */
  lemma {:induction false} ImportersIff(files: map<string, FileNode>, order: seq<string>, target: string,
                                        resolve: Resolver, f: string)
    requires forall k :: 0 <= k < |order| ==> order[k] in files
    ensures f in Importers(files, order, target, resolve) <==>
      f in order && Hits(resolve, f, files[f].imports, target) > 0
  {
    if order != [] {
      var init := order[..|order| - 1];
      var last := order[|order| - 1];
      ImportersIff(files, init, target, resolve, f);
      var copies := Copies(last, Hits(resolve, last, files[last].imports, target));
      assert f in copies <==> f == last && |copies| > 0;
      assert f in order <==> f in init || f == last;
    }
  }

  /** A file visited once appears among the importers of `target` once per import that resolves to it. */
  lemma {:induction false} ImportersCount(files: map<string, FileNode>, order: seq<string>, target: string,
                                          resolve: Resolver, f: string)
    requires forall k :: 0 <= k < |order| ==> order[k] in files
    requires Distinct(order) && f in order
    ensures multiset(Importers(files, order, target, resolve))[f] == Hits(resolve, f, files[f].imports, target)
  {
    var init := order[..|order| - 1];
    var last := order[|order| - 1];
    var copies := Copies(last, Hits(resolve, last, files[last].imports, target));
    CopiesCount(last, Hits(resolve, last, files[last].imports, target), f);
    if f == last {
      assert f !in init;
      ImportersIff(files, init, target, resolve, f);
      assert multiset(Importers(files, init, target, resolve))[f] == 0;
    } else {
      assert f in init;
      ImportersCount(files, init, target, resolve, f);
    }
  }

  lemma {:induction false} CopiesCount(f: string, n: nat, g: string)
    ensures multiset(Copies(f, n))[g] == if g == f then n else 0
  {
    if n > 0 {
      CopiesCount(f, n - 1, g);
    }
  }

  /**
    Straight after parsing no file has importers. Then, after the pass, a
    file has none exactly when no import of any file resolves to it: these
    are the files dead-code detection reports.
  */
  lemma NoImportersIff(files: map<string, FileNode>, order: seq<string>, resolve: Resolver, target: string)
    requires Enumerates(order, files)
    requires forall f :: f in files ==> files[f].importedBy == []
    requires target in files
    ensures Rebuilt(files, order, resolve)[target].importedBy == [] <==>
      forall f :: f in files ==> Hits(resolve, f, files[f].imports, target) == 0
  {
    var importers := Importers(files, order, target, resolve);
    assert Rebuilt(files, order, resolve)[target].importedBy == importers;
    if importers == [] {
      forall f | f in files
        ensures Hits(resolve, f, files[f].imports, target) == 0
      {
        ImportersIff(files, order, target, resolve, f);
      }
    } else {
      var f := importers[0];
      ImportersIff(files, order, target, resolve, f);
    }
  }

  // The loops of buildReverseImports

  /** The expected state of file `g` once the first `k` files of `order` have been visited. */
  function Visited(files: map<string, FileNode>, order: seq<string>, k: nat, g: string, resolve: Resolver): FileNode
    requires forall j :: 0 <= j < |order| ==> order[j] in files
    requires k <= |order| && g in files
  {
    files[g].(imports := if g in order[..k] then ResolvedImports(resolve, g, files[g].imports) else files[g].imports,
              importedBy := files[g].importedBy + Importers(files, order[..k], g, resolve))
  }

  /** The expected state of file `g` while the `k`-th file of `order` is visited, after its first `i` imports. */
  function Visiting(files: map<string, FileNode>, order: seq<string>, k: nat, i: nat, g: string, resolve: Resolver): FileNode
    requires forall j :: 0 <= j < |order| ==> order[j] in files
    requires k < |order| && g in files && i <= |files[order[k]].imports|
  {
    var f := order[k];
    var imports := files[f].imports;
    var before := Visited(files, order, k, g, resolve);
    before.(imports := if g == f then ResolvedImports(resolve, f, imports[..i]) + imports[i..] else before.imports,
            importedBy := before.importedBy + Copies(f, Hits(resolve, f, imports[..i], g)))
  }

  /**
    `buildReverseImports` over a copy of the files: every file in `order`
    has its resolved imports rewritten, and each resolved import that names
    a scanned file appends the importer to that file's importers.
  */
  method ReverseImports(files: map<string, FileNode>, order: seq<string>, resolve: Resolver)
    returns (result: map<string, FileNode>)
    requires Enumerates(order, files)
    ensures result == Rebuilt(files, order, resolve)
  {
    result := files;
    for k := 0 to |order|
      invariant result.Keys == files.Keys
      invariant forall g :: g in result ==> result[g] == Visited(files, order, k, g, resolve)
    {
      result := VisitFile(files, order, k, resolve, result);
    }
    VisitedAll(files, order, resolve, result);
  }

  /** Once every file of `order` has been visited, the files are as `Rebuilt` says. */
  lemma VisitedAll(files: map<string, FileNode>, order: seq<string>, resolve: Resolver, result: map<string, FileNode>)
    requires Enumerates(order, files)
    requires result.Keys == files.Keys
    requires forall g {:trigger Visited(files, order, |order|, g, resolve)} :: g in result ==> result[g] == Visited(files, order, |order|, g, resolve)
    ensures result == Rebuilt(files, order, resolve)
  {
    assert order[..|order|] == order;
    forall g | g in files
      ensures result[g] == Rebuilt(files, order, resolve)[g]
    {
      assert g in order;
      assert result[g] == Visited(files, order, |order|, g, resolve);
    }
  }

  /** One pass of the outer loop: the imports of `order[k]`, one at a time. */
  method VisitFile(files: map<string, FileNode>, order: seq<string>, k: nat, resolve: Resolver,
                   current: map<string, FileNode>) returns (next: map<string, FileNode>)
    requires Enumerates(order, files) && k < |order|
    requires current.Keys == files.Keys
    requires forall g :: g in current ==> current[g] == Visited(files, order, k, g, resolve)
    ensures next.Keys == files.Keys
    ensures forall g :: g in next ==> next[g] == Visited(files, order, k + 1, g, resolve)
  {
    var imports := files[order[k]].imports;
    next := current;
    forall g | g in next
      ensures next[g] == Visiting(files, order, k, 0, g, resolve)
    {
      VisitingStart(files, order, k, g, resolve);
    }
    for i := 0 to |imports|
      invariant next.Keys == files.Keys
      invariant forall g {:trigger Visiting(files, order, k, i, g, resolve)} :: g in next ==> next[g] == Visiting(files, order, k, i, g, resolve)
    {
      next := VisitImport(files, order, k, i, resolve, next);
    }
    forall g | g in next
      ensures next[g] == Visited(files, order, k + 1, g, resolve)
    {
      VisitingEnd(files, order, k, g, resolve);
    }
  }

  /** One pass of the inner loop: rewrite import `i` of `order[k]` and record the importer. */
  method VisitImport(files: map<string, FileNode>, order: seq<string>, k: nat, i: nat, resolve: Resolver,
                     current: map<string, FileNode>) returns (next: map<string, FileNode>)
    requires Enumerates(order, files) && k < |order| && i < |files[order[k]].imports|
    requires current.Keys == files.Keys
    requires forall g {:trigger Visiting(files, order, k, i, g, resolve)} :: g in current ==> current[g] == Visiting(files, order, k, i, g, resolve)
    ensures next.Keys == files.Keys
    ensures forall g :: g in next ==> next[g] == Visiting(files, order, k, i + 1, g, resolve)
  {
    var f := order[k];
    VisitingAt(files, order, k, i, resolve);
    var imp := current[f].imports[i];
    var resolvedPath := resolve(f, imp.path);
    next := current;
    if resolvedPath != "" {
      next := next[f := next[f].(imports := next[f].imports[i := imp.(path := resolvedPath)])];
      if resolvedPath in next {
        next := next[resolvedPath := next[resolvedPath].(importedBy := next[resolvedPath].importedBy + [f])];
      }
    }
    forall g | g in next
      ensures next[g] == Visiting(files, order, k, i + 1, g, resolve)
    {
      VisitingStep(files, order, k, i, g, resolve);
    }
  }

  /** Import `i` of the file being visited has not been rewritten yet. */
  lemma VisitingAt(files: map<string, FileNode>, order: seq<string>, k: nat, i: nat, resolve: Resolver)
    requires forall j :: 0 <= j < |order| ==> order[j] in files
    requires k < |order| && i < |files[order[k]].imports|
    ensures |Visiting(files, order, k, i, order[k], resolve).imports| == |files[order[k]].imports|
    ensures Visiting(files, order, k, i, order[k], resolve).imports[i] == files[order[k]].imports[i]
  {
    var imports := files[order[k]].imports;
    assert imports[i..][0] == imports[i];
  }

  /** What one import changes: the importer's own entry, and the entry of the file it resolves to. */
  lemma VisitingStep(files: map<string, FileNode>, order: seq<string>, k: nat, i: nat, g: string, resolve: Resolver)
    requires forall j :: 0 <= j < |order| ==> order[j] in files
    requires k < |order| && i < |files[order[k]].imports| && g in files
    ensures var f := order[k];
            var imp := files[f].imports[i];
            var t := resolve(f, imp.path);
            var v := Visiting(files, order, k, i, g, resolve);
            Visiting(files, order, k, i + 1, g, resolve)
              == v.(imports := if g == f && t != "" then v.imports[i := imp.(path := t)] else v.imports,
                    importedBy := if g == t && t != "" then v.importedBy + [f] else v.importedBy)
  {
    var f := order[k];
    var imports := files[f].imports;
    assert imports[..i + 1][..i] == imports[..i];
    if g == f {
      StepImports(resolve, f, imports, i);
      if resolve(f, imports[i].path) == "" {
        assert imports[i..][0] == imports[i];
      }
    }
  }

  /** Before the first import of `order[k]`, every file is as the first `k` visits left it. */
  lemma VisitingStart(files: map<string, FileNode>, order: seq<string>, k: nat, g: string, resolve: Resolver)
    requires forall j :: 0 <= j < |order| ==> order[j] in files
    requires Distinct(order) && k < |order| && g in files
    ensures Visiting(files, order, k, 0, g, resolve) == Visited(files, order, k, g, resolve)
  {
    var f := order[k];
    var imports := files[f].imports;
    assert imports[..0] == [] && imports[0..] == imports;
    assert Hits(resolve, f, [], g) == 0;
    var before := Visited(files, order, k, g, resolve);
    assert before.importedBy + Copies(f, 0) == before.importedBy;
    assert ResolvedImports(resolve, f, imports[..0]) + imports[0..] == imports;
    assert Copies(f, Hits(resolve, f, imports[..0], g)) == [];
    if g == f {
      assert f !in order[..k] by {
        assert forall j :: 0 <= j < k ==> order[j] != f;
      }
    }
  }

  /** After the last import of `order[k]`, every file is as the first `k + 1` visits leave it. */
  lemma VisitingEnd(files: map<string, FileNode>, order: seq<string>, k: nat, g: string, resolve: Resolver)
    requires forall j :: 0 <= j < |order| ==> order[j] in files
    requires Distinct(order) && k < |order| && g in files
    ensures Visiting(files, order, k, |files[order[k]].imports|, g, resolve) == Visited(files, order, k + 1, g, resolve)
  {
    var f := order[k];
    var imports := files[f].imports;
    assert imports[..|imports|] == imports && imports[|imports|..] == [];
    assert order[..k + 1] == order[..k] + [f];
    assert order[..k + 1][..k] == order[..k];
    if g == f {
      assert f !in order[..k] by {
        assert forall j :: 0 <= j < k ==> order[j] != f;
      }
    }
  }

  /** Rewriting import `i` extends the rewritten prefix by one. */
  lemma StepImports(resolve: Resolver, f: string, imports: seq<Import>, i: nat)
    requires i < |imports|
    ensures ResolvedImports(resolve, f, imports[..i + 1]) + imports[i + 1..]
      == (ResolvedImports(resolve, f, imports[..i]) + imports[i..])[i := Rewritten(resolve, f, imports[i])]
  {
    assert imports[..i + 1][..i] == imports[..i];
  }

  // ---------------------------------------------------------------------------
  // The directory walk

  /**
    What `filepath.Walk` finds at a path: a non-directory (a symbolic link
    counts as one), a directory with its entries (in lexical order), a
    directory whose entries could not be read, or a path whose `Lstat` failed.
  */
  datatype Entry =
    | File(path: string)
    | Dir(path: string, name: string, entries: seq<Entry>)
    | Unlistable(path: string, name: string, msg: string)
    | Broken(path: string, msg: string)

  /** The non-directory paths handed to the walk callback, and the error that stopped the walk, if any. */
  datatype Walked = Walked(files: seq<string>, failure: Option<string>)

  /**
    The walk of `Scan`. An error reaches the callback before its directory
    test, so a directory that cannot be read stops the walk even when its
    name is excluded; a readable excluded directory (the root included) is
    skipped whole.
  */
  function Walk(e: Entry, excludeDirs: set<string>): Walked
    decreases e, 1
  {
    match e
    case File(path) => Walked([path], None)
    case Broken(_, msg) => Walked([], Some(msg))
    case Unlistable(_, _, msg) => Walked([], Some(msg))
    case Dir(_, name, _) =>
      if name in excludeDirs then Walked([], None)
      else WalkEntries(e, 0, excludeDirs)
  }

  /** The walk of the entries of directory `e` from the `i`-th on; it stops at the first failure. */
  function WalkEntries(e: Entry, i: nat, excludeDirs: set<string>): Walked
    requires e.Dir? && i <= |e.entries|
    decreases e, 0, |e.entries| - i
  {
    if i == |e.entries| then Walked([], None)
    else
      var first := Walk(e.entries[i], excludeDirs);
      if first.failure.Some? then first
      else
        var rest := WalkEntries(e, i + 1, excludeDirs);
        Walked(first.files + rest.files, rest.failure)
  }

  /** `path` is a non-directory below `e` reached through readable directories none of whose names is excluded. */
  predicate Reachable(e: Entry, excludeDirs: set<string>, path: string)
    decreases e
  {
    match e
    case File(p) => p == path
    case Broken(_, _) => false
    case Unlistable(_, _, _) => false
    case Dir(_, name, entries) =>
      name !in excludeDirs && exists i :: 0 <= i < |entries| && Reachable(entries[i], excludeDirs, path)
  }

  /** Every path the walk hands on lies below no excluded directory. */
  lemma {:induction false} WalkSound(e: Entry, excludeDirs: set<string>, path: string)
    ensures path in Walk(e, excludeDirs).files ==> Reachable(e, excludeDirs, path)
    decreases e, 1
  {
    if e.Dir? && e.name !in excludeDirs {
      WalkEntriesSound(e, 0, excludeDirs, path);
    }
  }

  lemma {:induction false} WalkEntriesSound(e: Entry, i: nat, excludeDirs: set<string>, path: string)
    requires e.Dir? && i <= |e.entries|
    ensures path in WalkEntries(e, i, excludeDirs).files ==>
      exists j :: i <= j < |e.entries| && Reachable(e.entries[j], excludeDirs, path)
    decreases e, 0, |e.entries| - i
  {
    if i < |e.entries| {
      WalkSound(e.entries[i], excludeDirs, path);
      if Walk(e.entries[i], excludeDirs).failure.None? {
        WalkEntriesSound(e, i + 1, excludeDirs, path);
      }
    }
  }

  /** A walk that does not fail hands on every reachable path. */
  lemma {:induction false} WalkComplete(e: Entry, excludeDirs: set<string>, path: string)
    requires Walk(e, excludeDirs).failure.None? && Reachable(e, excludeDirs, path)
    ensures path in Walk(e, excludeDirs).files
    decreases e, 1
  {
    if e.Dir? {
      var j :| 0 <= j < |e.entries| && Reachable(e.entries[j], excludeDirs, path);
      WalkEntriesComplete(e, 0, excludeDirs, path, j);
    }
  }

  lemma {:induction false} WalkEntriesComplete(e: Entry, i: nat, excludeDirs: set<string>, path: string, j: nat)
    requires e.Dir? && i <= j < |e.entries|
    requires WalkEntries(e, i, excludeDirs).failure.None?
    requires Reachable(e.entries[j], excludeDirs, path)
    ensures path in WalkEntries(e, i, excludeDirs).files
    decreases e, 0, |e.entries| - i
  {
    if j == i {
      WalkComplete(e.entries[i], excludeDirs, path);
    } else {
      WalkEntriesComplete(e, i + 1, excludeDirs, path, j);
    }
  }

  // ---------------------------------------------------------------------------
  // Parsing what the walk found

  /** What the walk callback stores for one path: its parse, when it has a supported extension and parses. */
  function Stored(parser: Parser, fs: Fs, path: string): Option<FileNode> {
    if IsSupportedFile(path) then
      match Parse(parser, path, fs.source(path))
      case Ok(node) => Some(node)
      case Err(_) => None
    else None
  }

  /** The files map after the walk callback has seen `paths`. */
  function Parsed(files: map<string, FileNode>, parser: Parser, fs: Fs, paths: seq<string>): map<string, FileNode> {
    if paths == [] then files
    else
      var prev := Parsed(files, parser, fs, paths[..|paths| - 1]);
      var path := paths[|paths| - 1];
      var stored := Stored(parser, fs, path);
      if stored.Some? then prev[path := stored.value] else prev
  }

  /** The walk callback for one path; a file that fails to parse is skipped. */
  method StoreFile(parser: Parser, fs: Fs, path: string) returns (stored: Option<FileNode>)
    ensures stored == Stored(parser, fs, path)
  {
    stored := None;
    if IsSupportedFile(path) {
      var node := ParseFile(parser, path, fs.source(path));
      if node.Ok? {
        stored := Some(node.value);
      }
    }
  }

  /**
    The callback stores a path exactly when its extension is supported, the
    parser has that language's grammar, the file can be read and it parses.
  */
  lemma StoredIff(parser: Parser, fs: Fs, path: string)
    ensures var src := fs.source(path);
      Stored(parser, fs, path).Some? <==>
        IsSupportedFile(path) && DetectLanguage(parser, path) in parser.languages && src.read.Ok? && src.tree.Some?
    ensures Stored(parser, fs, path).Some? ==> Stored(parser, fs, path).value == Parse(parser, path, fs.source(path)).value
  {
    SupportedIffDetected(parser, path);
    ParseSucceeds(parser, path, fs.source(path));
  }

  /**
    After the walk a path is in the graph exactly when it was there before
    or the walk reached it and the callback stored it; a later visit of the
    same path stores the same parse.
  */
  lemma {:induction false} ParsedKeys(files: map<string, FileNode>, parser: Parser, fs: Fs, paths: seq<string>, path: string)
    ensures path in Parsed(files, parser, fs, paths) <==>
      path in files || (path in paths && Stored(parser, fs, path).Some?)
    ensures path in paths && Stored(parser, fs, path).Some? ==>
      Parsed(files, parser, fs, paths)[path] == Stored(parser, fs, path).value
    ensures path !in paths && path in files ==> Parsed(files, parser, fs, paths)[path] == files[path]
  {
    if paths != [] {
      var init := paths[..|paths| - 1];
      var last := paths[|paths| - 1];
      ParsedKeys(files, parser, fs, init, path);
      assert paths == init + [last];
      assert path in paths <==> path in init || path == last;
    }
  }

  /** What parsing stores has no importers yet. */
  lemma {:induction false} ParsedUnimported(files: map<string, FileNode>, parser: Parser, fs: Fs, paths: seq<string>)
    requires forall f :: f in files ==> files[f].importedBy == []
    ensures forall f :: f in Parsed(files, parser, fs, paths) ==> Parsed(files, parser, fs, paths)[f].importedBy == []
  {
    if paths != [] {
      ParsedUnimported(files, parser, fs, paths[..|paths| - 1]);
    }
  }

  /** Handing on one more path stores its parse when it is supported and parses. */
  lemma ParsedStep(files: map<string, FileNode>, parser: Parser, fs: Fs, paths: seq<string>, i: nat)
    requires i < |paths|
    ensures var prev := Parsed(files, parser, fs, paths[..i]);
      var stored := Stored(parser, fs, paths[i]);
      Parsed(files, parser, fs, paths[..i + 1]) == if stored.Some? then prev[paths[i] := stored.value] else prev
  {
    assert paths[..i + 1][..i] == paths[..i];
  }

  /** Some iteration order of a Go map: every key exactly once. */
  method MapOrder(keys: set<string>) returns (order: seq<string>)
    ensures Distinct(order)
    ensures forall k :: k in order <==> k in keys
  {
    order := [];
    var rest := keys;
    while rest != {}
      invariant Distinct(order)
      invariant forall k :: k in keys <==> k in order || k in rest
      invariant forall k :: k in order ==> k !in rest
      decreases rest
    {
      var k :| k in rest;
      order := order + [k];
      rest := rest - {k};
    }
  }

  // ---------------------------------------------------------------------------
  // The scanner

  class Scanner {
    const rootPath: string
    const parser: Parser
    const graph: DependencyGraph
    const moduleName: string
    const excludeDirs: set<string>

    constructor (rootPath: string, parser: Parser, moduleName: string, excludeDirs: set<string>, now: string)
      ensures this.rootPath == rootPath && this.parser == parser
      ensures this.moduleName == moduleName && this.excludeDirs == excludeDirs
      ensures fresh(graph)
      ensures graph.files == map[] && graph.circular == [] && graph.deadCode == [] && graph.lastUpdated == now
    {
      this.rootPath := rootPath;
      this.parser := parser;
      this.moduleName := moduleName;
      this.excludeDirs := excludeDirs;
      graph := new DependencyGraph(now);
    }

    /** The walk callback over the paths the walk hands on. */
    method AddFiles(fs: Fs, paths: seq<string>)
      modifies graph
      ensures graph.files == Parsed(old(graph.files), parser, fs, paths)
      ensures graph.circular == old(graph.circular) && graph.deadCode == old(graph.deadCode)
      ensures graph.lastUpdated == old(graph.lastUpdated)
    {
      for i := 0 to |paths|
        invariant graph.files == Parsed(old(graph.files), parser, fs, paths[..i])
        invariant graph.circular == old(graph.circular) && graph.deadCode == old(graph.deadCode)
        invariant graph.lastUpdated == old(graph.lastUpdated)
      {
        var path := paths[i];
        ParsedStep(old(graph.files), parser, fs, paths, i);
        var stored := StoreFile(parser, fs, path);
        if stored.Some? {
          graph.files := graph.files[path := stored.value];
        }
      }
      assert paths[..|paths|] == paths;
    }

    /** `buildReverseImports`, visiting the files in the map's iteration order `order`. */
    method BuildReverseImports(fs: Fs, order: seq<string>)
      requires Enumerates(order, graph.files)
      modifies graph
      ensures graph.files == Rebuilt(old(graph.files), order, ResolverOf(fs, rootPath, moduleName))
      ensures graph.circular == old(graph.circular) && graph.deadCode == old(graph.deadCode)
      ensures graph.lastUpdated == old(graph.lastUpdated)
    {
      graph.files := ReverseImports(graph.files, order, ResolverOf(fs, rootPath, moduleName));
    }

    /**
      Walk the tree below the root, parse every supported file, resolve
      imports and record importers, then detect cycles and dead code. A walk
      error is returned once the files before it have been stored.
    */
    method Scan(fs: Fs, root: Entry) returns (err: Option<string>)
      modifies graph
      ensures var walked := Walk(root, excludeDirs);
        walked.failure.Some? ==>
          && err == walked.failure
          && graph.files == Parsed(old(graph.files), parser, fs, walked.files)
          && graph.circular == old(graph.circular) && graph.deadCode == old(graph.deadCode)
      ensures var walked := Walk(root, excludeDirs);
        walked.failure.None? ==>
          && err.None?
          && exists order :: Enumerates(order, Parsed(old(graph.files), parser, fs, walked.files)) &&
               graph.files == Rebuilt(Parsed(old(graph.files), parser, fs, walked.files), order,
                                      ResolverOf(fs, rootPath, moduleName))
      ensures err.None? ==> forall p :: p in graph.deadCode <==> p in graph.files && graph.files[p].importedBy == []
      ensures err.None? ==> Distinct(graph.deadCode)
      ensures err.None? ==> forall a :: 0 <= a < |graph.circular| ==>
        |graph.circular[a]| >= 2 && Distinct(graph.circular[a]) && StronglyConnected(Adjacency(graph.files), graph.circular[a])
      ensures err.None? ==> forall a, x :: 0 <= a < |graph.circular| && x in graph.circular[a] ==> x in graph.files
      ensures err.None? ==> forall a, b :: 0 <= a < b < |graph.circular| ==> Disjoint(graph.circular[a], graph.circular[b])
      ensures graph.lastUpdated == old(graph.lastUpdated)
    {
      var walked := Walk(root, excludeDirs);
      AddFiles(fs, walked.files);
      if walked.failure.Some? {
        return walked.failure;
      }
      ghost var parsed := graph.files;
      var order := MapOrder(graph.files.Keys);
      BuildReverseImports(fs, order);
      var cycleOrder := MapOrder(graph.files.Keys);
      var cycles := DetectCircularDependencies(graph.files, cycleOrder);
      graph.circular := cycles;
      var deadOrder := MapOrder(graph.files.Keys);
      var dead := DetectDeadCode(graph.files, deadOrder);
      graph.deadCode := dead;
      err := None;
    }
  }

  /**
    `NewScanner`: the languages file decides which grammars load, go.mod
    (when readable) names the Go module, and the excluded directory names
    are the defaults plus the custom ones; only a languages file that
    cannot be located or read is an error.
  */
  method NewScanner(rootPath: string, customExcludes: seq<string>, languageFile: LanguageFile,
                    goMod: Option<string>, now: string) returns (r: Result<Scanner>)
    ensures r.Err? <==> LoadLanguages(languageFile).Err?
    ensures r.Err? ==> r.msg == "failed to load languages: " + LoadLanguages(languageFile).msg
    ensures r.Ok? ==> var s := r.value;
      fresh(s) && fresh(s.graph) && s.rootPath == rootPath
      && (forall lang :: lang in s.parser.languages <==> lang in Grammars && lang in LoadLanguages(languageFile).value)
      && s.moduleName == (if goMod.Some? then ModuleName(Split(goMod.value, '\n')) else "")
      && (forall d :: d in s.excludeDirs <==> d in DefaultExcludeDirs || d in customExcludes)
      && s.graph.files == map[] && s.graph.circular == [] && s.graph.deadCode == [] && s.graph.lastUpdated == now
  {
    var languages := LoadLanguages(languageFile);
    if languages.Err? {
      return Err("failed to load languages: " + languages.msg);
    }
    var parser := NewParser(languages.value);
    var moduleName := ReadModuleName(goMod);
    var excludeDirs := MergeExcludes(customExcludes);
    var scanner := new Scanner(rootPath, parser, moduleName, excludeDirs, now);
    r := Ok(scanner);
  }
}
