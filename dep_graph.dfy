/**
  The dependency graph of the scanner: one record per parsed file (its
  language, imports, exports and importers), the import cycles, and the files
  nobody imports.
*/
module DepGraph {
  import opened GoStrings
  import opened Wrappers

  datatype Import = Import(path: string, symbols: seq<string>, isDefault: bool, line: int)

  datatype Export = Export(name: string, exportType: string, isDefault: bool, line: int)

  datatype FileNode = FileNode(
    path: string,
    language: string,
    imports: seq<Import>,
    exports: seq<Export>,
    importedBy: seq<string>)

  /** No element occurs twice. */
  predicate Distinct(s: seq<string>) {
    forall i, j :: 0 <= i < j < |s| ==> s[i] != s[j]
  }

  /** One order in which a Go `range` over the map may visit its keys: each key exactly once. */
  ghost predicate Enumerates<V>(order: seq<string>, m: map<string, V>) {
    Distinct(order) && forall k :: k in m <==> k in order
  }

  // ---------------------------------------------------------------------------
  // The graph object

  /**
    `DependencyGraph`: the scanned files by path, the import cycles and the
    dead files. `lastUpdated` holds the creation time already formatted as
    RFC 3339 text, the only form in which the model uses it.
  */
  class DependencyGraph {
    var files: map<string, FileNode>
    var circular: seq<seq<string>>
    var deadCode: seq<string>
    var lastUpdated: string

    /** `NewDependencyGraph`, created at the time `now`. */
    constructor (now: string)
      ensures files == map[] && circular == [] && deadCode == [] && lastUpdated == now
    {
      files := map[];
      circular := [];
      deadCode := [];
      lastUpdated := now;
    }

    /**
      The text `SaveTOON` writes: the file records in map order, then the
      cycle section, the dead-code section and the META line.
    */
    method SaveToon(order: seq<string>) returns (text: string)
      requires Enumerates(order, files)
      ensures text == Unlines(Map(Render, ToonRows(files, order, circular, deadCode, lastUpdated)))
    {
      var records := WriteRecords(order);
      var cycles := WriteCycles();
      var dead := WriteDeadCode();
      var rows := records + cycles + dead + [MetaRow(lastUpdated)];
      text := Unlines(Map(Render, rows));
    }

    /** The loop of `SaveTOON` over the files, six rows each. */
    method WriteRecords(order: seq<string>) returns (rows: seq<ToonRow>)
      requires forall k :: 0 <= k < |order| ==> order[k] in files
      ensures rows == RecordRows(files, order)
    {
      rows := [];
      for k := 0 to |order|
        invariant rows == RecordRows(files, order[..k])
      {
        var node := files[order[k]];
        rows := rows + [FileRow(order[k]), LangRow(node.language), ImportsRow(node.imports),
                        ExportsRow(node.exports), ImportedByRow(node.importedBy), EndRow];
        assert order[..k + 1][..k] == order[..k];
      }
      assert order[..|order|] == order;
    }

    /** The cycle section of `SaveTOON`. */
    method WriteCycles() returns (rows: seq<ToonRow>)
      ensures rows == CycleSection(circular)
    {
      rows := [];
      if |circular| > 0 {
        for a := 0 to |circular|
          invariant rows == CircularRows(circular[..a])
        {
          assert circular[..a + 1][..a] == circular[..a];
          rows := rows + [CircularRow(circular[a])];
        }
        assert circular[..|circular|] == circular;
        rows := rows + [EndRow];
      }
    }

    /** The dead-code section of `SaveTOON`. */
    method WriteDeadCode() returns (rows: seq<ToonRow>)
      ensures rows == DeadSection(deadCode)
    {
      rows := [];
      if |deadCode| > 0 {
        for a := 0 to |deadCode|
          invariant rows == DeadRows(deadCode[..a])
        {
          assert deadCode[..a + 1][..a] == deadCode[..a];
          rows := rows + [DeadRow(deadCode[a])];
        }
        assert deadCode[..|deadCode|] == deadCode;
        rows := rows + [EndRow];
      }
    }

    /** The counting loop of `PrintStats`: how many files there are of each language. */
    method LanguageCounts(order: seq<string>) returns (counts: map<string, nat>)
      requires Enumerates(order, files)
      ensures Counted(files, files.Keys, counts)
    {
      counts := map[];
      ghost var seen: set<string> := {};
      for k := 0 to |order|
        invariant seen == set j | 0 <= j < k :: order[j]
        invariant Counted(files, seen, counts)
      {
        var p := order[k];
        assert forall j :: 0 <= j < k ==> order[j] != p;
        CountStep(files, seen, counts, p);
        var lang := files[p].language;
        if lang in counts {
          counts := counts[lang := counts[lang] + 1];
        } else {
          counts := counts[lang := 1];
        }
        seen := seen + {p};
      }
      assert seen == files.Keys;
    }
  }

  /**
    `counts` maps exactly the languages of the files among `keys`, each to
    the number of those files that have it.
  */
  ghost predicate Counted(files: map<string, FileNode>, keys: set<string>, counts: map<string, nat>) {
    forall lang ::
      && (lang in counts ==> counts[lang] == |FilesOf(files, keys, lang)| > 0)
      && (lang !in counts ==> FilesOf(files, keys, lang) == {})
  }

  /** Counting one more file raises its language's count by one, or adds that language with count one. */
  lemma CountStep(files: map<string, FileNode>, seen: set<string>, counts: map<string, nat>, p: string)
    requires Counted(files, seen, counts) && p in files && p !in seen
    ensures var lang := files[p].language;
      Counted(files, seen + {p}, counts[lang := if lang in counts then counts[lang] + 1 else 1])
  {
    var lang := files[p].language;
    var counts' := counts[lang := if lang in counts then counts[lang] + 1 else 1];
    forall other
      ensures && (other in counts' ==> counts'[other] == |FilesOf(files, seen + {p}, other)| > 0)
              && (other !in counts' ==> FilesOf(files, seen + {p}, other) == {})
    {
      FilesOfAdd(files, seen, p, other);
    }
  }

  /** Adding a file to the keys adds it to its own language's files and to no other. */
  lemma FilesOfAdd(files: map<string, FileNode>, seen: set<string>, p: string, lang: string)
    requires p in files && p !in seen
    ensures files[p].language == lang ==> FilesOf(files, seen + {p}, lang) == FilesOf(files, seen, lang) + {p}
    ensures files[p].language == lang ==> |FilesOf(files, seen + {p}, lang)| == |FilesOf(files, seen, lang)| + 1
    ensures files[p].language != lang ==> FilesOf(files, seen + {p}, lang) == FilesOf(files, seen, lang)
  {
  }

  /** The keys among `keys` whose file has language `lang`. */
  function FilesOf(files: map<string, FileNode>, keys: set<string>, lang: string): set<string> {
    set p | p in keys && p in files && files[p].language == lang
  }

  // ---------------------------------------------------------------------------
  // The TOON text

  /** The lines `SaveTOON` writes, by kind and with the values they show. */
  datatype ToonRow =
    | FileRow(path: string)
    | LangRow(language: string)
    | ImportsRow(imports: seq<Import>)
    | ExportsRow(exports: seq<Export>)
    | ImportedByRow(importers: seq<string>)
    | EndRow
    | CircularRow(cycle: seq<string>)
    | DeadRow(deadFile: string)
    | MetaRow(lastUpdated: string)

  /** `fmt.Sprintf("%s:%d", imp.Path, imp.Line)`. */
  function ImportField(imp: Import): string {
    imp.path + ":" + IntToString(imp.line)
  }

  /** `fmt.Sprintf("%s:%s:%d", exp.Name, exp.Type, exp.Line)`. */
  function ExportField(exp: Export): string {
    exp.name + ":" + exp.exportType + ":" + IntToString(exp.line)
  }

  /** The text of a row, without its "\n". */
  function Render(row: ToonRow): string {
    match row
    case FileRow(path) => "FILE:" + path
    case LangRow(language) => "LANG:" + language
    case ImportsRow(imports) => "IMPORTS:" + (if |imports| > 0 then Join(Map(ImportField, imports), ",") else "")
    case ExportsRow(exports) => "EXPORTS:" + (if |exports| > 0 then Join(Map(ExportField, exports), ",") else "")
    case ImportedByRow(importers) => "IMPORTEDBY:" + (if |importers| > 0 then Join(importers, ",") else "")
    case EndRow => "---"
    case CircularRow(cycle) => "CIRCULAR:" + Join(cycle, ">")
    case DeadRow(deadFile) => "DEADCODE:" + deadFile
    case MetaRow(lastUpdated) => "META:lastUpdated=" + lastUpdated
  }

  /** The six rows of one file. */
  function FileRecord(path: string, node: FileNode): seq<ToonRow> {
    [FileRow(path), LangRow(node.language), ImportsRow(node.imports),
     ExportsRow(node.exports), ImportedByRow(node.importedBy), EndRow]
  }

  function CircularRows(circular: seq<seq<string>>): (rows: seq<ToonRow>)
    ensures |rows| == |circular|
    ensures forall a :: 0 <= a < |circular| ==> rows[a] == CircularRow(circular[a])
  {
    if circular == [] then [] else CircularRows(circular[..|circular| - 1]) + [CircularRow(circular[|circular| - 1])]
  }

  function DeadRows(deadCode: seq<string>): (rows: seq<ToonRow>)
    ensures |rows| == |deadCode|
    ensures forall a :: 0 <= a < |deadCode| ==> rows[a] == DeadRow(deadCode[a])
  {
    if deadCode == [] then [] else DeadRows(deadCode[..|deadCode| - 1]) + [DeadRow(deadCode[|deadCode| - 1])]
  }

  /** The cycle section: only when there are cycles, one row each and a closing "---". */
  function CycleSection(circular: seq<seq<string>>): seq<ToonRow> {
    if |circular| > 0 then CircularRows(circular) + [EndRow] else []
  }

  /** The dead-code section: only when there are dead files, one row each and a closing "---". */
  function DeadSection(deadCode: seq<string>): seq<ToonRow> {
    if |deadCode| > 0 then DeadRows(deadCode) + [EndRow] else []
  }

  /** Every row `SaveTOON` writes, in order. */
  function ToonRows(files: map<string, FileNode>, order: seq<string>, circular: seq<seq<string>>,
                    deadCode: seq<string>, lastUpdated: string): seq<ToonRow>
    requires forall k :: 0 <= k < |order| ==> order[k] in files
  {
    RecordRows(files, order) + CycleSection(circular) + DeadSection(deadCode) + [MetaRow(lastUpdated)]
  }

  /** The file records, one after another: six rows per file. */
  function RecordRows(files: map<string, FileNode>, order: seq<string>): (rows: seq<ToonRow>)
    requires forall k :: 0 <= k < |order| ==> order[k] in files
    ensures |rows| == 6 * |order|
  {
    if order == [] then []
    else RecordRows(files, order[..|order| - 1]) + FileRecord(order[|order| - 1], files[order[|order| - 1]])
  }

  // ---------------------------------------------------------------------------
  // Layout of the TOON text

  /** The record of the k-th file occupies rows 6k to 6k+5. */
  lemma {:induction false} RecordAt(files: map<string, FileNode>, order: seq<string>, k: nat)
    requires forall j :: 0 <= j < |order| ==> order[j] in files
    requires k < |order|
    ensures RecordRows(files, order)[6 * k..6 * k + 6] == FileRecord(order[k], files[order[k]])
  {
    var init := order[..|order| - 1];
    var last := order[|order| - 1];
    assert RecordRows(files, order) == RecordRows(files, init) + FileRecord(last, files[last]);
    if k < |init| {
      RecordAt(files, init, k);
      SliceOfPrefix(RecordRows(files, init), FileRecord(last, files[last]), 6 * k, 6 * k + 6);
    }
  }

  /** Where the parts of `a + b + c + [m]` sit. */
  lemma Sections<T>(a: seq<T>, b: seq<T>, c: seq<T>, m: T)
    ensures var r := a + b + c + [m];
      && |r| == |a| + |b| + |c| + 1
      && r[..|a|] == a
      && (forall i :: 0 <= i < |b| ==> r[|a| + i] == b[i])
      && (forall i :: 0 <= i < |c| ==> r[|a| + |b| + i] == c[i])
      && r[|r| - 1] == m
  {
    var r := a + b + c + [m];
    assert r[..|a|] == a;
  }

  /** The TOON rows open with six rows per file (FILE, LANG, IMPORTS, EXPORTS, IMPORTEDBY, "---"), in map order. */
  lemma ToonRecords(files: map<string, FileNode>, order: seq<string>, circular: seq<seq<string>>,
                    deadCode: seq<string>, lastUpdated: string)
    requires forall k :: 0 <= k < |order| ==> order[k] in files
    ensures var rows := ToonRows(files, order, circular, deadCode, lastUpdated);
      && |rows| > 6 * |order|
      && (forall k :: 0 <= k < |order| ==> rows[6 * k..6 * k + 6] == FileRecord(order[k], files[order[k]]))
  {
    var records := RecordRows(files, order);
    var cyc := CycleSection(circular);
    var dead := DeadSection(deadCode);
    forall k | 0 <= k < |order|
      ensures ToonRows(files, order, circular, deadCode, lastUpdated)[6 * k..6 * k + 6]
        == FileRecord(order[k], files[order[k]])
    {
      RecordAt(files, order, k);
      SliceOfPrefix(records + cyc + dead, [MetaRow(lastUpdated)], 6 * k, 6 * k + 6);
      SliceOfPrefix(records + cyc, dead, 6 * k, 6 * k + 6);
      SliceOfPrefix(records, cyc, 6 * k, 6 * k + 6);
    }
  }

  /** A slice that lies within `a` is the same in `a + b`. */
  lemma SliceOfPrefix<T>(a: seq<T>, b: seq<T>, i: nat, j: nat)
    requires i <= j <= |a|
    ensures (a + b)[i..j] == a[i..j]
  {
  }

  /** The cycle section holds one CIRCULAR row per cycle and a closing "---", or nothing when there are no cycles. */
  lemma CycleSectionShape(circular: seq<seq<string>>)
    ensures var sec := CycleSection(circular);
      && |sec| == (if |circular| > 0 then |circular| + 1 else 0)
      && (forall a :: 0 <= a < |circular| ==> sec[a] == CircularRow(circular[a]))
      && (|circular| > 0 ==> sec[|circular|] == EndRow)
  {
  }

  /** The dead-code section holds one DEADCODE row per file and a closing "---", or nothing when there are none. */
  lemma DeadSectionShape(deadCode: seq<string>)
    ensures var sec := DeadSection(deadCode);
      && |sec| == (if |deadCode| > 0 then |deadCode| + 1 else 0)
      && (forall a :: 0 <= a < |deadCode| ==> sec[a] == DeadRow(deadCode[a]))
      && (|deadCode| > 0 ==> sec[|deadCode|] == EndRow)
  {
  }

  /** The number of TOON rows: six per file, the two optional sections and the META row. */
  lemma ToonSize(files: map<string, FileNode>, order: seq<string>, circular: seq<seq<string>>,
                 deadCode: seq<string>, lastUpdated: string)
    requires forall k :: 0 <= k < |order| ==> order[k] in files
    ensures |ToonRows(files, order, circular, deadCode, lastUpdated)|
      == 6 * |order| + |CycleSection(circular)| + |DeadSection(deadCode)| + 1
    ensures |CycleSection(circular)| == (if |circular| > 0 then |circular| + 1 else 0)
    ensures |DeadSection(deadCode)| == (if |deadCode| > 0 then |deadCode| + 1 else 0)
  {
    CycleSectionShape(circular);
    DeadSectionShape(deadCode);
  }

  /** After the file records come the CIRCULAR rows, one per cycle, and "---" when there is at least one cycle. */
  lemma ToonCycles(files: map<string, FileNode>, order: seq<string>, circular: seq<seq<string>>,
                   deadCode: seq<string>, lastUpdated: string)
    requires forall k :: 0 <= k < |order| ==> order[k] in files
    ensures var rows := ToonRows(files, order, circular, deadCode, lastUpdated);
      && 6 * |order| + |CycleSection(circular)| < |rows|
      && (forall a :: 0 <= a < |circular| ==> rows[6 * |order| + a] == CircularRow(circular[a]))
      && (|circular| > 0 ==> rows[6 * |order| + |circular|] == EndRow)
  {
    var sec := CycleSection(circular);
    CycleSectionShape(circular);
    Sections(RecordRows(files, order), sec, DeadSection(deadCode), MetaRow(lastUpdated));
  }

  /** Then the DEADCODE rows, one per dead file, and "---" when there is at least one, just before the META row. */
  lemma ToonDead(files: map<string, FileNode>, order: seq<string>, circular: seq<seq<string>>,
                 deadCode: seq<string>, lastUpdated: string)
    requires forall k :: 0 <= k < |order| ==> order[k] in files
    ensures var rows := ToonRows(files, order, circular, deadCode, lastUpdated);
      var at := 6 * |order| + |CycleSection(circular)|;
      && at + |DeadSection(deadCode)| + 1 == |rows|
      && (forall a :: 0 <= a < |deadCode| ==> rows[at + a] == DeadRow(deadCode[a]))
      && (|deadCode| > 0 ==> rows[at + |deadCode|] == EndRow)
  {
    var sec := DeadSection(deadCode);
    DeadSectionShape(deadCode);
    Sections(RecordRows(files, order), CycleSection(circular), sec, MetaRow(lastUpdated));
  }

  /** The META row is the last row and no other row is one. */
  lemma MetaLast(files: map<string, FileNode>, order: seq<string>, circular: seq<seq<string>>,
                 deadCode: seq<string>, lastUpdated: string)
    requires forall k :: 0 <= k < |order| ==> order[k] in files
    ensures var rows := ToonRows(files, order, circular, deadCode, lastUpdated);
      rows[|rows| - 1] == MetaRow(lastUpdated) && forall i :: 0 <= i < |rows| - 1 ==> !rows[i].MetaRow?
  {
    var records := RecordRows(files, order);
    var cyc := CycleSection(circular);
    var dead := DeadSection(deadCode);
    var rows := ToonRows(files, order, circular, deadCode, lastUpdated);
    Sections(records, cyc, dead, MetaRow(lastUpdated));
    CycleSectionShape(circular);
    DeadSectionShape(deadCode);
    forall i | 0 <= i < |rows| - 1
      ensures !rows[i].MetaRow?
    {
      if i < |records| {
        assert rows[i] == rows[..|records|][i];
        RecordRowNotMeta(files, order, i);
      } else if i < |records| + |cyc| {
        assert rows[i] == cyc[i - |records|];
      } else {
        assert rows[i] == dead[i - |records| - |cyc|];
      }
    }
  }

  lemma RecordRowNotMeta(files: map<string, FileNode>, order: seq<string>, i: nat)
    requires forall k :: 0 <= k < |order| ==> order[k] in files
    requires i < |RecordRows(files, order)|
    ensures !RecordRows(files, order)[i].MetaRow?
  {
    var k := i / 6;
    RecordAt(files, order, k);
    var rows := RecordRows(files, order);
    assert rows[i] == rows[6 * k..6 * k + 6][i - 6 * k];
  }

  /** The IMPORTS and EXPORTS fields are empty exactly when the file has no imports or no exports. */
  lemma ListFieldsEmpty(node: FileNode)
    ensures Render(ImportsRow(node.imports)) == "IMPORTS:" <==> node.imports == []
    ensures Render(ExportsRow(node.exports)) == "EXPORTS:" <==> node.exports == []
    ensures node.importedBy == [] ==> Render(ImportedByRow(node.importedBy)) == "IMPORTEDBY:"
  {
    if node.imports != [] {
      JoinFirst(Map(ImportField, node.imports), ",");
    }
    if node.exports != [] {
      JoinFirst(Map(ExportField, node.exports), ",");
    }
  }

  lemma JoinFirst(parts: seq<string>, sep: string)
    requires |parts| >= 1
    ensures |Join(parts, sep)| >= |parts[0]|
  {
  }

  /** One IMPORTS entry is "path:line", which names the path and, for a line that fits Go's `int`, the line back. */
  lemma ImportFieldParts(imp: Import)
    ensures var f := ImportField(imp);
      HasPrefix(f, imp.path + ":") && (IsInt64(imp.line) ==> Atoi(f[|imp.path| + 1..]) == Some(imp.line))
  {
    var f := ImportField(imp);
    assert f[|imp.path| + 1..] == IntToString(imp.line);
    AtoiIntToString(imp.line);
  }

  /** The text lines: the rendered rows, when none of them holds a "\n"; the META line is the last. */
  lemma ToonLines(files: map<string, FileNode>, order: seq<string>, circular: seq<seq<string>>,
                  deadCode: seq<string>, lastUpdated: string)
    requires forall k :: 0 <= k < |order| ==> order[k] in files
    requires var rows := ToonRows(files, order, circular, deadCode, lastUpdated);
      forall i :: 0 <= i < |rows| ==> '\n' !in Render(rows[i])
    ensures var rows := ToonRows(files, order, circular, deadCode, lastUpdated);
      var lines := Split(Unlines(Map(Render, rows)), '\n');
      && |lines| == |rows| + 1 && lines[|lines| - 1] == ""
      && lines[|lines| - 2] == "META:lastUpdated=" + lastUpdated
      && (forall i :: 0 <= i < |lines| - 2 ==> !HasPrefix(lines[i], "META:"))
  {
    MetaLast(files, order, circular, deadCode, lastUpdated);
    RowLines(ToonRows(files, order, circular, deadCode, lastUpdated), lastUpdated);
  }

  /** The lines of rows that end with the only META row. */
  lemma RowLines(rows: seq<ToonRow>, lastUpdated: string)
    requires rows != [] && rows[|rows| - 1] == MetaRow(lastUpdated)
    requires forall i :: 0 <= i < |rows| - 1 ==> !rows[i].MetaRow?
    requires forall i :: 0 <= i < |rows| ==> '\n' !in Render(rows[i])
    ensures var lines := Split(Unlines(Map(Render, rows)), '\n');
      && |lines| == |rows| + 1 && lines[|lines| - 1] == ""
      && lines[|lines| - 2] == "META:lastUpdated=" + lastUpdated
      && (forall i :: 0 <= i < |lines| - 2 ==> !HasPrefix(lines[i], "META:"))
  {
    SplitUnlines(Map(Render, rows));
    forall i | 0 <= i < |rows| - 1
      ensures !HasPrefix(Render(rows[i]), "META:")
    {
      NotMeta(rows[i]);
    }
  }

  /** Only the META row starts with "META:". */
  lemma NotMeta(row: ToonRow)
    requires !row.MetaRow?
    ensures !HasPrefix(Render(row), "META:")
  {
    assert Render(row)[0] != 'M';
  }

  // ---------------------------------------------------------------------------
  // The language counts

  /** The languages of the files, in first-seen order: a sum over them counts every file once. */
  function SumCounts(counts: map<string, nat>, langs: seq<string>): nat
    requires forall i :: 0 <= i < |langs| ==> langs[i] in counts
  {
    if langs == [] then 0 else SumCounts(counts, langs[..|langs| - 1]) + counts[langs[|langs| - 1]]
  }

  /** The files whose language is one of `langs`. */
  ghost function LangFiles(files: map<string, FileNode>, langs: seq<string>): set<string> {
    set p | p in files && files[p].language in langs
  }

  /** Summing `|FilesOf|` over distinct languages counts the files that have one of them. */
  lemma {:induction false} SumFilesOf(files: map<string, FileNode>, counts: map<string, nat>, langs: seq<string>)
    requires Counted(files, files.Keys, counts)
    requires Distinct(langs) && forall i :: 0 <= i < |langs| ==> langs[i] in counts
    ensures SumCounts(counts, langs) == |LangFiles(files, langs)|
  {
    if langs != [] {
      var init := langs[..|langs| - 1];
      var last := langs[|langs| - 1];
      DistinctInit(langs);
      SumFilesOf(files, counts, init);
      LangFilesSnoc(files, init, last);
      assert langs == init + [last];
      assert counts[last] == |FilesOf(files, files.Keys, last)|;
    }
  }

  /** Dropping the last element keeps a sequence distinct, and the last element is not among the rest. */
  lemma DistinctInit(s: seq<string>)
    requires Distinct(s) && s != []
    ensures Distinct(s[..|s| - 1]) && s[|s| - 1] !in s[..|s| - 1]
  {
    var init := s[..|s| - 1];
    assert forall i :: 0 <= i < |init| ==> init[i] == s[i];
  }

  /** Adding a new language adds exactly its files, which were not counted before. */
  lemma LangFilesSnoc(files: map<string, FileNode>, init: seq<string>, last: string)
    requires last !in init
    ensures LangFiles(files, init + [last]) == LangFiles(files, init) + FilesOf(files, files.Keys, last)
    ensures LangFiles(files, init) !! FilesOf(files, files.Keys, last)
    ensures |LangFiles(files, init + [last])| == |LangFiles(files, init)| + |FilesOf(files, files.Keys, last)|
  {
    assert forall l :: l in init + [last] <==> l in init || l == last;
    assert LangFiles(files, init + [last]) == LangFiles(files, init) + FilesOf(files, files.Keys, last);
  }

  /** `PrintStats`: the per-language counts add up to the number of files. */
  lemma CountsSum(files: map<string, FileNode>, counts: map<string, nat>, langs: seq<string>)
    requires Counted(files, files.Keys, counts)
    requires Enumerates(langs, counts)
    ensures SumCounts(counts, langs) == |files|
  {
    SumFilesOf(files, counts, langs);
    var all := LangFiles(files, langs);
    forall p | p in files
      ensures p in all
    {
      var lang := files[p].language;
      assert p in FilesOf(files, files.Keys, lang);
    }
    assert all == files.Keys;
  }
}
