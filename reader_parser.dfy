/**
  Language selection of the progressive reader (pkg/parser): the file
  extension decides the language, and only four languages have a grammar.
*/
module ReaderParser {
  import opened Wrappers
  import opened GoStrings

  /** The languages for which the reader has a tree-sitter grammar. */
  const Supported: set<string> := {"typescript", "javascript", "python", "go"}

  /** The extensions `DetectLanguage` recognises, lower case. */
  const KnownExtensions: set<string> := {".ts", ".tsx", ".js", ".jsx", ".py", ".go"}

  /** `DetectLanguage`: the language of the lower-cased extension. */
  function DetectLanguage(filePath: string): (lang: string)
    ensures lang in Supported || lang == "text"
    ensures lang == "text" <==> ToLower(Ext(filePath)) !in KnownExtensions
  {
    LanguageOfExtension(ToLower(Ext(filePath)))
  }

  /** The switch of `DetectLanguage`. */
  function LanguageOfExtension(ext: string): (lang: string)
    ensures lang in Supported || lang == "text"
    ensures lang == "text" <==> ext !in KnownExtensions
  {
    if ext == ".ts" || ext == ".tsx" then "typescript"
    else if ext == ".js" || ext == ".jsx" then "javascript"
    else if ext == ".py" then "python"
    else if ext == ".go" then "go"
    else "text"
  }

  /** The tree-sitter parser and grammar objects are left out; the language name is what the reader uses. */
  datatype Parser = Parser(langName: string) {
    /** `GetLanguage`: the language chosen at construction. */
    function GetLanguage(): string { langName }
  }

  /** `NewParser`: fails exactly for a language without a grammar. */
  function NewParser(filePath: string): (r: Result<Parser>)
    ensures r.Ok? <==> ToLower(Ext(filePath)) in KnownExtensions
    ensures r.Ok? ==> r.value.GetLanguage() == DetectLanguage(filePath) && r.value.GetLanguage() in Supported
    ensures r.Err? ==> r.msg == "unsupported language: " + DetectLanguage(filePath)
  {
    var lang := DetectLanguage(filePath);
    if lang in Supported then Ok(Parser(lang)) else Err("unsupported language: " + lang)
  }

  lemma {:induction false} ToLowerIdempotent(s: string)
    ensures ToLower(ToLower(s)) == ToLower(s)
  {
    assert forall i :: 0 <= i < |s| ==> LowerChar(LowerChar(s[i])) == LowerChar(s[i]);
  }

  /** The extension is lower-cased before matching, so the case of the path does not matter. */
  lemma DetectLanguageIgnoresCase(filePath: string)
    ensures DetectLanguage(ToLower(filePath)) == DetectLanguage(filePath)
  {
    var e := Ext(filePath);
    ExtToLower(filePath);
    ToLowerIdempotent(e);
    assert ToLower(Ext(ToLower(filePath))) == ToLower(e);
    assert DetectLanguage(ToLower(filePath)) == LanguageOfExtension(ToLower(e));
  }

  /** A path without any '.' has no extension and reads as plain text. */
  lemma NoExtensionIsText(filePath: string)
    requires '.' !in filePath
    ensures DetectLanguage(filePath) == "text"
    ensures NewParser(filePath).Err?
  {
  }
}
