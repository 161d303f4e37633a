/**
  The continuation token (pkg/token): a record of where a reading session
  stopped, saved as a few `CONTINUE:<key>=<value>` lines and read back by a
  line scanner. The SHA-256 digest of the file content is an abstract function
  `digest`, the same at construction and at validation; the token file's text
  is an input (`None` when it cannot be opened).
*/
module Continuation {
  import opened Wrappers
  import opened GoStrings

  datatype Token = Token(
    file: string,
    offset: int,
    language: string,
    totalChunks: int,
    checksum: string,
    currentChunk: int,
    hasMore: bool)

  /** The zero value `&ContinuationToken{}` that `LoadFromFile` fills in. */
  const EmptyToken := Token("", 0, "", 0, "", 0, false)

  /** `NewContinuationToken`: the chunk just shown is `offset - 1`, and more follow while `offset < totalChunks`. */
  function NewContinuationToken(file: string, offset: int, language: string, totalChunks: int,
                                content: string, digest: string -> string): (t: Token)
    ensures t.currentChunk == offset - 1
    ensures t.hasMore <==> offset < totalChunks
    ensures t.checksum == digest(content)
    ensures t.file == file && t.offset == offset && t.language == language && t.totalChunks == totalChunks
  {
    Token(file, offset, language, totalChunks, digest(content), offset - 1, offset < totalChunks)
  }

  /** `ValidateChecksum`: passes exactly when the content's digest is the stored checksum. */
  function ValidateChecksum(t: Token, content: string, digest: string -> string): (r: Result<()>)
    ensures r.Ok? <==> digest(content) == t.checksum
    ensures r.Err? ==> r.msg == "file has been modified since token was created"
  {
    if digest(content) != t.checksum then Err("file has been modified since token was created") else Ok(())
  }

  /** A token accepts the very content it was made from, and rejects content with another digest. */
  lemma NewTokenValidates(file: string, offset: int, language: string, totalChunks: int,
                          content: string, other: string, digest: string -> string)
    ensures ValidateChecksum(NewContinuationToken(file, offset, language, totalChunks, content, digest), content, digest).Ok?
    ensures digest(other) != digest(content) ==>
      ValidateChecksum(NewContinuationToken(file, offset, language, totalChunks, content, digest), other, digest).Err?
  {
  }

  // ---------------------------------------------------------------------------
  // Saving

  const Prefix := "CONTINUE:"

  /** One saved field: `CONTINUE:<key>=<value>`. */
  function FieldLine(key: string, value: string): string {
    Prefix + key + "=" + value
  }

  function BoolText(b: bool): string {
    if b then "true" else "false"
  }

  /** The seven field lines in their fixed order, then the "---" terminator. */
  function SavedLines(t: Token): (lines: seq<string>)
    ensures |lines| == 8 && lines[7] == "---"
  {
    [FieldLine("file", t.file),
     FieldLine("offset", IntToString(t.offset)),
     FieldLine("language", t.language),
     FieldLine("totalChunks", IntToString(t.totalChunks)),
     FieldLine("checksum", t.checksum),
     FieldLine("currentChunk", IntToString(t.currentChunk)),
     FieldLine("hasMore", BoolText(t.hasMore)),
     "---"]
  }

  /** The text `SaveToFile` writes: every saved line ended by "\n". */
  function SavedText(t: Token): string {
    Unlines(SavedLines(t))
  }

  /** Writing one more newline-ended line extends the text by that line. */
  lemma UnlinesStep(lines: seq<string>, k: nat)
    requires 0 < k <= |lines|
    ensures Unlines(lines[..k]) == Unlines(lines[..k - 1]) + lines[k - 1] + "\n"
  {
    assert lines[..k] == lines[..k - 1] + [lines[k - 1]];
    UnlinesAppend(lines[..k - 1], [lines[k - 1]]);
    assert Unlines([lines[k - 1]]) == lines[k - 1] + "\n" + "";
  }

  /** The writes of `SaveToFile`, one `Fprintf` at a time, into the buffered writer's text. */
  method SaveToFile(t: Token) returns (written: string)
    ensures written == SavedText(t)
  {
    var lines := [FieldLine("file", t.file)];
    lines := lines + [FieldLine("offset", IntToString(t.offset))];
    lines := lines + [FieldLine("language", t.language)];
    lines := lines + [FieldLine("totalChunks", IntToString(t.totalChunks))];
    lines := lines + [FieldLine("checksum", t.checksum)];
    lines := lines + [FieldLine("currentChunk", IntToString(t.currentChunk))];
    if t.hasMore {
      lines := lines + [FieldLine("hasMore", "true")];
    } else {
      lines := lines + [FieldLine("hasMore", "false")];
    }
    lines := lines + ["---"];
    assert lines == SavedLines(t);
    written := Unlines(lines);
  }

  // ---------------------------------------------------------------------------
  // Scanning lines

  /** A line with one trailing "\r" removed, as `bufio.ScanLines` does. */
  function DropCR(line: string): string {
    if line != [] && line[|line| - 1] == '\r' then line[..|line| - 1] else line
  }

  /** `bufio.MaxScanTokenSize`: the longest line the default scanner buffers is one character shorter. */
  const MaxTokenSize := 65536

  /** What the line scanner delivers: the lines it yields, and whether it then stopped with an error. */
  datatype Scanned = Scanned(lines: seq<string>, failed: bool)

  /** A piece of the text between line breaks that does not fit the scanner's buffer. */
  predicate TooLong(piece: string) {
    |piece| >= MaxTokenSize
  }

  /**
    The lines `bufio.Scanner` yields with its default `ScanLines`: the text is
    split at "\n", a final empty piece (after a last "\n", or of empty text)
    yields no line, and one trailing "\r" is removed from each line. A piece of
    `MaxTokenSize` characters or more fills the buffer: the scanner yields the
    lines before it and stops with `ErrTooLong`.
  */
  function ScanLines(text: string): (r: Scanned)
    ensures forall i :: 0 <= i < |r.lines| ==> '\n' !in r.lines[i] && |r.lines[i]| < MaxTokenSize
    ensures r.failed <==> exists i :: 0 <= i < |Split(text, '\n')| && TooLong(Split(text, '\n')[i])
  {
    var parts := Split(text, '\n');
    var kept := if parts[|parts| - 1] == "" then parts[..|parts| - 1] else parts;
    var r := ScanPieces(kept);
    forall i | 0 <= i < |parts| && TooLong(parts[i]) ensures i < |kept| && TooLong(kept[i]) {
    }
    forall i | 0 <= i < |kept| && TooLong(kept[i]) ensures TooLong(parts[i]) {
    }
    r
  }

  /** The lines made of the pieces that end in "\n" (and a last one that does not), up to the first piece that is too long. */
  function ScanPieces(parts: seq<string>): (r: Scanned)
    ensures |r.lines| <= |parts|
    ensures forall i :: 0 <= i < |r.lines| ==> r.lines[i] == DropCR(parts[i]) && !TooLong(parts[i])
    ensures r.failed <==> exists i :: 0 <= i < |parts| && TooLong(parts[i])
    ensures r.failed ==> TooLong(parts[|r.lines|])
    ensures !r.failed ==> |r.lines| == |parts|
  {
    if parts == [] then Scanned([], false)
    else if TooLong(parts[0]) then Scanned([], true)
    else
      var rest := ScanPieces(parts[1..]);
      assert forall i :: 1 <= i < |parts| ==> parts[i] == parts[1..][i - 1];
      assert rest.failed ==> TooLong(parts[1..][|rest.lines|]);
      Scanned([DropCR(parts[0])] + rest.lines, rest.failed)
  }

  /** Newline-ended lines free of "\r" and "\n", each shorter than `MaxTokenSize`, scan back to themselves without error. */
  lemma ScanUnlines(lines: seq<string>)
    requires forall i :: 0 <= i < |lines| ==> NoBreak(lines[i])
    requires forall i :: 0 <= i < |lines| ==> !TooLong(lines[i])
    ensures ScanLines(Unlines(lines)) == Scanned(lines, false)
  {
    forall i | 0 <= i < |lines| ensures '\n' !in lines[i] {
      NoBreakNotIn(lines[i]);
    }
    SplitUnlines(lines);
    assert (lines + [""])[..|lines|] == lines;
    ScanPiecesOfLines(lines);
  }

  lemma ScanPiecesOfLines(lines: seq<string>)
    requires forall i :: 0 <= i < |lines| ==> NoBreak(lines[i])
    requires forall i :: 0 <= i < |lines| ==> !TooLong(lines[i])
    ensures ScanPieces(lines) == Scanned(lines, false)
  {
    var scanned := ScanPieces(lines);
    forall i | 0 <= i < |lines| ensures scanned.lines[i] == lines[i] {
      KeepsLineWithoutCR(lines[i]);
    }
  }

  lemma KeepsLineWithoutCR(line: string)
    requires NoBreak(line)
    ensures DropCR(line) == line
  {
  }

  lemma NoBreakNotIn(s: string)
    requires NoBreak(s)
    ensures '\n' !in s && '\r' !in s
  {
  }

  // ---------------------------------------------------------------------------
  // Loading

  /** The key and value of a `CONTINUE:` line, split at its first "="; `None` for a line that is skipped. */
  function LineField(line: string): (r: Option<(string, string)>)
    ensures r.Some? ==> HasPrefix(line, Prefix) && '=' in line
    ensures r.Some? ==> line == Prefix + r.value.0 + "=" + r.value.1 && '=' !in r.value.0
  {
    if !HasPrefix(line, Prefix) then None
    else match IndexOf(line, '=')
      case None => None
      case Some(j) =>
        assert j >= |Prefix| by {
          assert line[..|Prefix|] == Prefix;
        }
        var key := TrimPrefix(line[..j], Prefix);
        assert line[..j][..|Prefix|] == Prefix;
        assert line[..j] == Prefix + key;
        assert line == line[..j] + "=" + line[j + 1..];
        Some((key, line[j + 1..]))
  }

  /** A saved field line reads back as its key and its whole value, even when the value contains "=". */
  lemma LineFieldOfFieldLine(key: string, value: string)
    requires '=' !in key
    ensures LineField(FieldLine(key, value)) == Some((key, value))
  {
    var line := FieldLine(key, value);
    assert line[..|Prefix|] == Prefix;
    var r := LineField(line);
    assert '=' in line by {
      assert line[|Prefix| + |key|] == '=';
    }
    assert r.Some?;
    var k := r.value.0;
    assert Prefix + k + "=" + r.value.1 == Prefix + key + "=" + value;
    assert |k| == |key|;
    assert line[..|Prefix| + |k|] == Prefix + k;
    assert line[..|Prefix| + |key|] == Prefix + key;
    assert (Prefix + k + "=" + r.value.1)[|Prefix| + |k| + 1..] == r.value.1;
    assert (Prefix + key + "=" + value)[|Prefix| + |key| + 1..] == value;
  }

  /** The key switch of `LoadFromFile`: the three integer fields fail on a value `Atoi` rejects; unknown keys change nothing. */
  function ApplyField(t: Token, key: string, value: string): (r: Result<Token>)
    ensures r.Err? <==> (key == "offset" || key == "totalChunks" || key == "currentChunk") && Atoi(value).None?
  {
    if key == "file" then Ok(t.(file := value))
    else if key == "offset" then
      match Atoi(value)
      case None => Err("invalid offset value")
      case Some(n) => Ok(t.(offset := n))
    else if key == "language" then Ok(t.(language := value))
    else if key == "totalChunks" then
      match Atoi(value)
      case None => Err("invalid totalChunks value")
      case Some(n) => Ok(t.(totalChunks := n))
    else if key == "checksum" then Ok(t.(checksum := value))
    else if key == "currentChunk" then
      match Atoi(value)
      case None => Err("invalid currentChunk value")
      case Some(n) => Ok(t.(currentChunk := n))
    else if key == "hasMore" then Ok(t.(hasMore := value == "true"))
    else Ok(t)
  }

  /**
    The scanner loop of `LoadFromFile`, from the given lines on, starting from
    token `t`; `readErr` says whether the scanner stopped with an error after
    these lines, which `scanner.Err()` reports once the loop runs out of lines.
  */
  function ParseLines(lines: seq<string>, t: Token, readErr: bool): Result<Token> {
    if lines == [] then (if readErr then Err("error reading token file") else Ok(t))
    else if lines[0] == "---" then Ok(t)
    else match LineField(lines[0])
      case None => ParseLines(lines[1..], t, readErr)
      case Some(kv) =>
        match ApplyField(t, kv.0, kv.1)
        case Err(msg) => Err(msg)
        case Ok(next) => ParseLines(lines[1..], next, readErr)
  }

  /** `LoadFromFile` on the token file's text (`None` when it cannot be opened). */
  function Load(file: Option<string>): (r: Result<Token>)
    ensures file.None? ==> r == Err("failed to open token file")
    ensures r.Ok? ==> r.value.file != ""
  {
    match file
    case None => Err("failed to open token file")
    case Some(text) =>
      var scanned := ScanLines(text);
      match ParseLines(scanned.lines, EmptyToken, scanned.failed)
      case Err(msg) => Err(msg)
      case Ok(t) => if t.file == "" then Err("invalid token file: missing file path") else Ok(t)
  }

  /** `LoadFromFile`: open the file, run the scanner loop, and insist on a file path. */
  method LoadFromFile(file: Option<string>) returns (r: Result<Token>)
    ensures r == Load(file)
  {
    if file.None? {
      return Err("failed to open token file");
    }
    var scanned := ScanLines(file.value);
    var read := ScanLoop(scanned.lines, scanned.failed);
    if read.Err? {
      return Err(read.msg);
    }
    var token := read.value;
    if token.file == "" {
      return Err("invalid token file: missing file path");
    }
    return Ok(token);
  }

  /** The scanner loop of `LoadFromFile`, updating the token field by field. */
  method ScanLoop(lines: seq<string>, readErr: bool) returns (r: Result<Token>)
    ensures r == ParseLines(lines, EmptyToken, readErr)
  {
    var token := EmptyToken;
    var i := 0;
    while i < |lines|
      invariant 0 <= i <= |lines|
      invariant ParseLines(lines[i..], token, readErr) == ParseLines(lines, EmptyToken, readErr)
    {
      var line := lines[i];
      assert lines[i..][1..] == lines[i + 1..];
      if line == "---" {
        break;
      }
      if !HasPrefix(line, Prefix) {
        assert LineField(line).None?;
        i := i + 1;
        continue;
      }
      var eq := IndexOf(line, '=');
      if eq.None? {
        assert LineField(line).None?;
        i := i + 1;
        continue;
      }
      var key := TrimPrefix(line[..eq.value], Prefix);
      var value := line[eq.value + 1..];
      assert LineField(line) == Some((key, value));
      var applied := ApplyField(token, key, value);
      if applied.Err? {
        return Err(applied.msg);
      }
      token := applied.value;
      i := i + 1;
    }
    if i == |lines| {
      assert lines[i..] == [];
      if readErr {
        return Err("error reading token file");
      }
    }
    return Ok(token);
  }

  // ---------------------------------------------------------------------------
  // Properties of the format

  /**
    Fields that can be saved and read back: a file path; no line break inside
    a text field, and each text field's line short enough for the scanner's
    buffer; integers that fit Go's `int`.
  */
  predicate Saveable(t: Token) {
    && t.file != ""
    && '\n' !in t.file && '\r' !in t.file
    && '\n' !in t.language && '\r' !in t.language
    && '\n' !in t.checksum && '\r' !in t.checksum
    && |FieldLine("file", t.file)| < MaxTokenSize
    && |FieldLine("language", t.language)| < MaxTokenSize
    && |FieldLine("checksum", t.checksum)| < MaxTokenSize
    && IsInt64(t.offset) && IsInt64(t.totalChunks) && IsInt64(t.currentChunk)
  }

  /** No line break in `s`. */
  predicate NoBreak(s: string) {
    forall k :: 0 <= k < |s| ==> s[k] != '\n' && s[k] != '\r'
  }

  lemma IntToStringNoBreak(i: int)
    ensures NoBreak(IntToString(i))
  {
  }

  lemma FieldLineNoBreak(key: string, value: string)
    requires NoBreak(key) && NoBreak(value)
    ensures NoBreak(FieldLine(key, value))
  {
    var line := FieldLine(key, value);
    forall k | 0 <= k < |line| ensures line[k] != '\n' && line[k] != '\r' {
      if k < |Prefix| {
        assert line[k] == Prefix[k];
      } else if k < |Prefix| + |key| {
        assert line[k] == key[k - |Prefix|];
      } else if k == |Prefix| + |key| {
        assert line[k] == '=';
      } else {
        assert line[k] == value[k - |Prefix| - |key| - 1];
      }
    }
  }

  /** The saved text scans into exactly the seven field lines and the terminator. */
  lemma ScanSavedText(t: Token)
    requires Saveable(t)
    ensures ScanLines(SavedText(t)) == Scanned(SavedLines(t), false)
  {
    SavedLinesNoBreak(t);
    SavedLinesShort(t);
    ScanUnlines(SavedLines(t));
  }

  lemma SavedLinesNoBreak(t: Token)
    requires '\n' !in t.file && '\r' !in t.file
    requires '\n' !in t.language && '\r' !in t.language
    requires '\n' !in t.checksum && '\r' !in t.checksum
    ensures forall i :: 0 <= i < |SavedLines(t)| ==> NoBreak(SavedLines(t)[i])
  {
    FieldLineNoBreak("file", t.file);
    IntToStringNoBreak(t.offset);
    FieldLineNoBreak("offset", IntToString(t.offset));
    FieldLineNoBreak("language", t.language);
    IntToStringNoBreak(t.totalChunks);
    FieldLineNoBreak("totalChunks", IntToString(t.totalChunks));
    FieldLineNoBreak("checksum", t.checksum);
    IntToStringNoBreak(t.currentChunk);
    FieldLineNoBreak("currentChunk", IntToString(t.currentChunk));
    FieldLineNoBreak("hasMore", BoolText(t.hasMore));
  }

  /** Every saved line of a saveable token fits the scanner's buffer. */
  lemma SavedLinesShort(t: Token)
    requires Saveable(t)
    ensures forall i :: 0 <= i < |SavedLines(t)| ==> !TooLong(SavedLines(t)[i])
  {
    IntToStringShort(t.offset);
    IntToStringShort(t.totalChunks);
    IntToStringShort(t.currentChunk);
  }

  /** A field line is never the terminator. */
  lemma FieldLineNotTerminator(key: string, value: string)
    ensures FieldLine(key, value) != "---"
  {
    assert FieldLine(key, value)[0] == 'C';
  }

  /** Reading one saved field line applies that field. */
  lemma ParseFieldLine(key: string, value: string, rest: seq<string>, t: Token, readErr: bool)
    requires '=' !in key
    ensures var applied := ApplyField(t, key, value);
            ParseLines([FieldLine(key, value)] + rest, t, readErr) ==
              if applied.Err? then Err(applied.msg) else ParseLines(rest, applied.value, readErr)
  {
    FieldLineNotTerminator(key, value);
    LineFieldOfFieldLine(key, value);
    assert ([FieldLine(key, value)] + rest)[1..] == rest;
  }

  /** Reading the field line at position `k` applies that field to the token read so far. */
  lemma ParseFieldAt(ls: seq<string>, k: nat, key: string, value: string, t: Token, readErr: bool)
    requires k < |ls| && ls[k] == FieldLine(key, value) && '=' !in key
    ensures var applied := ApplyField(t, key, value);
            ParseLines(ls[k..], t, readErr) == if applied.Err? then Err(applied.msg) else ParseLines(ls[k + 1..], applied.value, readErr)
  {
    assert ls[k..] == [FieldLine(key, value)] + ls[k + 1..];
    ParseFieldLine(key, value, ls[k + 1..], t, readErr);
  }

  /** Reading an integer field line whose value `Atoi` accepts sets that field. */
  lemma ParseIntFieldAt(ls: seq<string>, k: nat, key: string, value: string, n: int, t: Token, readErr: bool)
    requires k < |ls| && ls[k] == FieldLine(key, value) && Atoi(value) == Some(n)
    requires key == "offset" || key == "totalChunks" || key == "currentChunk"
    ensures ParseLines(ls[k..], t, readErr) == ParseLines(ls[k + 1..],
              if key == "offset" then t.(offset := n)
              else if key == "totalChunks" then t.(totalChunks := n)
              else t.(currentChunk := n), readErr)
  {
    ParseFieldAt(ls, k, key, value, t, readErr);
  }

  /** Reading saved line 0 sets file. */
  lemma ParseSavedFile(t: Token, from: Token)
    ensures ParseLines(SavedLines(t)[0..], from, false) == ParseLines(SavedLines(t)[1..], from.(file := t.file), false)
  {
    ParseFieldAt(SavedLines(t), 0, "file", t.file, from, false);
  }

  /** Reading saved line 1 sets offset. */
  lemma ParseSavedOffset(t: Token, from: Token)
    requires IsInt64(t.offset)
    ensures ParseLines(SavedLines(t)[1..], from, false) == ParseLines(SavedLines(t)[2..], from.(offset := t.offset), false)
  {
    AtoiIntToString(t.offset);
    ParseIntFieldAt(SavedLines(t), 1, "offset", IntToString(t.offset), t.offset, from, false);
  }

  /** Reading saved line 2 sets language. */
  lemma ParseSavedLanguage(t: Token, from: Token)
    ensures ParseLines(SavedLines(t)[2..], from, false) == ParseLines(SavedLines(t)[3..], from.(language := t.language), false)
  {
    ParseFieldAt(SavedLines(t), 2, "language", t.language, from, false);
  }

  /** Reading saved line 3 sets totalChunks. */
  lemma ParseSavedTotalChunks(t: Token, from: Token)
    requires IsInt64(t.totalChunks)
    ensures ParseLines(SavedLines(t)[3..], from, false) == ParseLines(SavedLines(t)[4..], from.(totalChunks := t.totalChunks), false)
  {
    AtoiIntToString(t.totalChunks);
    ParseIntFieldAt(SavedLines(t), 3, "totalChunks", IntToString(t.totalChunks), t.totalChunks, from, false);
  }

  /** Reading saved line 4 sets checksum. */
  lemma ParseSavedChecksum(t: Token, from: Token)
    ensures ParseLines(SavedLines(t)[4..], from, false) == ParseLines(SavedLines(t)[5..], from.(checksum := t.checksum), false)
  {
    ParseFieldAt(SavedLines(t), 4, "checksum", t.checksum, from, false);
  }

  /** Reading saved line 5 sets currentChunk. */
  lemma ParseSavedCurrentChunk(t: Token, from: Token)
    requires IsInt64(t.currentChunk)
    ensures ParseLines(SavedLines(t)[5..], from, false) == ParseLines(SavedLines(t)[6..], from.(currentChunk := t.currentChunk), false)
  {
    AtoiIntToString(t.currentChunk);
    ParseIntFieldAt(SavedLines(t), 5, "currentChunk", IntToString(t.currentChunk), t.currentChunk, from, false);
  }

  /** Reading saved line 6 sets hasMore. */
  lemma ParseSavedHasMore(t: Token, from: Token)
    ensures ParseLines(SavedLines(t)[6..], from, false) == ParseLines(SavedLines(t)[7..], from.(hasMore := t.hasMore), false)
  {
    ParseFieldAt(SavedLines(t), 6, "hasMore", BoolText(t.hasMore), from, false);
  }

  /** Reading the saved lines from the empty token fills in every field, and the terminator ends the read. */
  lemma ParseSavedLines(t: Token)
    requires IsInt64(t.offset) && IsInt64(t.totalChunks) && IsInt64(t.currentChunk)
    ensures ParseLines(SavedLines(t), EmptyToken, false) == Ok(t)
  {
    var ls := SavedLines(t);
    assert ls[0..] == ls;
    var t1 := EmptyToken.(file := t.file);
    ParseSavedFile(t, EmptyToken);
    var t2 := t1.(offset := t.offset);
    ParseSavedOffset(t, t1);
    var t3 := t2.(language := t.language);
    ParseSavedLanguage(t, t2);
    var t4 := t3.(totalChunks := t.totalChunks);
    ParseSavedTotalChunks(t, t3);
    var t5 := t4.(checksum := t.checksum);
    ParseSavedChecksum(t, t4);
    var t6 := t5.(currentChunk := t.currentChunk);
    ParseSavedCurrentChunk(t, t5);
    ParseSavedHasMore(t, t6);
    assert ls[7..][0] == "---";
  }

  /** Saving and then loading gives back the same token. */
  lemma RoundTrip(t: Token)
    requires Saveable(t)
    ensures Load(Some(SavedText(t))) == Ok(t)
  {
    ScanSavedText(t);
    ParseSavedLines(t);
  }

  /** A token made by `NewContinuationToken`, saved and loaded again, still accepts the content it was made from. */
  lemma SavedTokenValidates(file: string, offset: int, language: string, totalChunks: int,
                            content: string, digest: string -> string)
    requires file != "" && '\n' !in file && '\r' !in file && '\n' !in language && '\r' !in language
    requires '\n' !in digest(content) && '\r' !in digest(content)
    requires |FieldLine("file", file)| < MaxTokenSize && |FieldLine("language", language)| < MaxTokenSize
    requires |FieldLine("checksum", digest(content))| < MaxTokenSize
    requires MinInt64 < offset <= MaxInt64 && IsInt64(totalChunks)
    ensures var t := NewContinuationToken(file, offset, language, totalChunks, content, digest);
            Load(Some(SavedText(t))).Ok? && ValidateChecksum(Load(Some(SavedText(t))).value, content, digest).Ok?
  {
    RoundTrip(NewContinuationToken(file, offset, language, totalChunks, content, digest));
  }

  /** Reading stops at the first "---" line: whatever follows it is ignored, and so is a scanner error after it. */
  lemma {:induction false} StopsAtTerminator(before: seq<string>, after: seq<string>, t: Token, readErr: bool)
    ensures ParseLines(before + ["---"] + after, t, readErr) == ParseLines(before + ["---"], t, false)
  {
    var all := before + ["---"] + after;
    if before == [] {
      assert all[0] == "---";
      assert (before + ["---"])[0] == "---";
    } else {
      assert all[0] == before[0];
      assert all[1..] == before[1..] + ["---"] + after;
      assert (before + ["---"])[0] == before[0];
      assert (before + ["---"])[1..] == before[1..] + ["---"];
      if before[0] != "---" {
        match LineField(before[0])
        case None =>
          StopsAtTerminator(before[1..], after, t, readErr);
        case Some(kv) =>
          match ApplyField(t, kv.0, kv.1)
          case Err(_) =>
          case Ok(next) => StopsAtTerminator(before[1..], after, next, readErr);
      }
    }
  }

  /** Running out of lines without meeting "---" after the scanner failed ends the load with the read error. */
  lemma {:induction false} ReadErrorFails(lines: seq<string>, t: Token)
    requires forall i :: 0 <= i < |lines| ==> lines[i] != "---"
    requires ParseLines(lines, t, false).Ok?
    ensures ParseLines(lines, t, true) == Err("error reading token file")
  {
    if lines != [] {
      match LineField(lines[0])
      case None =>
        ReadErrorFails(lines[1..], t);
      case Some(kv) =>
        ReadErrorFails(lines[1..], ApplyField(t, kv.0, kv.1).value);
    }
  }

  /** A saved token whose file path is too long for the scanner's buffer does not load, though its other fields are fine. */
  lemma LongPathFails(t: Token)
    requires '\n' !in t.file && '\r' !in t.file
    requires '\n' !in t.language && '\r' !in t.language
    requires '\n' !in t.checksum && '\r' !in t.checksum
    requires TooLong(FieldLine("file", t.file))
    ensures Load(Some(SavedText(t))) == Err("error reading token file")
  {
    var lines := SavedLines(t);
    SavedLinesNoBreak(t);
    forall i | 0 <= i < |lines| ensures '\n' !in lines[i] {
      NoBreakNotIn(lines[i]);
    }
    SplitUnlines(lines);
    assert Split(SavedText(t), '\n')[0] == lines[0];
    var scanned := ScanLines(SavedText(t));
    assert scanned.failed;
    assert scanned.lines == [];
  }

  /** A saved token whose offset does not fit Go's `int` does not load: the offset line fails `Atoi`. */
  lemma OffsetOutOfRangeFails(t: Token)
    requires Saveable(t.(offset := 0))
    requires !IsInt64(t.offset) && !TooLong(FieldLine("offset", IntToString(t.offset)))
    ensures Load(Some(SavedText(t))) == Err("invalid offset value")
  {
    ScanOutOfRange(t);
    ParseOutOfRange(t);
  }

  /** The saved text of such a token scans into its saved lines. */
  lemma ScanOutOfRange(t: Token)
    requires Saveable(t.(offset := 0))
    requires !TooLong(FieldLine("offset", IntToString(t.offset)))
    ensures ScanLines(SavedText(t)) == Scanned(SavedLines(t), false)
  {
    var lines := SavedLines(t);
    SavedLinesNoBreak(t);
    IntToStringShort(t.totalChunks);
    IntToStringShort(t.currentChunk);
    assert forall i :: 0 <= i < |lines| ==> !TooLong(lines[i]);
    ScanUnlines(lines);
  }

  /** Its saved lines stop at the offset line. */
  lemma ParseOutOfRange(t: Token)
    requires !IsInt64(t.offset)
    ensures ParseLines(SavedLines(t), EmptyToken, false) == Err("invalid offset value")
  {
    var lines := SavedLines(t);
    assert lines[0..] == lines;
    ParseSavedFile(t, EmptyToken);
    AtoiIntToString(t.offset);
    ParseFieldAt(lines, 1, "offset", IntToString(t.offset), EmptyToken.(file := t.file), false);
  }

  /** A line without the "CONTINUE:" prefix, a prefixed line without "=", and an unknown key are all skipped. */
  lemma SkippedLines(line: string, rest: seq<string>, t: Token, readErr: bool)
    requires line != "---"
    requires || !HasPrefix(line, Prefix)
             || '=' !in line
             || (LineField(line).Some? && LineField(line).value.0 !in
                   {"file", "offset", "language", "totalChunks", "checksum", "currentChunk", "hasMore"})
    ensures ParseLines([line] + rest, t, readErr) == ParseLines(rest, t, readErr)
  {
    assert ([line] + rest)[1..] == rest;
  }

  /** A repeated key overwrites: after a second line with the same key, the first value is gone. */
  lemma RepeatedKeyOverwrites(t: Token, key: string, first: string, second: string)
    requires ApplyField(t, key, first).Ok?
    ensures ApplyField(ApplyField(t, key, first).value, key, second) == ApplyField(t, key, second)
  {
  }

  /** `hasMore` is true exactly when its value is the text "true". */
  lemma HasMoreOnlyTrue(t: Token, value: string)
    ensures ApplyField(t, "hasMore", value).Ok?
    ensures ApplyField(t, "hasMore", value).value.hasMore <==> value == "true"
  {
  }

  /**
    A field line for an integer field whose value is not an integer, or an
    integer outside Go's `int`, ends the load with an error.
  */
  lemma BadIntegerFails(key: string, value: string, rest: seq<string>, t: Token, readErr: bool)
    requires key == "offset" || key == "totalChunks" || key == "currentChunk"
    requires Decimal(value).None? || !IsInt64(Decimal(value).value)
    ensures ParseLines([FieldLine(key, value)] + rest, t, readErr).Err?
  {
    ParseFieldLine(key, value, rest, t, readErr);
  }

  /** A token file without a file field, or with an empty one, does not load. */
  lemma MissingFileFails(text: string)
    requires ParseLines(ScanLines(text).lines, EmptyToken, ScanLines(text).failed).Ok?
    requires ParseLines(ScanLines(text).lines, EmptyToken, ScanLines(text).failed).value.file == ""
    ensures Load(Some(text)) == Err("invalid token file: missing file path")
  {
  }
}
