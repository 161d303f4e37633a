/**
  The pieces of Go's `strings`, `strconv`, `fmt` and `path/filepath` packages
  that the two tools rely on, over Dafny strings (one `char` per code point).
*/
module GoStrings {
  import opened Wrappers

  // ---------------------------------------------------------------------------
  // Prefixes, searching

  predicate HasPrefix(s: string, p: string) {
    |p| <= |s| && s[..|p|] == p
  }

  function TrimPrefix(s: string, p: string): (r: string)
    ensures HasPrefix(s, p) ==> s == p + r
    ensures !HasPrefix(s, p) ==> r == s
  {
    if HasPrefix(s, p) then s[|p|..] else s
  }

  /** Index of the first occurrence of `c` in `s`, if any. */
  function IndexOf(s: string, c: char): (r: Option<nat>)
    ensures r.None? <==> c !in s
    ensures r.Some? ==> r.value < |s| && s[r.value] == c && c !in s[..r.value]
  {
    if s == [] then None
    else if s[0] == c then Some(0)
    else
      match IndexOf(s[1..], c)
      case None => None
      case Some(i) => assert s[1..][..i] == s[1..i + 1]; Some(i + 1)
  }

  // ---------------------------------------------------------------------------
  // Split and Join

  /** `strings.Split(s, string(sep))`: always at least one part, and no part holds `sep`. */
  function Split(s: string, sep: char): (parts: seq<string>)
    ensures |parts| >= 1
    ensures forall i :: 0 <= i < |parts| ==> sep !in parts[i]
  {
    if s == [] then [""]
    else
      var rest := Split(s[1..], sep);
      if s[0] == sep then [""] + rest
      else [[s[0]] + rest[0]] + rest[1..]
  }

  /** `strings.Join(parts, sep)`. */
  function Join(parts: seq<string>, sep: string): string {
    if |parts| == 0 then ""
    else if |parts| == 1 then parts[0]
    else parts[0] + sep + Join(parts[1..], sep)
  }

  /** Splitting and joining again with the same separator gives back the text. */
  lemma {:induction false} JoinSplit(s: string, sep: char)
    ensures Join(Split(s, sep), [sep]) == s
  {
    if s != [] {
      var rest := Split(s[1..], sep);
      JoinSplit(s[1..], sep);
      if s[0] == sep {
        assert Split(s, sep) == [""] + rest;
        assert Join([""] + rest, [sep]) == "" + [sep] + Join(rest, [sep]) by {
          assert ([""] + rest)[1..] == rest;
        }
      } else {
        var parts := [[s[0]] + rest[0]] + rest[1..];
        assert Split(s, sep) == parts;
        if |rest| == 1 {
          assert Join(parts, [sep]) == [s[0]] + rest[0];
        } else {
          assert parts[1..] == rest[1..];
          assert Join(rest, [sep]) == rest[0] + [sep] + Join(rest[1..], [sep]);
          assert Join(parts, [sep]) == [s[0]] + rest[0] + [sep] + Join(rest[1..], [sep]);
        }
      }
    }
  }

  lemma {:induction false} SplitNoSep(p: string, sep: char)
    requires sep !in p
    ensures Split(p, sep) == [p]
  {
    if p != [] {
      SplitNoSep(p[1..], sep);
      assert [p[0]] + p[1..] == p;
    }
  }

  lemma {:induction false} SplitPrefix(p: string, t: string, sep: char)
    requires sep !in p
    ensures Split(p + t, sep) == [p + Split(t, sep)[0]] + Split(t, sep)[1..]
  {
    if p != [] {
      assert (p + t)[1..] == p[1..] + t;
      SplitPrefix(p[1..], t, sep);
      assert [p[0]] + (p[1..] + Split(t, sep)[0]) == p + Split(t, sep)[0];
    } else {
      var st := Split(t, sep);
      assert p + t == t && p + st[0] == st[0];
      assert [st[0]] + st[1..] == st;
    }
  }

  /** Joining parts that do not contain the separator and splitting again gives back the parts. */
  lemma {:induction false} SplitJoin(parts: seq<string>, sep: char)
    requires |parts| >= 1
    requires forall i :: 0 <= i < |parts| ==> sep !in parts[i]
    ensures Split(Join(parts, [sep]), sep) == parts
  {
    if |parts| == 1 {
      SplitNoSep(parts[0], sep);
    } else {
      var tail := Join(parts[1..], [sep]);
      SplitJoin(parts[1..], sep);
      assert Join(parts, [sep]) == parts[0] + ([sep] + tail);
      SplitPrefix(parts[0], [sep] + tail, sep);
      assert ([sep] + tail)[1..] == tail;
      assert Split([sep] + tail, sep) == [""] + parts[1..];
      assert parts[0] + "" == parts[0];
      assert [parts[0]] + parts[1..] == parts;
    }
  }

  /** Lines each ended by "\n", as a run of `Fprintf(w, "...\n")` calls writes them. */
  function Unlines(lines: seq<string>): (text: string)
    ensures lines == [] <==> text == []
  {
    if lines == [] then "" else lines[0] + "\n" + Unlines(lines[1..])
  }

  /** Newline-ended lines split at "\n" give the lines back, followed by one empty piece. */
  lemma {:induction false} SplitUnlines(lines: seq<string>)
    requires forall i :: 0 <= i < |lines| ==> '\n' !in lines[i]
    ensures Split(Unlines(lines), '\n') == lines + [""]
  {
    if lines != [] {
      var tail := Unlines(lines[1..]);
      SplitUnlines(lines[1..]);
      assert Unlines(lines) == lines[0] + ("\n" + tail);
      SplitPrefix(lines[0], "\n" + tail, '\n');
      assert ("\n" + tail)[1..] == tail;
      assert Split("\n" + tail, '\n') == [""] + (lines[1..] + [""]);
      assert lines[0] + "" == lines[0];
      assert [lines[0]] + (lines[1..] + [""]) == lines + [""];
    }
  }

  lemma {:induction false} UnlinesAppend(a: seq<string>, b: seq<string>)
    ensures Unlines(a + b) == Unlines(a) + Unlines(b)
  {
    if a != [] {
      assert (a + b)[1..] == a[1..] + b;
      UnlinesAppend(a[1..], b);
    } else {
      assert a + b == b;
    }
  }

  /** Joining two non-empty runs of parts is joining their concatenation. */
  lemma {:induction false} JoinAppend(a: seq<string>, b: seq<string>, sep: string)
    requires |a| >= 1 && |b| >= 1
    ensures Join(a + b, sep) == Join(a, sep) + sep + Join(b, sep)
  {
    if |a| == 1 {
      assert (a + b)[1..] == b;
    } else {
      assert (a + b)[1..] == a[1..] + b;
      JoinAppend(a[1..], b, sep);
    }
  }

  // ---------------------------------------------------------------------------
  // Trimming

  /** The code points that Go's `unicode.IsSpace` accepts. */
  const WhiteSpace: set<char> := {
    '\t', '\n', '\U{000B}', '\U{000C}', '\r', ' ', '\U{0085}', '\U{00A0}',
    '\U{1680}', '\U{2000}', '\U{2001}', '\U{2002}', '\U{2003}', '\U{2004}',
    '\U{2005}', '\U{2006}', '\U{2007}', '\U{2008}', '\U{2009}', '\U{200A}',
    '\U{2028}', '\U{2029}', '\U{202F}', '\U{205F}', '\U{3000}'
  }

  function TrimLeft(s: string, cut: set<char>): (r: string)
    ensures |r| <= |s| && r == s[|s| - |r|..]
    ensures r == [] || r[0] !in cut
    ensures forall i :: 0 <= i < |s| - |r| ==> s[i] in cut
  {
    if s != [] && s[0] in cut then TrimLeft(s[1..], cut) else s
  }

  function TrimRight(s: string, cut: set<char>): (r: string)
    ensures |r| <= |s| && r == s[..|r|]
    ensures r == [] || r[|r| - 1] !in cut
    ensures forall i :: |r| <= i < |s| ==> s[i] in cut
  {
    if s != [] && s[|s| - 1] in cut then TrimRight(s[..|s| - 1], cut) else s
  }

  /** `strings.Trim(s, cutset)`. */
  function Trim(s: string, cutset: string): string {
    if s != [] && s[0] in cutset then Trim(s[1..], cutset)
    else if s != [] && s[|s| - 1] in cutset then Trim(s[..|s| - 1], cutset)
    else s
  }

  /** `strings.TrimSpace(s)`: white space removed from both ends. */
  function TrimSpace(s: string): string {
    if s != [] && s[0] in WhiteSpace then TrimSpace(s[1..])
    else if s != [] && s[|s| - 1] in WhiteSpace then TrimSpace(s[..|s| - 1])
    else s
  }

  /** TrimSpace is TrimLeft then TrimRight with the white-space set. */
  lemma {:induction false} TrimSpaceIsTrim(s: string)
    ensures TrimSpace(s) == TrimRight(TrimLeft(s, WhiteSpace), WhiteSpace)
  {
    if s != [] && s[0] in WhiteSpace {
      TrimSpaceIsTrim(s[1..]);
    } else if s != [] && s[|s| - 1] in WhiteSpace {
      TrimSpaceIsTrim(s[..|s| - 1]);
      assert TrimLeft(s, WhiteSpace) == s;
      assert TrimLeft(s[..|s| - 1], WhiteSpace) == s[..|s| - 1];
    }
  }

  /** A trimmed text neither starts nor ends with white space, and trimming it again changes nothing. */
  lemma TrimSpaceTrimmed(s: string)
    ensures var t := TrimSpace(s);
      (t == [] || (t[0] !in WhiteSpace && t[|t| - 1] !in WhiteSpace)) && TrimSpace(t) == t
  {
    TrimSpaceIsTrim(s);
    var l := TrimLeft(s, WhiteSpace);
    var t := TrimRight(l, WhiteSpace);
    if t != [] {
      assert t[0] == l[0];
    }
  }

  // ---------------------------------------------------------------------------
  // Case

  /** `strings.ToLower`, on the ASCII letters only. */
  function ToLower(s: string): (r: string)
    ensures |r| == |s|
    ensures forall i :: 0 <= i < |s| ==> r[i] == LowerChar(s[i])
  {
    if s == [] then "" else [LowerChar(s[0])] + ToLower(s[1..])
  }

  function LowerChar(c: char): char {
    if 'A' <= c <= 'Z' then (c as int + 32) as char else c
  }

  // ---------------------------------------------------------------------------
  // Paths

  /**
    `filepath.Ext(path)`: the suffix from the last '.' of the final path
    element, or "" when that element has no '.'.
  */
  function Ext(path: string): (r: string)
    ensures r == [] || (r[0] == '.' && '.' !in r[1..])
    ensures '/' !in r
    ensures |r| <= |path| && r == path[|path| - |r|..]
  {
    if path == [] || path[|path| - 1] == '/' then ""
    else if path[|path| - 1] == '.' then "."
    else
      var e := Ext(path[..|path| - 1]);
      if e == [] then "" else e + [path[|path| - 1]]
  }

  /** Some '.' of the path has no '/' after it: the final path element has a '.'. */
  predicate DotInLastElement(path: string) {
    exists i :: 0 <= i < |path| && path[i] == '.' && '/' !in path[i + 1..]
  }

  /** The extension is non-empty exactly when the final path element has a '.'. */
  lemma {:induction false} ExtFound(path: string)
    ensures Ext(path) != [] <==> DotInLastElement(path)
  {
    if path != [] {
      var last := path[|path| - 1];
      if last == '/' {
        NoDotAfterSlash(path);
      } else if last == '.' {
        assert path[|path|..] == [];
      } else {
        ExtFound(path[..|path| - 1]);
        DotInLastStep(path);
      }
    }
  }

  /** A path ending in '/' has an empty final element. */
  lemma NoDotAfterSlash(path: string)
    requires path != [] && path[|path| - 1] == '/'
    ensures !DotInLastElement(path)
  {
    var n := |path|;
    forall i | 0 <= i < n && path[i] == '.' ensures '/' in path[i + 1..] {
      assert path[i + 1..][n - 1 - (i + 1)] == '/';
    }
  }

  /** A last character other than '.' and '/' leaves the question to the rest of the path. */
  lemma DotInLastStep(path: string)
    requires path != [] && path[|path| - 1] != '/' && path[|path| - 1] != '.'
    ensures DotInLastElement(path) <==> DotInLastElement(path[..|path| - 1])
  {
    var n := |path|;
    var init := path[..n - 1];
    if DotInLastElement(init) {
      var i :| 0 <= i < |init| && init[i] == '.' && '/' !in init[i + 1..];
      assert path[i + 1..] == init[i + 1..] + [path[n - 1]];
    }
    if DotInLastElement(path) {
      var i :| 0 <= i < n && path[i] == '.' && '/' !in path[i + 1..];
      assert path[i + 1..] == init[i + 1..] + [path[n - 1]];
    }
  }

  /** Lower-casing a path and taking its extension commute, because '.' and '/' are not letters. */
  lemma {:induction false} ExtToLower(path: string)
    ensures Ext(ToLower(path)) == ToLower(Ext(path))
  {
    if path != [] {
      var last := path[|path| - 1];
      if last == '/' {
        assert ToLower(path)[|path| - 1] == '/';
      } else if last == '.' {
        assert ToLower(path)[|path| - 1] == '.';
      } else {
        var init := path[..|path| - 1];
        ExtToLower(init);
        ExtToLowerStep(path);
      }
    }
  }

  lemma ExtToLowerStep(path: string)
    requires path != [] && path[|path| - 1] != '/' && path[|path| - 1] != '.'
    requires Ext(ToLower(path[..|path| - 1])) == ToLower(Ext(path[..|path| - 1]))
    ensures Ext(ToLower(path)) == ToLower(Ext(path))
  {
    var n := |path|;
    var low := ToLower(path);
    assert low[n - 1] == LowerChar(path[n - 1]);
    assert low[n - 1] != '/' && low[n - 1] != '.';
    ToLowerInit(path);
    ExtUnfold(path);
    ExtUnfold(low);
    var e := Ext(path[..n - 1]);
    if e != [] {
      ToLowerAppend(e, [path[n - 1]]);
    }
  }

  lemma ToLowerInit(path: string)
    requires path != []
    ensures ToLower(path)[..|path| - 1] == ToLower(path[..|path| - 1])
  {
  }

  lemma ExtUnfold(path: string)
    requires path != [] && path[|path| - 1] != '/' && path[|path| - 1] != '.'
    ensures var e := Ext(path[..|path| - 1]);
      Ext(path) == if e == [] then "" else e + [path[|path| - 1]]
  {
  }

  lemma ToLowerAppend(a: string, b: string)
    ensures ToLower(a + b) == ToLower(a) + ToLower(b)
  {
    ToLowerIsMap(a + b);
    ToLowerIsMap(a);
    ToLowerIsMap(b);
    MapAppend(LowerChar, a, b);
  }

  lemma ToLowerIsMap(s: string)
    ensures ToLower(s) == Map(LowerChar, s)
  {
  }

  // ---------------------------------------------------------------------------
  // Decimal numbers (strconv.Itoa / fmt "%d" and strconv.Atoi)

  predicate IsDigit(c: char) { '0' <= c <= '9' }

  function DigitChar(d: nat): (c: char)
    requires d < 10
    ensures IsDigit(c)
  {
    ('0' as int + d) as char
  }

  function NatToString(n: nat): (s: string)
    ensures |s| >= 1
    ensures forall i :: 0 <= i < |s| ==> IsDigit(s[i])
  {
    if n < 10 then [DigitChar(n)] else NatToString(n / 10) + [DigitChar(n % 10)]
  }

  /** `strconv.Itoa(i)` and `fmt.Sprintf("%d", i)`. */
  function IntToString(i: int): (s: string)
    ensures |s| >= 1
    ensures forall k :: 0 <= k < |s| ==> IsDigit(s[k]) || (k == 0 && s[k] == '-')
  {
    if i < 0 then "-" + NatToString(-i) else NatToString(i)
  }

  function DigitsValue(d: string): nat
    requires forall i :: 0 <= i < |d| ==> IsDigit(d[i])
  {
    if d == [] then 0
    else
      assert IsDigit(d[|d| - 1]);
      DigitsValue(d[..|d| - 1]) * 10 + (d[|d| - 1] as int - '0' as int)
  }

  predicate AllDigits(d: string) {
    forall i :: 0 <= i < |d| ==> IsDigit(d[i])
  }

  /** The range of Go's `int` on a 64-bit platform. */
  const MinInt64: int := -0x8000_0000_0000_0000
  const MaxInt64: int := 0x7fff_ffff_ffff_ffff

  predicate IsInt64(i: int) {
    MinInt64 <= i <= MaxInt64
  }

  /**
    The syntax `strconv.Atoi` accepts: an optional '+' or '-' followed by at
    least one decimal digit, read as an unbounded integer.
  */
  function Decimal(s: string): (r: Option<int>)
    ensures r.Some? ==> |s| >= 1
  {
    if s == [] then None
    else if s[0] == '-' || s[0] == '+' then
      var d := s[1..];
      if d != [] && AllDigits(d) then
        var v: int := DigitsValue(d);
        Some(if s[0] == '-' then -v else v)
      else None
    else if AllDigits(s) then Some(DigitsValue(s))
    else None
  }

  /**
    `strconv.Atoi(s)`: the decimal syntax, and a value that fits Go's 64-bit
    `int`; a syntax error and a value out of range (`ErrRange`) are both errors.
  */
  function Atoi(s: string): (r: Option<int>)
    ensures r.Some? ==> |s| >= 1 && IsInt64(r.value)
    ensures r.Some? <==> Decimal(s).Some? && IsInt64(Decimal(s).value)
  {
    match Decimal(s)
    case None => None
    case Some(v) => if IsInt64(v) then Some(v) else None
  }

  lemma {:induction false} DigitsValueOfNat(n: nat)
    ensures DigitsValue(NatToString(n)) == n
  {
    if n >= 10 {
      var s := NatToString(n);
      assert s[..|s| - 1] == NatToString(n / 10);
      DigitsValueOfNat(n / 10);
    }
  }

  /** Digits alone, or after a "-", read as their value or its negation. */
  lemma DecimalDigits(d: string)
    requires d != [] && AllDigits(d)
    ensures Decimal(d) == Some(DigitsValue(d))
    ensures Decimal("-" + d) == Some(-(DigitsValue(d) as int))
  {
    assert IsDigit(d[0]);
    assert ("-" + d)[1..] == d;
  }

  /** Parsing the decimal text of an integer gives the integer back when it fits 64 bits, and fails otherwise. */
  lemma AtoiIntToString(i: int)
    ensures Atoi(IntToString(i)) == if IsInt64(i) then Some(i) else None
  {
    var n: nat := if i < 0 then -i else i;
    DigitsValueOfNat(n);
    DecimalDigits(NatToString(n));
  }

  function Pow10(k: nat): (p: nat)
    ensures p >= 1
  {
    if k == 0 then 1 else 10 * Pow10(k - 1)
  }

  /** A number below 10^k has at most k digits. */
  lemma {:induction false} NatToStringLength(n: nat, k: nat)
    requires 1 <= k && n < Pow10(k)
    ensures |NatToString(n)| <= k
  {
    if n >= 10 {
      assert n / 10 < Pow10(k - 1);
      NatToStringLength(n / 10, k - 1);
    }
  }

  /** The decimal text of a 64-bit integer has at most 20 characters. */
  lemma IntToStringShort(i: int)
    requires IsInt64(i)
    ensures |IntToString(i)| <= 20
  {
    var n: nat := if i < 0 then -i else i;
    assert Pow10(5) == 100_000;
    assert Pow10(10) == 10_000_000_000;
    assert Pow10(15) == 1_000_000_000_000_000;
    assert Pow10(19) == 10_000_000_000_000_000_000;
    NatToStringLength(n, 19);
  }

  // ---------------------------------------------------------------------------
  // Padding (fmt width verbs) and repetition

  /** `strings.Repeat(s, n)`; Go panics for a negative count, the model yields "". */
  function Repeat(s: string, n: int): (r: string)
    ensures |r| == if n <= 0 then 0 else n * |s|
    ensures forall i :: 0 <= i < |r| ==> r[i] in s
  {
    if n <= 0 then "" else s + Repeat(s, n - 1)
  }

  /** Copy `k` of `Repeat(s, n)` is `s` itself: the result is `n` copies in a row. */
  lemma {:induction false} RepeatCopies(s: string, n: int, k: nat)
    requires k < n
    ensures (k + 1) * |s| <= |Repeat(s, n)|
    ensures Repeat(s, n)[k * |s|..(k + 1) * |s|] == s
  {
    var rest := Repeat(s, n - 1);
    assert Repeat(s, n) == s + rest;
    if k > 0 {
      RepeatCopies(s, n - 1, k - 1);
      assert k * |s| == |s| + (k - 1) * |s|;
      assert (k + 1) * |s| == |s| + k * |s|;
      assert (s + rest)[|s| + (k - 1) * |s|..|s| + k * |s|] == rest[(k - 1) * |s|..k * |s|];
    }
  }

  /** `fmt.Sprintf("%-<w>s", s)`: left-justified, padded with spaces to width `w`. */
  function PadRight(s: string, w: nat): (r: string)
    ensures |r| == if |s| >= w then |s| else w
    ensures r[..|s|] == s
    ensures forall i :: |s| <= i < |r| ==> r[i] == ' '
  {
    if |s| >= w then s else s + Repeat(" ", w - |s|)
  }

  /** `fmt.Sprintf("%<w>s", s)`: right-justified, padded with spaces to width `w`. */
  function PadLeft(s: string, w: nat): (r: string)
    ensures |r| == if |s| >= w then |s| else w
    ensures r[|r| - |s|..] == s
    ensures forall i :: 0 <= i < |r| - |s| ==> r[i] == ' '
  {
    if |s| >= w then s else Repeat(" ", w - |s|) + s
  }

  // ---------------------------------------------------------------------------
  // Sequences of sequences

  /** The parts one after another. */
  function Concat<T>(parts: seq<seq<T>>): seq<T> {
    if parts == [] then [] else Concat(parts[..|parts| - 1]) + parts[|parts| - 1]
  }

  lemma ConcatSnoc<T>(parts: seq<seq<T>>, i: nat)
    requires i < |parts|
    ensures Concat(parts[..i + 1]) == Concat(parts[..i]) + parts[i]
  {
    assert parts[..i + 1][..i] == parts[..i];
  }

  /** Part i sits right after the parts before it. */
  lemma {:induction false} ConcatPart<T>(parts: seq<seq<T>>, i: nat)
    requires i < |parts|
    ensures var at := |Concat(parts[..i])|;
      at + |parts[i]| <= |Concat(parts)| && Concat(parts)[at..at + |parts[i]|] == parts[i]
    decreases |parts|
  {
    var at := |Concat(parts[..i])|;
    if i == |parts| - 1 {
      assert parts[..|parts| - 1] == parts[..i];
      assert Concat(parts) == Concat(parts[..i]) + parts[i];
    } else {
      var init := parts[..|parts| - 1];
      assert init[..i] == parts[..i] && init[i] == parts[i];
      ConcatPart(init, i);
      assert Concat(parts) == Concat(init) + parts[|parts| - 1];
      assert Concat(parts)[at..at + |parts[i]|] == Concat(init)[at..at + |parts[i]|];
    }
  }

  /** The sum of a sequence of sizes. */
  function Sum(sizes: seq<nat>): nat {
    if sizes == [] then 0 else Sum(sizes[..|sizes| - 1]) + sizes[|sizes| - 1]
  }

  /** Parts of the given sizes concatenate to their total size. */
  lemma {:induction false} ConcatLength<T>(parts: seq<seq<T>>, sizes: seq<nat>)
    requires |parts| == |sizes|
    requires forall j :: 0 <= j < |parts| ==> |parts[j]| == sizes[j]
    ensures |Concat(parts)| == Sum(sizes)
    decreases |parts|
  {
    if parts != [] {
      ConcatLength(parts[..|parts| - 1], sizes[..|sizes| - 1]);
    }
  }

  /** Part i, after a head and the parts before it. */
  lemma ConcatAfter<T>(head: seq<T>, parts: seq<seq<T>>, i: nat)
    requires i < |parts|
    ensures var at := |head| + |Concat(parts[..i])|;
      at + |parts[i]| <= |head + Concat(parts)| && (head + Concat(parts))[at..at + |parts[i]|] == parts[i]
  {
    ConcatPart(parts, i);
    SliceAfter(head, Concat(parts), |Concat(parts[..i])|, |parts[i]|);
  }

  /** `f` applied to every element, in order. */
  function Map<A, B>(f: A -> B, xs: seq<A>): (ys: seq<B>)
    ensures |ys| == |xs|
    ensures forall i :: 0 <= i < |xs| ==> ys[i] == f(xs[i])
  {
    seq(|xs|, i requires 0 <= i < |xs| => f(xs[i]))
  }

  lemma MapAppend<A, B>(f: A -> B, xs: seq<A>, ys: seq<A>)
    ensures Map(f, xs + ys) == Map(f, xs) + Map(f, ys)
  {
    assert forall i :: 0 <= i < |xs| + |ys| ==> (xs + ys)[i] == if i < |xs| then xs[i] else ys[i - |xs|];
  }

  /** A slice of `b` read through `a + b`. */
  lemma SliceAfter<T>(a: seq<T>, b: seq<T>, at: nat, n: nat)
    requires at + n <= |b|
    ensures (a + b)[|a| + at..|a| + at + n] == b[at..at + n]
  {
  }
}
