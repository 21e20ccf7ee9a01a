/**
 * The recognisers of the level-file scanner: Lean string literals (on one line or several),
 * the top-level keyword test, `Hint` extraction and the `Statement ... := by` block.
 * Each recogniser works on the file's lines and a line index and returns the index of the
 * last line it consumed.
 */
module LevelParser {
  import opened Opt
  import opened Strings
  import opened GameTypes

  // ─── String literals ──────────────────────────────────────────────────────

  function PrependOpt(c: char, o: Option<string>): Option<string> {
    match o
    case None => None
    case Some(v) => Some([c] + v)
  }

  function AppendOpt(p: string, o: Option<string>): Option<string> {
    match o
    case None => None
    case Some(v) => Some(p + v)
  }

  /**
   * The value of a string literal whose opening quote is already consumed: the text before
   * the first unescaped `"`, with every `\x` replaced by `x`. `None` when the line holds no
   * unescaped quote (the literal continues on the next line).
   */
  ghost function CloseSingle(rest: string): (r: Option<string>)
    ensures r.Some? ==> |r.value| < |rest|
    decreases |rest|
  {
    if |rest| == 0 then None
    else if rest[0] == '\\' && |rest| > 1 then PrependOpt(rest[1], CloseSingle(rest[2..]))
    else if rest[0] == '"' then Some("")
    else PrependOpt(rest[0], CloseSingle(rest[1..]))
  }

  lemma AppendOptPrepend(p: string, c: char, o: Option<string>)
    ensures AppendOpt(p, PrependOpt(c, o)) == AppendOpt(p + [c], o)
  {
    match o
    case None =>
    case Some(v) => assert p + ([c] + v) == (p + [c]) + v;
  }

  lemma AppendOptEmpty(o: Option<string>)
    ensures AppendOpt("", o) == o
  {
    match o
    case None =>
    case Some(v) => assert "" + v == v;
  }

  /** `tryCloseSingleLine`: a cursor loop accumulating the unescaped text. */
  method TryCloseSingleLine(rest: string) returns (r: Option<string>)
    ensures r == CloseSingle(rest)
  {
    var result := "";
    var i := 0;
    assert rest[0..] == rest;
    AppendOptEmpty(CloseSingle(rest));
    while i < |rest|
      invariant 0 <= i <= |rest|
      invariant AppendOpt(result, CloseSingle(rest[i..])) == CloseSingle(rest)
    {
      var ch := rest[i];
      if ch == '\\' && i + 1 < |rest| {
        assert rest[i..][2..] == rest[i + 2..];
        AppendOptPrepend(result, rest[i + 1], CloseSingle(rest[i + 2..]));
        result := result + [rest[i + 1]];
        i := i + 2;
        continue;
      }
      if ch == '"' {
        assert result + "" == result;
        return Some(result);
      }
      assert rest[i..][1..] == rest[i + 1..];
      AppendOptPrepend(result, ch, CloseSingle(rest[i + 1..]));
      result := result + [ch];
      i := i + 1;
    }
    return None;
  }

  /** Writes `v` as the body of a Lean string literal: a backslash before each `"` and `\`. */
  function Escape(v: string): string {
    if |v| == 0 then ""
    else (if v[0] == '"' || v[0] == '\\' then ['\\', v[0]] else [v[0]]) + Escape(v[1..])
  }

  /** Reading back an escaped value closed by a quote gives the value, whatever follows. */
  lemma {:induction false} CloseSingleOfEscaped(v: string, tail: string)
    ensures CloseSingle(Escape(v) + "\"" + tail) == Some(v)
  {
    if |v| > 0 {
      var s := Escape(v) + "\"" + tail;
      CloseSingleOfEscaped(v[1..], tail);
      if v[0] == '"' || v[0] == '\\' {
        assert s[2..] == Escape(v[1..]) + "\"" + tail;
      } else {
        assert s[1..] == Escape(v[1..]) + "\"" + tail;
      }
      assert v == [v[0]] + v[1..];
    }
  }

  /** A line without any quote never closes a literal. */
  lemma {:induction false} CloseSingleWithoutQuote(s: string)
    requires '"' !in s
    ensures CloseSingle(s) == None
    decreases |s|
  {
    if |s| > 1 && s[0] == '\\' {
      CloseSingleWithoutQuote(s[2..]);
    } else if |s| > 0 {
      CloseSingleWithoutQuote(s[1..]);
    }
  }

  /** Without backslashes the value is exactly the text before the first quote. */
  lemma {:induction false} CloseSingleWithoutEscapes(s: string)
    requires '\\' !in s
    ensures CloseSingle(s) == match IndexOfChar(s, '"') case None => None case Some(k) => Some(s[..k])
    decreases |s|
  {
    if |s| > 0 && s[0] != '"' {
      CloseSingleWithoutEscapes(s[1..]);
      match IndexOfChar(s[1..], '"')
      case None =>
      case Some(k) => assert s[..k + 1] == [s[0]] + s[1..][..k];
    }
  }

  /** The first line at or after `from` that holds an unescaped quote, or `|lines|`. */
  ghost function FirstClosing(lines: seq<string>, from: nat): (r: nat)
    requires from <= |lines|
    ensures from <= r <= |lines|
    ensures r < |lines| ==> CloseSingle(lines[r]).Some?
    ensures forall j :: from <= j < r ==> CloseSingle(lines[j]).None?
    decreases |lines| - from
  {
    if from == |lines| then from
    else if CloseSingle(lines[from]).Some? then from
    else FirstClosing(lines, from + 1)
  }

  /** Each line followed by a newline. */
  function Accumulated(ls: seq<string>): string {
    if |ls| == 0 then "" else Accumulated(ls[..|ls| - 1]) + ls[|ls| - 1] + "\n"
  }

  lemma AccumulatedEmpty(ls: seq<string>, prefix: string, a: nat)
    requires a <= |ls|
    ensures prefix + Accumulated(ls[a..a]) == prefix
  {
    assert ls[a..a] == [];
    ConcatEmptyRight(prefix);
  }

  lemma AccumulatedStep(ls: seq<string>, prefix: string, a: nat, b: nat)
    requires a <= b < |ls|
    ensures prefix + Accumulated(ls[a..b]) + ls[b] + "\n" == prefix + Accumulated(ls[a..b + 1])
  {
    assert ls[a..b + 1][..b - a] == ls[a..b];
    ConcatAssoc(prefix, Accumulated(ls[a..b]), ls[b]);
    ConcatAssoc(prefix, Accumulated(ls[a..b]) + ls[b], "\n");
  }

  /** `.replace(/^\n/, '').replace(/\n$/, '')`: one leading, then one trailing newline removed. */
  function StripNewlines(s: string): string {
    var a := if |s| > 0 && s[0] == '\n' then s[1..] else s;
    if |a| > 0 && a[|a| - 1] == '\n' then a[..|a| - 1] else a
  }

  /**
   * The value of a literal left open on the line before `from`: the text after its quote, a
   * newline, then every later line with its newline up to the first line with an unescaped
   * quote, whose closed part ends the value; to the end of the file when no line closes it.
   */
  ghost function OpenStringValue(lines: seq<string>, from: nat, afterQuote: string): string
    requires from <= |lines|
  {
    var k := FirstClosing(lines, from);
    StripNewlines(afterQuote + "\n" + Accumulated(lines[from..k])
      + (if k < |lines| then CloseSingle(lines[k]).value else ""))
  }

  datatype StringResult = StringResult(value: Option<string>, multiLine: bool, endIdx: nat)

  /** The literal after a keyword opens on this line and does not close on it. */
  ghost predicate OpensMultiLine(lineRest: string) {
    var t := TrimStart(lineRest);
    StartsWith(t, "\"") && CloseSingle(t[1..]).None?
  }

  /** What `extractLeanString(lines, startIdx, lineRest)` returns. */
  ghost function LeanString(lines: seq<string>, startIdx: nat, lineRest: string): (r: StringResult)
    requires startIdx < |lines|
    ensures startIdx <= r.endIdx < |lines|
    ensures r.value.None? <==> !StartsWith(TrimStart(lineRest), "\"")
    ensures r.multiLine <==> OpensMultiLine(lineRest)
    ensures !r.multiLine ==> r.endIdx == startIdx
    ensures r.multiLine && FirstClosing(lines, startIdx + 1) < |lines| ==> r.endIdx == FirstClosing(lines, startIdx + 1)
    ensures r.multiLine && FirstClosing(lines, startIdx + 1) == |lines| ==> r.endIdx == |lines| - 1
  {
    var t := TrimStart(lineRest);
    if !StartsWith(t, "\"") then StringResult(None, false, startIdx)
    else match CloseSingle(t[1..])
      case Some(v) => StringResult(Some(v), false, startIdx)
      case None =>
        var k := FirstClosing(lines, startIdx + 1);
        StringResult(Some(OpenStringValue(lines, startIdx + 1, t[1..])), true,
          if k < |lines| then k else |lines| - 1)
  }

  /**
   * The scan of a literal left open on the line before `from`, shared by `extractLeanString`
   * and `extractHints`: a loop over the following lines that stops at the first one closing
   * the literal. `closeIdx` is that line, or `|lines|` when none closes it.
   */
  method ReadOpenString(lines: seq<string>, from: nat, afterQuote: string) returns (value: string, closeIdx: nat)
    requires from <= |lines|
    ensures closeIdx == FirstClosing(lines, from)
    ensures value == OpenStringValue(lines, from, afterQuote)
  {
    var prefix := afterQuote + "\n";
    var accum := prefix;
    var i := from;
    AccumulatedEmpty(lines, prefix, from);
    while i < |lines|
      invariant from <= i <= |lines|
      invariant accum == prefix + Accumulated(lines[from..i])
      invariant forall j :: from <= j < i ==> CloseSingle(lines[j]).None?
    {
      var closed := TryCloseSingleLine(lines[i]);
      if closed.Some? {
        accum := accum + closed.value;
        assert FirstClosing(lines, from) == i;
        return StripNewlines(accum), i;
      }
      AccumulatedStep(lines, prefix, from, i);
      accum := accum + lines[i] + "\n";
      i := i + 1;
    }
    assert FirstClosing(lines, from) == |lines|;
    ConcatEmptyRight(accum);
    return StripNewlines(accum), |lines|;
  }

  /** `extractLeanString`: a single-line attempt, then a scan of the following lines. */
  method ExtractLeanString(lines: seq<string>, startIdx: nat, lineRest: string) returns (r: StringResult)
    requires startIdx < |lines|
    ensures r == LeanString(lines, startIdx, lineRest)
  {
    var trimmed := TrimStart(lineRest);
    if !StartsWith(trimmed, "\"") {
      return StringResult(None, false, startIdx);
    }
    var afterQuote := trimmed[1..];
    var single := TryCloseSingleLine(afterQuote);
    if single.Some? {
      return StringResult(single, false, startIdx);
    }
    var value, closeIdx := ReadOpenString(lines, startIdx + 1, afterQuote);
    return StringResult(Some(value), true, if closeIdx < |lines| then closeIdx else |lines| - 1);
  }

  // ─── Top-level keywords ───────────────────────────────────────────────────

  const TopLevelKeywords: set<string> := {
    "import", "World", "Level", "Title", "Introduction", "Conclusion", "Statement",
    "NewTactic", "NewTheorem", "NewLemma", "NewDefinition", "TacticDoc", "TheoremDoc",
    "LemmaDoc", "DefinitionDoc", "Dependency", "MakeGame", "open", "section", "namespace",
    "variable", "set_option"
  }

  predicate IsIdentStart(c: char) {
    ('A' <= c <= 'Z') || ('a' <= c <= 'z') || c == '_'
  }

  predicate IsIdentChar(c: char) {
    IsIdentStart(c) || ('0' <= c <= '9')
  }

  /** The longest prefix of `s` made of identifier characters. */
  function IdentRun(s: string): (r: string)
    ensures |r| <= |s| && r == s[..|r|]
    ensures forall i :: 0 <= i < |r| ==> IsIdentChar(r[i])
    ensures |r| < |s| ==> !IsIdentChar(s[|r|])
  {
    if |s| > 0 && IsIdentChar(s[0]) then [s[0]] + IdentRun(s[1..]) else ""
  }

  /** The identifier matched by `/^([A-Za-z_][A-Za-z0-9_]*)/`, or "" when there is none. */
  function LeadingIdentifier(line: string): string {
    if |line| > 0 && IsIdentStart(line[0]) then IdentRun(line) else ""
  }

  /** `isTopLevelKeyword`: the line's leading identifier is one of the fixed keywords. */
  predicate IsTopLevelKeyword(line: string) {
    var w := LeadingIdentifier(line);
    w != "" && w in TopLevelKeywords
  }

  predicate IsIdentifier(w: string) {
    |w| > 0 && IsIdentStart(w[0]) && forall i :: 0 <= i < |w| ==> IsIdentChar(w[i])
  }

  /** Every keyword is an identifier (checked in four groups, one keyword at a time). */
  lemma KeywordIsIdentifier(kw: string)
    requires kw in TopLevelKeywords
    ensures IsIdentifier(kw)
  {
    if kw in {"import", "World", "Level", "Title", "Introduction", "Conclusion"} {
      HeaderKeywordsAreIdentifiers(kw);
    } else if kw in {"Statement", "NewTactic", "NewTheorem", "NewLemma", "NewDefinition"} {
      DeclarationKeywordsAreIdentifiers(kw);
    } else if kw in {"TacticDoc", "TheoremDoc", "LemmaDoc", "DefinitionDoc", "Dependency", "MakeGame"} {
      DocKeywordsAreIdentifiers(kw);
    } else {
      LeanKeywordsAreIdentifiers(kw);
    }
  }

  lemma HeaderKeywordsAreIdentifiers(kw: string)
    requires kw in {"import", "World", "Level", "Title", "Introduction", "Conclusion"}
    ensures IsIdentifier(kw)
  {
    if kw == "import" {
      assert IsIdentifier("import");
    } else if kw == "World" {
      assert IsIdentifier("World");
    } else if kw == "Level" {
      assert IsIdentifier("Level");
    } else if kw == "Title" {
      assert IsIdentifier("Title");
    } else if kw == "Introduction" {
      assert IsIdentifier("Introduction");
    } else {
      assert IsIdentifier("Conclusion");
    }
  }

  lemma DeclarationKeywordsAreIdentifiers(kw: string)
    requires kw in {"Statement", "NewTactic", "NewTheorem", "NewLemma", "NewDefinition"}
    ensures IsIdentifier(kw)
  {
    if kw == "Statement" {
      assert IsIdentifier("Statement");
    } else if kw == "NewTactic" {
      assert IsIdentifier("NewTactic");
    } else if kw == "NewTheorem" {
      assert IsIdentifier("NewTheorem");
    } else if kw == "NewLemma" {
      assert IsIdentifier("NewLemma");
    } else {
      assert IsIdentifier("NewDefinition");
    }
  }

  lemma DocKeywordsAreIdentifiers(kw: string)
    requires kw in {"TacticDoc", "TheoremDoc", "LemmaDoc", "DefinitionDoc", "Dependency", "MakeGame"}
    ensures IsIdentifier(kw)
  {
    if kw == "TacticDoc" {
      assert IsIdentifier("TacticDoc");
    } else if kw == "TheoremDoc" {
      assert IsIdentifier("TheoremDoc");
    } else if kw == "LemmaDoc" {
      assert IsIdentifier("LemmaDoc");
    } else if kw == "DefinitionDoc" {
      assert IsIdentifier("DefinitionDoc");
    } else if kw == "Dependency" {
      assert IsIdentifier("Dependency");
    } else {
      assert IsIdentifier("MakeGame");
    }
  }

  lemma LeanKeywordsAreIdentifiers(kw: string)
    requires kw in {"open", "section", "namespace", "variable", "set_option"}
    ensures IsIdentifier(kw)
  {
    if kw == "open" {
      assert IsIdentifier("open");
    } else if kw == "section" {
      assert IsIdentifier("section");
    } else if kw == "namespace" {
      assert IsIdentifier("namespace");
    } else if kw == "variable" {
      assert IsIdentifier("variable");
    } else {
      assert IsIdentifier("set_option");
    }
  }

  lemma {:induction false} IdentRunOfIdentifier(w: string, rest: string)
    requires forall i :: 0 <= i < |w| ==> IsIdentChar(w[i])
    requires |rest| == 0 || !IsIdentChar(rest[0])
    ensures IdentRun(w + rest) == w
    decreases |w|
  {
    if |w| > 0 {
      assert (w + rest)[1..] == w[1..] + rest;
      IdentRunOfIdentifier(w[1..], rest);
    } else {
      assert w + rest == rest;
    }
  }

  /** `kw` is the whole leading identifier of `line`. */
  predicate LeadsWith(line: string, kw: string) {
    StartsWith(line, kw) && (|line| == |kw| || !IsIdentChar(line[|kw|]))
  }

  /**
   * A line counts as a top-level keyword line exactly when it starts with one of the
   * keywords and the keyword is not the prefix of a longer identifier.
   */
  lemma TopLevelKeywordIff(line: string)
    ensures IsTopLevelKeyword(line) <==> exists kw :: kw in TopLevelKeywords && LeadsWith(line, kw)
  {
    if IsTopLevelKeyword(line) {
      var w := LeadingIdentifier(line);
      assert LeadsWith(line, w);
    }
    if exists kw :: kw in TopLevelKeywords && LeadsWith(line, kw) {
      var kw :| kw in TopLevelKeywords && LeadsWith(line, kw);
      KeywordIsIdentifier(kw);
      assert line == kw + line[|kw|..];
      IdentRunOfIdentifier(kw, line[|kw|..]);
      assert LeadingIdentifier(line) == kw;
    }
  }

  // ─── Hints ────────────────────────────────────────────────────────────────

  /**
   * `/^\s*Hint\s*(.*)$/`: the text after `Hint` and the whitespace behind it. The match fails
   * when that text holds a line terminator, which `.` does not match.
   */
  function HintArgument(line: string): (r: Option<string>)
    ensures r.Some? ==> NoLineTerminator(r.value)
  {
    match Expect(line, "Hint")
    case None => None
    case Some(r0) =>
      var rest := TrimStart(r0);
      if NoLineTerminator(rest) then Some(rest) else None
  }

  /** One `\s*lit` step of a regular expression: the text after `lit`, if it comes next. */
  function Expect(s: string, lit: string): (r: Option<string>)
    ensures r.Some? ==> |r.value| <= |s| - |lit|
  {
    var t := TrimStart(s);
    if StartsWith(t, lit) then Some(t[|lit|..]) else None
  }

  /** The two hint options. */
  datatype FlagName = HiddenFlag | StrictFlag

  function FlagText(k: FlagName): string {
    match k
    case HiddenFlag => "hidden"
    case StrictFlag => "strict"
  }

  function BoolText(b: bool): string {
    if b then "true" else "false"
  }

  datatype HintOption = HintOption(key: FlagName, val: bool, tail: string)

  /** `(hidden|strict)` after optional whitespace. */
  function OptionKey(b: string): (r: Option<(FlagName, string)>)
    ensures r.Some? ==> |r.value.1| < |b|
  {
    match Expect(b, "hidden")
    case Some(c) => Some((HiddenFlag, c))
    case None =>
      match Expect(b, "strict")
      case Some(c) => Some((StrictFlag, c))
      case None => None
  }

  /** `(true|false)` after optional whitespace. */
  function OptionBool(d: string): (r: Option<(bool, string)>)
    ensures r.Some? ==> |r.value.1| < |d|
  {
    match Expect(d, "true")
    case Some(e) => Some((true, e))
    case None =>
      match Expect(d, "false")
      case Some(e) => Some((false, e))
      case None => None
  }

  /**
   * `/^\s*\(\s*(hidden|strict)\s*:=\s*(true|false)\s*\)\s*(.*)$/` on the rest of a Hint line,
   * read one step at a time.
   */
  function OptionPrefix(rest: string): (r: Option<HintOption>)
    ensures r.Some? ==> |r.value.tail| < |rest|
  {
    match Expect(rest, "(")
    case None => None
    case Some(b) => OptionAfterParen(b)
  }

  function OptionAfterParen(b: string): (r: Option<HintOption>)
    ensures r.Some? ==> |r.value.tail| < |b|
  {
    match OptionKey(b)
    case None => None
    case Some(kc) => OptionAfterKey(kc.0, kc.1)
  }

  function OptionAfterKey(key: FlagName, c: string): (r: Option<HintOption>)
    ensures r.Some? ==> |r.value.tail| < |c|
  {
    match Expect(c, ":=")
    case None => None
    case Some(d) => OptionAfterAssign(key, d)
  }

  function OptionAfterAssign(key: FlagName, d: string): (r: Option<HintOption>)
    ensures r.Some? ==> |r.value.tail| < |d|
  {
    match OptionBool(d)
    case None => None
    case Some(ve) => OptionAfterValue(key, ve.0, ve.1)
  }

  function OptionAfterValue(key: FlagName, val: bool, e: string): (r: Option<HintOption>)
    ensures r.Some? ==> |r.value.tail| < |e|
  {
    match Expect(e, ")")
    case None => None
    case Some(f0) =>
      var f := TrimStart(f0);
      if NoLineTerminator(f) then Some(HintOption(key, val, f)) else None
  }

  datatype Flags = Flags(hidden: bool, strict: bool)

  function SetFlag(f: Flags, key: FlagName, val: bool): Flags {
    match key
    case HiddenFlag => f.(hidden := val)
    case StrictFlag => f.(strict := val)
  }

  /** The flags after reading every option prefix, and the text left behind them. */
  ghost function ApplyOptions(f: Flags, rest: string): (Flags, string)
    decreases |rest|
  {
    match OptionPrefix(rest)
    case None => (f, rest)
    case Some(o) => ApplyOptions(SetFlag(f, o.key, o.val), o.tail)
  }

  /** The option loop of `extractHints`: flags start false, each prefix read sets one. */
  method ReadOptions(arg: string) returns (flags: Flags, rest: string)
    ensures (flags, rest) == ApplyOptions(Flags(false, false), arg)
  {
    var hidden := false;
    var strict := false;
    rest := arg;
    while true
      invariant ApplyOptions(Flags(hidden, strict), rest) == ApplyOptions(Flags(false, false), arg)
      decreases |rest|
    {
      var optMatch := OptionPrefix(rest);
      if optMatch.None? {
        break;
      }
      if optMatch.value.key == HiddenFlag {
        hidden := optMatch.value.val;
      }
      if optMatch.value.key == StrictFlag {
        strict := optMatch.value.val;
      }
      rest := optMatch.value.tail;
    }
    flags := Flags(hidden, strict);
  }

  /**
   * What line `i` contributes to the hints: a Hint line whose argument (after its options)
   * is a string literal yields one hint; a literal left open takes the following lines up to
   * the one that closes it. The second component is the line the scan resumes at.
   */
  ghost function HintAt(ls: seq<string>, i: nat): (r: (Option<Hint>, nat))
    requires i < |ls|
    ensures i < r.1 <= |ls|
    ensures r.0.Some? ==> HintArgument(ls[i]).Some?
    ensures r.0.None? ==> r.1 == i + 1
  {
    match HintArgument(ls[i])
    case None => (None, i + 1)
    case Some(arg) =>
      var opts := ApplyOptions(Flags(false, false), arg);
      LiteralHint(ls, i, opts.0, TrimStart(opts.1))
  }

  /** The hint of a Hint line whose text after the options is `rest`. */
  ghost function LiteralHint(ls: seq<string>, i: nat, flags: Flags, rest: string): (r: (Option<Hint>, nat))
    requires i < |ls|
    ensures i < r.1 <= |ls|
    ensures r.0.None? ==> r.1 == i + 1
  {
    if !StartsWith(rest, "\"") then (None, i + 1)
    else match CloseSingle(rest[1..])
      case Some(v) => (Some(Hint(v, flags.hidden, flags.strict)), i + 1)
      case None =>
        var k := FirstClosing(ls, i + 1);
        (Some(Hint(OpenStringValue(ls, i + 1, rest[1..]), flags.hidden, flags.strict)),
         if k < |ls| then k + 1 else |ls|)
  }

  /** The hints of `ls[i..]`, in line order. */
  ghost function HintsFrom(ls: seq<string>, i: nat): seq<Hint>
    decreases |ls| - i
  {
    if i >= |ls| then []
    else
      var (h, next) := HintAt(ls, i);
      (if h.Some? then [h.value] else []) + HintsFrom(ls, next)
  }

  /** One turn of the loop of `extractHints`. */
  method ReadHint(ls: seq<string>, i: nat) returns (h: Option<Hint>, next: nat)
    requires i < |ls|
    ensures (h, next) == HintAt(ls, i)
  {
    var hintMatch := HintArgument(ls[i]);
    if hintMatch.None? {
      return None, i + 1;
    }
    var flags, rest := ReadOptions(hintMatch.value);
    h, next := ReadLiteralHint(ls, i, flags, TrimStart(rest));
  }

  /** The string-literal part of a turn of the loop of `extractHints`. */
  method ReadLiteralHint(ls: seq<string>, i: nat, flags: Flags, rest: string) returns (h: Option<Hint>, next: nat)
    requires i < |ls|
    ensures (h, next) == LiteralHint(ls, i, flags, rest)
  {
    if !StartsWith(rest, "\"") {
      return None, i + 1;
    }
    var afterQuote := rest[1..];
    var single := TryCloseSingleLine(afterQuote);
    if single.Some? {
      return Some(Hint(single.value, flags.hidden, flags.strict)), i + 1;
    }
    var value, closeIdx := ReadOpenString(ls, i + 1, afterQuote);
    h := Some(Hint(value, flags.hidden, flags.strict));
    next := if closeIdx < |ls| then closeIdx + 1 else |ls|;
  }

  lemma HintsFromStep(ls: seq<string>, i: nat)
    requires i < |ls|
    ensures HintsFrom(ls, i) == (if HintAt(ls, i).0.Some? then [HintAt(ls, i).0.value] else []) + HintsFrom(ls, HintAt(ls, i).1)
  {
  }

  /** `extractHints`: the hints of the proof lines, in order. */
  method ExtractHints(proofLines: seq<string>) returns (hints: seq<Hint>)
    ensures hints == HintsFrom(proofLines, 0)
  {
    hints := [];
    var i := 0;
    ConcatEmpty(HintsFrom(proofLines, 0));
    while i < |proofLines|
      invariant 0 <= i <= |proofLines|
      invariant hints + HintsFrom(proofLines, i) == HintsFrom(proofLines, 0)
    {
      var h, next := ReadHint(proofLines, i);
      HintsFromStep(proofLines, i);
      if h.Some? {
        ConcatAssoc(hints, [h.value], HintsFrom(proofLines, next));
        hints := hints + [h.value];
      } else {
        ConcatEmpty(HintsFrom(proofLines, next));
      }
      i := next;
    }
  }

  /** A line the Hint pattern matches. */
  predicate IsHintLine(line: string) {
    HintArgument(line).Some?
  }

  /** Number of lines of `ls[i..]` that satisfy `p`. */
  function CountLines(p: string -> bool, ls: seq<string>, i: nat): nat
    decreases |ls| - i
  {
    if i >= |ls| then 0
    else (if p(ls[i]) then 1 else 0) + CountLines(p, ls, i + 1)
  }

  /** Number of lines of `ls[i..]` that match the Hint pattern. */
  function HintLineCount(ls: seq<string>, i: nat): nat {
    CountLines(IsHintLine, ls, i)
  }

  lemma {:induction false} CountLinesMonotone(p: string -> bool, ls: seq<string>, i: nat, j: nat)
    requires i <= j
    ensures CountLines(p, ls, j) <= CountLines(p, ls, i)
    decreases j - i
  {
    if i < j {
      CountLinesMonotone(p, ls, i + 1, j);
    }
  }

  /** Every hint comes from its own Hint line, so there are never more hints than Hint lines. */
  lemma {:induction false} HintsBoundedByHintLines(ls: seq<string>, i: nat)
    ensures |HintsFrom(ls, i)| <= HintLineCount(ls, i)
    decreases |ls| - i
  {
    if i < |ls| {
      var (h, next) := HintAt(ls, i);
      HintsBoundedByHintLines(ls, next);
      CountLinesMonotone(IsHintLine, ls, i + 1, next);
      assert CountLines(IsHintLine, ls, i) == (if IsHintLine(ls[i]) then 1 else 0) + CountLines(IsHintLine, ls, i + 1);
      assert h.Some? ==> IsHintLine(ls[i]);
      assert HintsFrom(ls, i) == (if h.Some? then [h.value] else []) + HintsFrom(ls, next);
    }
  }

  /** Writes one hint option as it appears in a level file, then a space and `rest`. */
  function OptionTextThen(key: FlagName, val: bool, rest: string): string {
    "(" + (FlagText(key) + (" " + (":=" + (" " + (BoolText(val) + (")" + (" " + rest)))))))
  }

  /** Writes a list of hint options, then `rest`. */
  function OptionsTextThen(opts: seq<(FlagName, bool)>, rest: string): string
    decreases |opts|
  {
    if |opts| == 0 then rest
    else OptionTextThen(opts[0].0, opts[0].1, OptionsTextThen(opts[1..], rest))
  }

  /** Later options override earlier ones. */
  function FoldOptions(f: Flags, opts: seq<(FlagName, bool)>): Flags
    decreases |opts|
  {
    if |opts| == 0 then f else FoldOptions(SetFlag(f, opts[0].0, opts[0].1), opts[1..])
  }

  lemma ExpectAfterIndent(w: string, lit: string, tail: string)
    requires AllSpace(w) && |lit| > 0 && !IsSpace(lit[0])
    ensures Expect(w + (lit + tail), lit) == Some(tail)
  {
    TrimStartOfSpaces(w, lit + tail);
    StartsWithConcat(lit, tail);
    SliceAfterPrefix(lit, tail);
  }

  lemma ExpectAt(lit: string, tail: string)
    requires |lit| > 0 && !IsSpace(lit[0])
    ensures Expect(lit + tail, lit) == Some(tail)
  {
    TrimStartNoSpace(lit + tail);
    StartsWithConcat(lit, tail);
    SliceAfterPrefix(lit, tail);
  }

  lemma ExpectAfterSpace(lit: string, tail: string)
    requires |lit| > 0 && !IsSpace(lit[0])
    ensures Expect(" " + (lit + tail), lit) == Some(tail)
  {
    SliceAfterPrefix(" ", lit + tail);
    ExpectAt(lit, tail);
  }

  lemma KeyAt(key: FlagName, tail: string)
    ensures OptionKey(FlagText(key) + tail) == Some((key, tail))
  {
    match key
    case HiddenFlag => ExpectAt("hidden", tail);
    case StrictFlag =>
      ExpectAt("strict", tail);
      TrimStartNoSpace("strict" + tail);
      assert ("strict" + tail)[0] == 's';
  }

  lemma BoolAfterSpace(val: bool, tail: string)
    ensures OptionBool(" " + (BoolText(val) + tail)) == Some((val, tail))
  {
    if val {
      ExpectAfterSpace("true", tail);
    } else {
      ExpectAfterSpace("false", tail);
      SliceAfterPrefix(" ", "false" + tail);
      TrimStartNoSpace("false" + tail);
      assert ("false" + tail)[0] == 'f';
    }
  }

  /** One written option is recognised with its key and value. */
  lemma OptionPrefixOfText(key: FlagName, val: bool, rest: string)
    requires NoLineTerminator(rest)
    ensures OptionPrefix(OptionTextThen(key, val, rest)) == Some(HintOption(key, val, TrimStart(rest)))
  {
    var e := ")" + (" " + rest);
    var d := " " + (BoolText(val) + e);
    var c := " " + (":=" + d);
    OptionValueOfText(key, val, rest);
    AssignOfText(key, val, e);
    KeySepOfText(key, d);
    ParenOfText(key, c);
  }

  lemma OptionValueOfText(key: FlagName, val: bool, rest: string)
    requires NoLineTerminator(rest)
    ensures OptionAfterValue(key, val, ")" + (" " + rest)) == Some(HintOption(key, val, TrimStart(rest)))
  {
    ExpectAt(")", " " + rest);
    TrimStartOfSpace(rest);
  }

  lemma AssignOfText(key: FlagName, val: bool, e: string)
    ensures OptionAfterAssign(key, " " + (BoolText(val) + e)) == OptionAfterValue(key, val, e)
  {
    BoolAfterSpace(val, e);
  }

  lemma KeySepOfText(key: FlagName, d: string)
    ensures OptionAfterKey(key, " " + (":=" + d)) == OptionAfterAssign(key, d)
  {
    ExpectAfterSpace(":=", d);
  }

  lemma ParenOfText(key: FlagName, c: string)
    ensures OptionPrefix("(" + (FlagText(key) + c)) == OptionAfterKey(key, c)
  {
    KeyAt(key, c);
    ExpectAt("(", FlagText(key) + c);
  }

  lemma OptionTextNoTerminator(key: FlagName, val: bool, rest: string)
    requires NoLineTerminator(rest)
    ensures NoLineTerminator(OptionTextThen(key, val, rest))
  {
    var e := ")" + (" " + rest);
    NoLineTerminatorConcat(" ", rest);
    NoLineTerminatorConcat(")", " " + rest);
    NoLineTerminatorConcat(BoolText(val), e);
    NoLineTerminatorConcat(" ", BoolText(val) + e);
    NoLineTerminatorConcat(":=", " " + (BoolText(val) + e));
    NoLineTerminatorConcat(" ", ":=" + (" " + (BoolText(val) + e)));
    NoLineTerminatorConcat(FlagText(key), " " + (":=" + (" " + (BoolText(val) + e))));
    NoLineTerminatorConcat("(", FlagText(key) + (" " + (":=" + (" " + (BoolText(val) + e)))));
  }

  lemma {:induction false} OptionsTextNoTerminator(opts: seq<(FlagName, bool)>, rest: string)
    requires NoLineTerminator(rest)
    ensures NoLineTerminator(OptionsTextThen(opts, rest))
    decreases |opts|
  {
    if |opts| > 0 {
      OptionsTextNoTerminator(opts[1..], rest);
      OptionTextNoTerminator(opts[0].0, opts[0].1, OptionsTextThen(opts[1..], rest));
    }
  }

  /** Written options start with `(`, which is not whitespace. */
  lemma OptionsTextStart(opts: seq<(FlagName, bool)>, rest: string)
    requires |rest| == 0 || !IsSpace(rest[0])
    ensures var s := OptionsTextThen(opts, rest); |s| == 0 || !IsSpace(s[0])
  {
  }

  /**
   * `(hidden|strict := true|false)` prefixes set the flags in order, the later winning, and
   * leave the text behind them; a flag no option names keeps its value.
   */
  lemma {:induction false} ApplyOptionsOfText(f: Flags, opts: seq<(FlagName, bool)>, rest: string)
    requires NoLineTerminator(rest) && (|rest| == 0 || !IsSpace(rest[0])) && OptionPrefix(rest).None?
    ensures ApplyOptions(f, OptionsTextThen(opts, rest)) == (FoldOptions(f, opts), rest)
    decreases |opts|
  {
    if |opts| > 0 {
      var tail := OptionsTextThen(opts[1..], rest);
      OptionsTextNoTerminator(opts[1..], rest);
      OptionPrefixOfText(opts[0].0, opts[0].1, tail);
      OptionsTextStart(opts[1..], rest);
      TrimStartNoSpace(tail);
      ApplyOptionsOfText(SetFlag(f, opts[0].0, opts[0].1), opts[1..], rest);
    }
  }

  lemma {:induction false} EscapeNoTerminator(v: string)
    requires NoLineTerminator(v)
    ensures NoLineTerminator(Escape(v))
    decreases |v|
  {
    if |v| > 0 {
      EscapeNoTerminator(v[1..]);
      NoLineTerminatorConcat(if v[0] == '"' || v[0] == '\\' then ['\\', v[0]] else [v[0]], Escape(v[1..]));
    }
  }

  /** The text `Hint` and a space after indentation, then `arg`, gives `arg` as the argument. */
  lemma HintArgumentOf(indent: string, arg: string)
    requires AllSpace(indent) && NoLineTerminator(arg) && (|arg| == 0 || !IsSpace(arg[0]))
    ensures HintArgument(indent + ("Hint" + (" " + arg))) == Some(arg)
  {
    ExpectAfterIndent(indent, "Hint", " " + arg);
    TrimStartOfSpace(arg);
    TrimStartNoSpace(arg);
    HintArgumentFrom(indent + ("Hint" + (" " + arg)), " " + arg, arg);
  }

  lemma HintArgumentFrom(line: string, r0: string, a: string)
    requires Expect(line, "Hint") == Some(r0) && TrimStart(r0) == a && NoLineTerminator(a)
    ensures HintArgument(line) == Some(a)
  {
  }

  /** A string literal holding `v`, as a level file writes it. */
  function Quoted(v: string): string {
    "\"" + (Escape(v) + "\"")
  }

  /** A quoted escaped value is not an option and reads back as the value. */
  lemma QuotedLiteral(v: string)
    requires NoLineTerminator(v)
    ensures var lit := Quoted(v);
      && NoLineTerminator(lit) && !IsSpace(lit[0]) && OptionPrefix(lit).None?
      && TrimStart(lit) == lit && StartsWith(lit, "\"")
      && CloseSingle(lit[1..]) == Some(v)
  {
    var lit := Quoted(v);
    EscapeNoTerminator(v);
    NoLineTerminatorConcat(Escape(v), "\"");
    NoLineTerminatorConcat("\"", Escape(v) + "\"");
    TrimStartNoSpace(lit);
    SliceAfterPrefix("\"", Escape(v) + "\"");
    CloseSingleOfEscaped(v, "");
    ConcatEmptyRight(Escape(v) + "\"");
  }

  /** A Hint line as a level file writes it: indentation, `Hint`, options, a literal. */
  function HintLine(indent: string, opts: seq<(FlagName, bool)>, v: string): string {
    indent + ("Hint" + (" " + OptionsTextThen(opts, Quoted(v))))
  }

  /**
   * A one-line Hint with option prefixes and an escaped literal yields exactly one hint: the
   * literal's value, with the flags the options set (false where none is given).
   */
  lemma HintLineRoundTrip(indent: string, opts: seq<(FlagName, bool)>, v: string)
    requires AllSpace(indent) && NoLineTerminator(v)
    ensures var f := FoldOptions(Flags(false, false), opts);
      HintsFrom([HintLine(indent, opts, v)], 0) == [Hint(v, f.hidden, f.strict)]
  {
    var lit := Quoted(v);
    var arg := OptionsTextThen(opts, lit);
    var ls := [HintLine(indent, opts, v)];
    QuotedLiteral(v);
    OptionsTextNoTerminator(opts, lit);
    OptionsTextStart(opts, lit);
    HintArgumentOf(indent, arg);
    ApplyOptionsOfText(Flags(false, false), opts, lit);
    var f := FoldOptions(Flags(false, false), opts);
    assert LiteralHint(ls, 0, f, lit) == (Some(Hint(v, f.hidden, f.strict)), 1);
  }

  // ─── Statement block ──────────────────────────────────────────────────────

  /** The first line at or after `from` that satisfies `p`, or `|lines|`. */
  ghost function FirstLine(p: string -> bool, lines: seq<string>, from: nat): (r: nat)
    requires from <= |lines|
    ensures from <= r <= |lines|
    ensures r < |lines| ==> p(lines[r])
    ensures forall j :: from <= j < r ==> !p(lines[j])
    decreases |lines| - from
  {
    if from == |lines| then from
    else if p(lines[from]) then from
    else FirstLine(p, lines, from + 1)
  }

  /** A line satisfying `p`, with none before it from `from`, is the first such line. */
  lemma {:induction false} FirstLineAt(p: string -> bool, lines: seq<string>, from: nat, i: nat)
    requires from <= i <= |lines|
    requires i < |lines| ==> p(lines[i])
    requires forall j :: from <= j < i ==> !p(lines[j])
    ensures FirstLine(p, lines, from) == i
    decreases i - from
  {
    if from < i {
      FirstLineAt(p, lines, from + 1, i);
    }
  }

  /** A line that ends the signature: it contains `:= by`. */
  predicate EndsSignature(line: string) {
    Contains(line, ":= by")
  }

  /** A line that ends a proof body: a column-0 top-level keyword line or a new doc comment. */
  predicate EndsProof(line: string) {
    (|line| > 0 && line[0] != ' ' && line[0] != '\t' && IsTopLevelKeyword(line))
    || StartsWith(line, "/--")
  }

  /** The first line at or after `from` that contains `:= by`, or `|lines|`. */
  ghost function SigEnd(lines: seq<string>, from: nat): nat
    requires from <= |lines|
  {
    FirstLine(EndsSignature, lines, from)
  }

  /** The first line at or after `from` that ends a proof body, or `|lines|`. */
  ghost function ProofEnd(lines: seq<string>, from: nat): nat
    requires from <= |lines|
  {
    FirstLine(EndsProof, lines, from)
  }

  datatype StatementResult = StatementResult(signature: string, proofLines: seq<string>, endIdx: nat)

  /**
   * What `extractStatementAndProof(lines, startIdx)` returns. The signature is the lines from
   * `startIdx` through the first one containing `:= by`, joined with newlines; the proof body
   * is the lines after it up to, not including, the first line that ends a proof body;
   * `endIdx` is the last line consumed (|lines| when no line contains `:= by`).
   */
  ghost function StatementBlock(lines: seq<string>, startIdx: nat): StatementResult
    requires startIdx < |lines|
  {
    var s := SigEnd(lines, startIdx);
    var sig := Join(lines[startIdx..if s < |lines| then s + 1 else |lines|], "\n");
    if s < |lines| then
      var e := ProofEnd(lines, s + 1);
      StatementResult(sig, lines[s + 1..e], e - 1)
    else StatementResult(sig, [], |lines|)
  }

  /** What the statement block holds, in terms of the first `:= by` line and the first line ending the body. */
  lemma StatementBlockMeaning(lines: seq<string>, startIdx: nat)
    requires startIdx < |lines|
    ensures var r := StatementBlock(lines, startIdx);
      && startIdx <= r.endIdx <= |lines|
      && r.signature == Join(lines[startIdx..if SigEnd(lines, startIdx) < |lines| then SigEnd(lines, startIdx) + 1 else |lines|], "\n")
      && (SigEnd(lines, startIdx) == |lines| ==> r.proofLines == [] && r.endIdx == |lines|)
      && (SigEnd(lines, startIdx) < |lines| ==>
        && SigEnd(lines, startIdx) <= r.endIdx < |lines|
        && r.proofLines == lines[SigEnd(lines, startIdx) + 1..r.endIdx + 1]
        && (forall j :: 0 <= j < |r.proofLines| ==> !EndsProof(r.proofLines[j]))
        && (r.endIdx + 1 < |lines| ==> EndsProof(lines[r.endIdx + 1])))
  {
  }

  lemma ContainsOfTrimmedEnd(line: string, p: string)
    requires EndsWith(TrimEnd(line), p)
    ensures Contains(line, p)
  {
    EndsWithContains(TrimEnd(line), p);
    assert line == TrimEnd(line) + line[|TrimEnd(line)|..];
    ContainsPrefix(TrimEnd(line), line[|TrimEnd(line)|..], p);
  }

  /** The signature loop of `extractStatementAndProof`. */
  method ReadSignature(lines: seq<string>, startIdx: nat) returns (sigLines: seq<string>, s: nat)
    requires startIdx < |lines|
    ensures s == SigEnd(lines, startIdx)
    ensures sigLines == lines[startIdx..if s < |lines| then s + 1 else |lines|]
  {
    sigLines := [];
    var i := startIdx;
    while i < |lines|
      invariant startIdx <= i <= |lines|
      invariant sigLines == lines[startIdx..i]
      invariant forall j :: startIdx <= j < i ==> !EndsSignature(lines[j])
    {
      sigLines := sigLines + [lines[i]];
      var stop := SignatureEnds(lines[i]);
      if stop {
        break;
      }
      i := i + 1;
    }
    s := i;
    FirstLineAt(EndsSignature, lines, startIdx, s);
  }

  /** The two tests of the signature loop: the trimmed line ends in `:= by`, or holds it. */
  method SignatureEnds(line: string) returns (b: bool)
    ensures b == EndsSignature(line)
  {
    if EndsWith(TrimEnd(line), ":= by") {
      ContainsOfTrimmedEnd(line, ":= by");
      return true;
    }
    if Contains(line, ":= by") {
      return true;
    }
    return false;
  }

  /**
   * The proof-body loop of `extractStatementAndProof`, from line `from`, which is one past
   * the end of the file when no line holds `:= by`.
   */
  method ReadProofBody(lines: seq<string>, from: nat) returns (proofLines: seq<string>, i: nat)
    requires from <= |lines| + 1
    ensures from <= |lines| ==> i == ProofEnd(lines, from) && proofLines == lines[from..i]
    ensures from == |lines| + 1 ==> i == from && proofLines == []
  {
    proofLines := [];
    i := from;
    while i < |lines|
      invariant from <= i
      invariant from <= |lines| ==> i <= |lines| && proofLines == lines[from..i]
      invariant from == |lines| + 1 ==> i == from && proofLines == []
      invariant forall j :: from <= j < i ==> !EndsProof(lines[j])
    {
      var stop := EndsBody(lines[i]);
      if stop {
        break;
      }
      proofLines := proofLines + [lines[i]];
      i := i + 1;
    }
    if from <= |lines| {
      FirstLineAt(EndsProof, lines, from, i);
    }
  }

  /** The two tests of the proof-body loop: an unindented top-level keyword, or a docstring. */
  method EndsBody(line: string) returns (b: bool)
    ensures b == EndsProof(line)
  {
    if |line| > 0 && line[0] != ' ' && line[0] != '\t' && IsTopLevelKeyword(line) {
      return true;
    }
    if StartsWith(line, "/--") {
      return true;
    }
    return false;
  }

  /** `extractStatementAndProof`: the signature, then the proof body. */
  method ExtractStatementAndProof(lines: seq<string>, startIdx: nat) returns (r: StatementResult)
    requires startIdx < |lines|
    ensures r == StatementBlock(lines, startIdx)
  {
    var sigLines, s := ReadSignature(lines, startIdx);
    var signature := Join(sigLines, "\n");
    var proofLines, e := ReadProofBody(lines, s + 1);
    return StatementResult(signature, proofLines, e - 1);
  }
}
