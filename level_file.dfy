/**
 * `parseLevelFile`: one pass over the lines of a level file that records the World, Level,
 * Title, Introduction and Conclusion values, the doc comment in front of the `Statement`,
 * the statement's signature and the hints of its proof body.
 */
module LevelFile {
  import opened Opt
  import opened Strings
  import opened GameTypes
  import opened LevelParser

  // ─── Doc comments ─────────────────────────────────────────────────────────

  /**
   * `raw.replace(/^\/--\s?/, '').replace(/-\/$/, '').trim()`: the opening marker and one
   * whitespace character after it, then the closing marker, then surrounding whitespace.
   */
  function StripDocMarkers(raw: string): string {
    var a :=
      if StartsWith(raw, "/--") then
        var b := raw[3..];
        if |b| > 0 && IsSpace(b[0]) then b[1..] else b
      else raw;
    var c := if EndsWith(a, "-/") then a[..|a| - 2] else a;
    Trim(c)
  }

  /**
   * The doc-comment text as the source computes it, from the lines joined untrimmed; this is
   * the definition the scanner below uses.
   */
  function DocTextAsWritten(docLines: seq<string>): string {
    StripDocMarkers(Join(docLines, "\n"))
  }

  /**
   * The intended doc-comment text: the markers removed from the comment itself, wherever it
   * is indented.
   */
  function DocText(docLines: seq<string>): string {
    StripDocMarkers(TrimStart(Join(docLines, "\n")))
  }

  /** A comment whose first line starts at column 0 reads the same both ways. */
  lemma DocTextAgrees(docLines: seq<string>)
    requires |docLines| > 0 && |docLines[0]| > 0 && !IsSpace(docLines[0][0])
    ensures DocTextAsWritten(docLines) == DocText(docLines)
  {
    JoinHead(docLines, "\n");
    var s := Join(docLines, "\n");
    assert s[0] == s[..|docLines[0]|][0] == docLines[0][0];
    TrimStartNoSpace(s);
  }

  /** A Lean doc comment `/-- body-/` written after indentation `w`. */
  function DocComment(w: string, body: string): string {
    w + ("/--" + (" " + (body + "-/")))
  }

  lemma DocCommentShape(w: string, body: string)
    requires AllSpace(w)
    ensures TrimStart(DocComment(w, body)) == "/--" + (" " + (body + "-/"))
    ensures Join([DocComment(w, body)], "\n") == DocComment(w, body)
  {
    TrimStartOfSpaces(w, "/--" + (" " + (body + "-/")));
  }

  lemma StripDocComment(body: string)
    ensures StripDocMarkers("/--" + (" " + (body + "-/"))) == Trim(body)
  {
    var raw := "/--" + (" " + (body + "-/"));
    StartsWithConcat("/--", " " + (body + "-/"));
    SliceAfterPrefix("/--", " " + (body + "-/"));
    SliceAfterPrefix(" ", body + "-/");
    EndsWithConcat(body, "-/");
  }

  /** The corrected text of a one-line doc comment is its body, however it is indented. */
  lemma DocTextOfComment(w: string, body: string)
    requires AllSpace(w)
    ensures DocText([DocComment(w, body)]) == Trim(body)
  {
    DocCommentShape(w, body);
    StripDocComment(body);
  }

  /**
   * As written, an indented doc comment keeps its opening marker: the `^\/--` pattern is
   * matched against the untrimmed text, which starts with the indentation.
   */
  lemma DocTextAsWrittenKeepsMarker(w: string, body: string)
    requires AllSpace(w) && |w| > 0
    ensures StartsWith(DocTextAsWritten([DocComment(w, body)]), "/--")
  {
    var s := DocComment(w, body);
    DocCommentShape(w, body);
    assert !StartsWith(s, "/--") by {
      assert s[0] == w[0];
    }
    var rest := "/--" + (" " + body);
    assert s == (w + rest) + "-/" by {
      ConcatAssoc(w, rest, "-/");
      assert "/--" + (" " + (body + "-/")) == rest + "-/";
    }
    SliceBeforeSuffix(w + rest, "-/");
    EndsWithConcat(w + rest, "-/");
    assert w + rest == w + ("/--" + (" " + body));
    TrimStartOfSpaces(w, rest);
    TrimEndKeepsPrefix("/--", " " + body);
  }

  /** The indented doc comment `  /-- Doc -/`, as written, keeps its opening marker. */
  lemma IndentedDocAsWritten()
    ensures StartsWith(DocTextAsWritten(["  /-- Doc -/"]), "/--")
  {
    assert DocComment("  ", "Doc ") == "  /-- Doc -/";
    DocTextAsWrittenKeepsMarker("  ", "Doc ");
  }

  /** Corrected, the indented doc comment `  /-- Doc -/` reads `Doc`. */
  lemma IndentedDocFixed()
    ensures DocText(["  /-- Doc -/"]) == "Doc"
  {
    assert DocComment("  ", "Doc ") == "  /-- Doc -/";
    DocTextOfComment("  ", "Doc ");
    TrimOfDoc();
  }

  lemma TrimOfDoc()
    ensures Trim("Doc ") == "Doc"
  {
    assert "Doc " == "Doc" + " ";
    TrimOfWord("Doc", " ");
  }

  // ─── Line classification ──────────────────────────────────────────────────

  /** `trimmed.startsWith('Statement') && (trimmed.length === 9 || /^Statement[\s(:]/.test(trimmed))`. */
  predicate IsStatementLine(line: string) {
    var t := Trim(line);
    StartsWith(t, "Statement") && (|t| == 9 || IsSpace(t[9]) || t[9] == '(' || t[9] == ':')
  }

  /** A blank line or a `--` comment: the scan passes it and keeps a pending doc comment. */
  predicate Ignorable(line: string) {
    var t := Trim(line);
    t == "" || (StartsWith(t, "--") && !StartsWith(t, "/--"))
  }

  predicate OpensDoc(line: string) {
    StartsWith(Trim(line), "/--")
  }

  // ─── parseInt ─────────────────────────────────────────────────────────────

  predicate IsDigit(c: char) {
    '0' <= c <= '9'
  }

  function DigitOf(c: char): nat
    requires IsDigit(c)
  {
    c as int - '0' as int
  }

  /** The longest prefix of `s` made of decimal digits. */
  function DigitRun(s: string): (r: string)
    ensures |r| <= |s| && r == s[..|r|]
    ensures forall i :: 0 <= i < |r| ==> IsDigit(r[i])
    ensures |r| < |s| ==> !IsDigit(s[|r|])
  {
    if |s| > 0 && IsDigit(s[0]) then [s[0]] + DigitRun(s[1..]) else ""
  }

  /** The value of a string of decimal digits. */
  function DigitsValue(ds: string): nat
    requires forall i :: 0 <= i < |ds| ==> IsDigit(ds[i])
  {
    if |ds| == 0 then 0 else DigitsValue(ds[..|ds| - 1]) * 10 + DigitOf(ds[|ds| - 1])
  }

  /** The value of the leading digits of `s`, if it has any. */
  function ParseDigits(s: string): Option<nat> {
    var ds := DigitRun(s);
    if |ds| == 0 then None else Some(DigitsValue(ds))
  }

  /**
   * `parseInt(s, 10)`: leading whitespace, an optional sign, then the longest run of digits;
   * `None` (NaN) when there is no digit.
   */
  function ParseInt10(s: string): Option<int> {
    var t := TrimStart(s);
    if |t| > 0 && t[0] == '-' then
      (match ParseDigits(t[1..]) case None => None case Some(n) => Some(-(n as int)))
    else if |t| > 0 && t[0] == '+' then
      (match ParseDigits(t[1..]) case None => None case Some(n) => Some(n as int))
    else
      (match ParseDigits(t) case None => None case Some(n) => Some(n as int))
  }

  /** The decimal numeral of `n`, as JavaScript prints a non-negative integer. */
  function DecimalText(n: nat): (r: string)
    ensures |r| > 0 && forall i :: 0 <= i < |r| ==> IsDigit(r[i])
  {
    if n < 10 then [('0' as int + n) as char]
    else DecimalText(n / 10) + [('0' as int + n % 10) as char]
  }

  lemma {:induction false} DigitsValueOfDecimal(n: nat)
    ensures DigitsValue(DecimalText(n)) == n
  {
    if n >= 10 {
      var r := DecimalText(n);
      DigitsValueOfDecimal(n / 10);
      assert r[..|r| - 1] == DecimalText(n / 10);
    }
  }

  lemma {:induction false} DigitRunOfPrefix(d: string, tail: string)
    requires forall i :: 0 <= i < |d| ==> IsDigit(d[i])
    requires |tail| == 0 || !IsDigit(tail[0])
    ensures DigitRun(d + tail) == d
    decreases |d|
  {
    if |d| > 0 {
      assert (d + tail)[1..] == d[1..] + tail;
      DigitRunOfPrefix(d[1..], tail);
      assert d == [d[0]] + d[1..];
    } else {
      ConcatEmpty(tail);
    }
  }

  lemma ParseDigitsOfDecimal(n: nat, tail: string)
    requires |tail| == 0 || !IsDigit(tail[0])
    ensures ParseDigits(DecimalText(n) + tail) == Some(n)
  {
    DigitRunOfPrefix(DecimalText(n), tail);
    DigitsValueOfDecimal(n);
  }

  /** Text after the digits does not change the number: `parseInt('12abc', 10) === 12`. */
  lemma ParseInt10IgnoresSuffix(n: nat, tail: string)
    requires |tail| == 0 || !IsDigit(tail[0])
    ensures ParseInt10(DecimalText(n) + tail) == Some(n)
  {
    var s := DecimalText(n) + tail;
    assert IsDigit(s[0]);
    TrimStartNoSpace(s);
    ParseDigitsOfDecimal(n, tail);
  }

  /** `parseInt(String(n), 10) === n`: reading back a printed level number. */
  lemma ParseInt10OfDecimal(n: nat)
    ensures ParseInt10(DecimalText(n)) == Some(n)
  {
    ParseInt10IgnoresSuffix(n, "");
    ConcatEmptyRight(DecimalText(n));
  }

  /** `parseInt('-' + String(n), 10) === -n`. */
  lemma ParseInt10OfNegative(n: nat)
    ensures ParseInt10("-" + DecimalText(n)) == Some(-(n as int))
  {
    var d := DecimalText(n);
    var s := "-" + d;
    TrimStartNoSpace(s);
    SliceAfterPrefix("-", d);
    DigitRunOfPrefix(d, "");
    ConcatEmptyRight(d);
    DigitsValueOfDecimal(n);
  }

  // ─── What each field comes from ───────────────────────────────────────────

  /** The four string-valued keywords. */
  datatype TextField = WorldField | TitleField | IntroductionField | ConclusionField

  function Keyword(f: TextField): (r: string)
    ensures |r| > 0 && r[0] != 'S' && r[0] != '-' && r[0] != '/'
  {
    match f
    case WorldField => "World "
    case TitleField => "Title "
    case IntroductionField => "Introduction "
    case ConclusionField => "Conclusion "
  }

  /** The value the string of a keyword line at `k` yields, read from its trimmed text. */
  ghost function KeywordString(lines: seq<string>, k: nat, f: TextField): Option<string>
    requires k < |lines|
  {
    var t := Trim(lines[k]);
    if StartsWith(t, Keyword(f)) then LeanString(lines, k, t[|Keyword(f)|..]).value else None
  }

  /** `v` is the default "" or the string of some keyword line. */
  ghost predicate FromKeyword(lines: seq<string>, f: TextField, v: string) {
    v == "" || exists k :: 0 <= k < |lines| && KeywordString(lines, k, f) == Some(v)
  }

  /** The number a `Level` line gives, if `parseInt` finds one. */
  function LevelNumber(line: string): Option<int> {
    var t := Trim(line);
    if StartsWith(t, "Level ") then ParseInt10(Trim(t[6..])) else None
  }

  ghost predicate FromLevelLine(lines: seq<string>, n: int) {
    n == 0 || exists k :: 0 <= k < |lines| && LevelNumber(lines[k]) == Some(n)
  }

  /**
   * `doc` is the text of a doc comment on lines `d..e`, followed before line `i` only by
   * blank lines and `--` comments.
   */
  ghost predicate DocSpan(lines: seq<string>, d: int, e: int, i: int, doc: string) {
    && 0 <= d <= e < i && e < |lines| && OpensDoc(lines[d])
    && doc == DocTextAsWritten(lines[d..e + 1])
    && forall j :: e < j < i && j < |lines| ==> Ignorable(lines[j])
  }

  ghost predicate DocBefore(lines: seq<string>, i: int, doc: string) {
    exists d, e :: DocSpan(lines, d, e, i, doc)
  }

  /**
   * Line `k` is a `Statement` line whose block gives `sig` and `hints`, and `doc` is empty or
   * the doc comment in front of it.
   */
  ghost predicate StatementAt(lines: seq<string>, k: int, sig: string, hints: seq<Hint>, doc: string) {
    && 0 <= k < |lines| && IsStatementLine(lines[k])
    && sig == StatementBlock(lines, k).signature
    && hints == HintsFrom(StatementBlock(lines, k).proofLines, 0)
    && (doc == "" || DocBefore(lines, k, doc))
  }

  /** Where each field of a parsed level comes from. */
  ghost predicate LevelFrom(lines: seq<string>, d: LevelData) {
    && FromKeyword(lines, WorldField, d.world)
    && FromKeyword(lines, TitleField, d.title)
    && FromKeyword(lines, IntroductionField, d.introduction)
    && FromKeyword(lines, ConclusionField, d.conclusion)
    && FromLevelLine(lines, d.level)
    && exists k :: StatementAt(lines, k, d.statementSignature, d.hints, d.statementDocstring)
  }

  // ─── Which lines the scan reaches ─────────────────────────────────────────

  /** A keyword line whose string continues on the following lines. */
  ghost predicate OpensBlock(line: string, f: TextField) {
    var t := Trim(line);
    StartsWith(t, Keyword(f)) && OpensMultiLine(t[|Keyword(f)|..])
  }

  /**
   * A line the scan leaves after one step as long as no `Statement` was seen: every line but
   * an unclosed doc comment and a keyword line that opens a multi-line string.
   */
  ghost predicate SingleStep(line: string) {
    && (OpensDoc(line) ==> EndsWith(Trim(line), "-/"))
    && !OpensBlock(line, WorldField) && !OpensBlock(line, TitleField)
    && !OpensBlock(line, IntroductionField) && !OpensBlock(line, ConclusionField)
  }

  /** A `Statement` line at `k` that the scan reaches: every line before it takes one step. */
  ghost predicate ReachableStatement(lines: seq<string>, k: int) {
    0 <= k < |lines| && IsStatementLine(lines[k]) && forall j :: 0 <= j < k ==> SingleStep(lines[j])
  }

  // ─── The scan ─────────────────────────────────────────────────────────────

  datatype ScanState = ScanState(
    world: string, level: int, title: string, introduction: string, conclusion: string,
    statementDocstring: string, statementSignature: string, hints: seq<Hint>,
    hasStatement: bool, pendingDocstring: string)

  const InitialState := ScanState("", 0, "", "", "", "", "", [], false, "")

  function SetField(st: ScanState, f: TextField, v: string): ScanState {
    match f
    case WorldField => st.(world := v)
    case TitleField => st.(title := v)
    case IntroductionField => st.(introduction := v)
    case ConclusionField => st.(conclusion := v)
  }

  /** Every recorded value comes from its line; the pending doc comment is not among them. */
  ghost predicate ValuesFrom(lines: seq<string>, st: ScanState) {
    && FromKeyword(lines, WorldField, st.world)
    && FromKeyword(lines, TitleField, st.title)
    && FromKeyword(lines, IntroductionField, st.introduction)
    && FromKeyword(lines, ConclusionField, st.conclusion)
    && FromLevelLine(lines, st.level)
    && (st.hasStatement ==> exists k :: StatementAt(lines, k, st.statementSignature, st.hints, st.statementDocstring))
  }

  ghost predicate PendingFrom(lines: seq<string>, i: int, pending: string) {
    pending != "" ==> DocBefore(lines, i, pending)
  }

  /** Until a `Statement` is seen, the scan has not passed a reachable `Statement` line. */
  ghost predicate ReachInv(lines: seq<string>, i: int, st: ScanState) {
    forall k :: ReachableStatement(lines, k) ==> st.hasStatement || i <= k
  }

  /** The loop invariant of the scan, at line `i`. */
  ghost predicate ScanInv(lines: seq<string>, i: int, st: ScanState) {
    ValuesFrom(lines, st) && PendingFrom(lines, i, st.pendingDocstring) && ReachInv(lines, i, st)
  }

  lemma ValuesIgnorePending(lines: seq<string>, st: ScanState, p: string)
    requires ValuesFrom(lines, st)
    ensures ValuesFrom(lines, st.(pendingDocstring := p))
  {
  }

  lemma SetFieldValues(lines: seq<string>, st: ScanState, f: TextField, k: nat, v: string)
    requires ValuesFrom(lines, st) && k < |lines| && KeywordString(lines, k, f) == Some(v)
    ensures ValuesFrom(lines, SetField(st, f, v))
  {
  }

  /** A step from a line that is not a `Statement` line keeps `ReachInv`. */
  lemma ReachStep(lines: seq<string>, i: nat, next: nat, st: ScanState, st': ScanState)
    requires ReachInv(lines, i, st) && i < |lines| && i < next
    requires st.hasStatement ==> st'.hasStatement
    requires !IsStatementLine(lines[i]) || st'.hasStatement
    requires SingleStep(lines[i]) ==> next == i + 1
    ensures ReachInv(lines, next, st')
  {
  }

  /** An ignorable line keeps a pending doc comment in front of the scan. */
  lemma DocBeforeIgnorable(lines: seq<string>, i: nat, doc: string)
    requires i < |lines| && Ignorable(lines[i]) && DocBefore(lines, i, doc)
    ensures DocBefore(lines, i + 1, doc)
  {
    var d, e :| DocSpan(lines, d, e, i, doc);
    forall j | e < j < i + 1 && j < |lines|
      ensures Ignorable(lines[j])
    {
      if j < i {
        assert e < j < i && j < |lines|;
      } else {
        assert j == i;
      }
    }
    assert DocSpan(lines, d, e, i + 1, doc);
  }

  /** The keyword prefixes exclude a `Statement` line. */
  lemma NotStatement(line: string, kw: string)
    requires StartsWith(Trim(line), kw) && |kw| > 0 && kw[0] != 'S'
    ensures !IsStatementLine(line)
  {
    var t := Trim(line);
    assert t[0] == kw[0];
  }

  /** The lines from `i` to the first one ending with `-/`, and their doc-comment text. */
  method ReadDocComment(lines: seq<string>, i: nat) returns (doc: string, next: nat, ghost e: nat)
    requires i < |lines| && OpensDoc(lines[i])
    ensures i < next <= |lines| + 1
    ensures EndsWith(Trim(lines[i]), "-/") ==> next == i + 1
    ensures e == (if next <= |lines| then next - 1 else |lines| - 1)
    ensures DocSpan(lines, i, e, next, doc)
  {
    var docLines := [lines[i]];
    var j := i;
    if !EndsWith(Trim(lines[i]), "-/") {
      j := j + 1;
      while j < |lines|
        invariant i < j <= |lines|
        invariant docLines == lines[i..j]
      {
        assert lines[i..j + 1] == lines[i..j] + [lines[j]];
        docLines := docLines + [lines[j]];
        if EndsWith(TrimEnd(lines[j]), "-/") {
          break;
        }
        j := j + 1;
      }
    }
    e := if j == |lines| then |lines| - 1 else j;
    assert docLines == lines[i..e + 1];
    doc := DocTextAsWritten(docLines);
    next := j + 1;
    assert DocSpan(lines, i, e, next, doc);
  }

  /** A blank line or a `--` comment: nothing changes. */
  method IgnoreLine(lines: seq<string>, i: nat, st: ScanState) returns (next: nat, st': ScanState)
    requires i < |lines| && Ignorable(lines[i]) && !IsStatementLine(lines[i])
    requires ScanInv(lines, i, st)
    ensures next == i + 1 && st' == st
    ensures ScanInv(lines, next, st')
  {
    if st.pendingDocstring != "" {
      DocBeforeIgnorable(lines, i, st.pendingDocstring);
    }
    ReachStep(lines, i, i + 1, st, st);
    return i + 1, st;
  }

  /** A doc comment: it becomes the pending doc comment. */
  method DocStep(lines: seq<string>, i: nat, st: ScanState) returns (next: nat, st': ScanState)
    requires i < |lines| && OpensDoc(lines[i])
    requires ScanInv(lines, i, st)
    ensures i < next <= |lines| + 1
    ensures st' == st.(pendingDocstring := st'.pendingDocstring)
    ensures exists e :: (next <= |lines| ==> e == next - 1) && DocSpan(lines, i, e, next, st'.pendingDocstring)
    ensures ScanInv(lines, next, st')
  {
    var doc, n, e := ReadDocComment(lines, i);
    NotStatement(lines[i], "/--");
    ValuesIgnorePending(lines, st, doc);
    ReachStep(lines, i, n, st, st.(pendingDocstring := doc));
    return n, st.(pendingDocstring := doc);
  }

  /** `import` and unrecognised lines: the pending doc comment is dropped. */
  method ClearingStep(lines: seq<string>, i: nat, st: ScanState) returns (next: nat, st': ScanState)
    requires i < |lines| && !IsStatementLine(lines[i])
    requires ScanInv(lines, i, st)
    ensures next == i + 1 && st' == st.(pendingDocstring := "")
    ensures ScanInv(lines, next, st')
  {
    ValuesIgnorePending(lines, st, "");
    ReachStep(lines, i, i + 1, st, st.(pendingDocstring := ""));
    return i + 1, st.(pendingDocstring := "");
  }

  /** A `Level` line: the number is recorded when `parseInt` finds one. */
  method LevelStep(lines: seq<string>, i: nat, st: ScanState) returns (next: nat, st': ScanState)
    requires i < |lines| && StartsWith(Trim(lines[i]), "Level ")
    requires ScanInv(lines, i, st)
    ensures next == i + 1
    ensures st' == st.(level := st'.level, pendingDocstring := "")
    ensures st'.level == if LevelNumber(lines[i]).Some? then LevelNumber(lines[i]).value else st.level
    ensures ScanInv(lines, next, st')
  {
    NotStatement(lines[i], "Level ");
    var num := ParseInt10(Trim(Trim(lines[i])[6..]));
    assert num == LevelNumber(lines[i]);
    st' := if num.Some? then st.(level := num.value, pendingDocstring := "") else st.(pendingDocstring := "");
    ReachStep(lines, i, i + 1, st, st');
    next := i + 1;
  }

  /** A World, Title, Introduction or Conclusion line: its string, when there is one, is recorded. */
  method TextStep(lines: seq<string>, i: nat, st: ScanState, f: TextField) returns (next: nat, st': ScanState)
    requires i < |lines| && StartsWith(Trim(lines[i]), Keyword(f))
    requires ScanInv(lines, i, st)
    ensures i < next <= |lines|
    ensures st' == (if KeywordString(lines, i, f).Some? then SetField(st, f, KeywordString(lines, i, f).value) else st)
      .(pendingDocstring := "")
    ensures ScanInv(lines, next, st')
  {
    NotStatement(lines[i], Keyword(f));
    var res := ExtractLeanString(lines, i, Trim(lines[i])[|Keyword(f)|..]);
    assert res.value == KeywordString(lines, i, f);
    var updated := st;
    if res.value.Some? {
      SetFieldValues(lines, st, f, i, res.value.value);
      updated := SetField(st, f, res.value.value);
    }
    assert updated.hasStatement == st.hasStatement;
    st' := updated.(pendingDocstring := "");
    ValuesIgnorePending(lines, updated, "");
    next := res.endIdx + 1;
    assert SingleStep(lines[i]) ==> !OpensBlock(lines[i], f);
    ReachStep(lines, i, next, st, st');
  }

  /** A `Statement` line: its block and hints are recorded with the pending doc comment. */
  method StatementStep(lines: seq<string>, i: nat, st: ScanState) returns (next: nat, st': ScanState)
    requires i < |lines| && IsStatementLine(lines[i])
    requires ScanInv(lines, i, st)
    ensures i < next <= |lines| + 1
    ensures next == StatementBlock(lines, i).endIdx + 1
    ensures st' == st.(hasStatement := true, statementDocstring := st.pendingDocstring, pendingDocstring := "",
      statementSignature := StatementBlock(lines, i).signature,
      hints := HintsFrom(StatementBlock(lines, i).proofLines, 0))
    ensures ScanInv(lines, next, st')
  {
    var result := ExtractStatementAndProof(lines, i);
    var hints := ExtractHints(result.proofLines);
    st' := st.(hasStatement := true, statementDocstring := st.pendingDocstring, pendingDocstring := "",
      statementSignature := result.signature, hints := hints);
    assert StatementAt(lines, i, st'.statementSignature, st'.hints, st'.statementDocstring);
    next := result.endIdx + 1;
  }

  /** One turn of the loop of `parseLevelFile`, chosen by the line's trimmed prefix. */
  method Step(lines: seq<string>, i: nat, st: ScanState) returns (next: nat, st': ScanState)
    requires i < |lines| && ScanInv(lines, i, st)
    ensures i < next <= |lines| + 1
    ensures ScanInv(lines, next, st')
  {
    var trimmed := Trim(lines[i]);
    if trimmed == "" {
      next, st' := IgnoreLine(lines, i, st);
    } else if StartsWith(trimmed, "--") && !StartsWith(trimmed, "/--") {
      NotStatement(lines[i], "--");
      next, st' := IgnoreLine(lines, i, st);
    } else if StartsWith(trimmed, "/--") {
      next, st' := DocStep(lines, i, st);
    } else if StartsWith(trimmed, "import ") {
      NotStatement(lines[i], "import ");
      next, st' := ClearingStep(lines, i, st);
    } else {
      next, st' := KeywordStep(lines, i, st);
    }
  }

  /** The rest of the loop's choice: the keyword lines, a `Statement` line, or anything else. */
  method KeywordStep(lines: seq<string>, i: nat, st: ScanState) returns (next: nat, st': ScanState)
    requires i < |lines| && ScanInv(lines, i, st)
    ensures i < next <= |lines| + 1
    ensures ScanInv(lines, next, st')
  {
    var trimmed := Trim(lines[i]);
    if StartsWith(trimmed, "World ") {
      next, st' := TextStep(lines, i, st, WorldField);
    } else if StartsWith(trimmed, "Level ") {
      next, st' := LevelStep(lines, i, st);
    } else if StartsWith(trimmed, "Title ") {
      next, st' := TextStep(lines, i, st, TitleField);
    } else if StartsWith(trimmed, "Introduction ") {
      next, st' := TextStep(lines, i, st, IntroductionField);
    } else if StartsWith(trimmed, "Conclusion ") {
      next, st' := TextStep(lines, i, st, ConclusionField);
    } else if IsStatementLine(lines[i]) {
      next, st' := StatementStep(lines, i, st);
    } else {
      next, st' := ClearingStep(lines, i, st);
    }
  }

  /**
   * `parseLevelFile` on the file's text (reading the file is left to the caller). There is a
   * result only if the file has a `Statement` line, and always when a `Statement` line is
   * reachable; each field is its default or comes from the matching line; signature, hints
   * and doc comment belong to one `Statement` line.
   */
  method ParseLevelFile(sourceFilePath: string, solutionFilePath: string, content: string)
    returns (r: Option<LevelData>)
    ensures r.Some? ==> r.value.sourceFilePath == sourceFilePath && r.value.solutionFilePath == solutionFilePath
    ensures r.Some? ==> exists k :: 0 <= k < |Split(content, '\n')| && IsStatementLine(Split(content, '\n')[k])
    ensures (exists k :: ReachableStatement(Split(content, '\n'), k)) ==> r.Some?
    ensures r.Some? ==> LevelFrom(Split(content, '\n'), r.value)
  {
    var lines := Split(content, '\n');
    var st := InitialState;
    var i := 0;
    while i < |lines|
      invariant 0 <= i <= |lines| + 1
      invariant ScanInv(lines, i, st)
      decreases |lines| + 1 - i
    {
      i, st := Step(lines, i, st);
    }
    if !st.hasStatement {
      return None;
    }
    r := Some(LevelData(sourceFilePath, solutionFilePath, st.world, st.level, st.title,
      st.introduction, st.statementDocstring, st.statementSignature, st.hints, st.conclusion));
  }
}
