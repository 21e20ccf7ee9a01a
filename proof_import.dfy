/**
 * The progress importer: `writeImportedProof` rewrites a solution file after its last `:= by`
 * line, and the import command walks a lean4game progress export, classifying and counting its
 * entries. Files are a map from path to text; a path missing from it is a file that does not
 * exist.
 */
module ProofImport {
  import opened Opt
  import opened Strings
  import opened GameTypes
  import LevelFile
  import Watcher

  const ByMarker: string := ":= by\n"

  /** The text the importer writes for a completed level whose code was not exported. */
  function MarkerTail(): string {
    "  " + Watcher.ImportMarker + "\n  sorry\n"
  }

  function IndentLine(line: string): string {
    if line == "" then "" else "  " + line
  }

  function IndentAll(lines: seq<string>): (r: seq<string>)
    ensures |r| == |lines| && forall i :: 0 <= i < |lines| ==> r[i] == IndentLine(lines[i])
  {
    seq(|lines|, i requires 0 <= i < |lines| => IndentLine(lines[i]))
  }

  /** `code.split('\n').map(line => line ? '  ' + line : '').join('\n')`. */
  function Indent(code: string): string {
    Join(IndentAll(Split(code, '\n')), "\n")
  }

  /** Indenting keeps the lines: line `i` of the result is line `i` of the code, indented. */
  lemma IndentLines(code: string)
    ensures Split(Indent(code), '\n') == IndentAll(Split(code, '\n'))
  {
    var parts := IndentAll(Split(code, '\n'));
    forall i | 0 <= i < |parts|
      ensures '\n' !in parts[i]
    {
      assert Split(code, '\n')[i] == "" || parts[i] == "  " + Split(code, '\n')[i];
    }
    SplitJoin(parts, '\n');
  }

  /** The file text up to and including its last `:= by\n`. */
  function Head(content: string, idx: nat): string
    requires OccursAt(content, ByMarker, idx)
  {
    content[..idx + |ByMarker|]
  }

  /**
   * The new text of a solution file, or `None` where `writeImportedProof` returns false without
   * writing: no `:= by\n` in the file, or a blank code for a file without `sorry` or already
   * carrying the marker.
   */
  function ImportedContent(content: string, code: string): (r: Option<string>)
    ensures r.None? <==>
      !Contains(content, ByMarker)
      || (Trim(code) == "" && (!Contains(content, "sorry") || Contains(content, Watcher.ImportMarker)))
  {
    match LastIndexOf(content, ByMarker)
    case None => None
    case Some(idx) =>
      var trimmed := Trim(code);
      if trimmed == "" then
        if !Contains(content, "sorry") || Contains(content, Watcher.ImportMarker) then None
        else Some(Head(content, idx) + MarkerTail())
      else Some(Head(content, idx) + Indent(trimmed) + "\n")
  }

  /** The new text keeps everything up to the last `:= by\n` and puts the proof after it. */
  lemma ImportedShape(content: string, code: string)
    requires ImportedContent(content, code).Some?
    ensures var idx := LastIndexOf(content, ByMarker).value;
      var r := ImportedContent(content, code).value;
      && EndsWith(Head(content, idx), ByMarker)
      && (forall j :: idx < j ==> !OccursAt(content, ByMarker, j))
      && r == Head(content, idx) + (if Trim(code) == "" then MarkerTail() else Indent(Trim(code)) + "\n")
  {
    var idx := LastIndexOf(content, ByMarker).value;
    assert Head(content, idx)[|Head(content, idx)| - |ByMarker|..] == content[idx..idx + |ByMarker|];
  }

  /** A blank import marks the file, and the watcher's content check then reports it complete. */
  lemma BlankImportCompletes(content: string, code: string)
    requires Trim(code) == "" && ImportedContent(content, code).Some?
    ensures Contains(ImportedContent(content, code).value, Watcher.ImportMarker)
    ensures Watcher.StatusFromContent(ImportedContent(content, code)) == Complete
  {
    var idx := LastIndexOf(content, ByMarker).value;
    var t := MarkerTail();
    assert OccursAt(t, Watcher.ImportMarker, 2);
    ContainsSuffix(Head(content, idx), t, Watcher.ImportMarker);
  }

  /** Importing blank code a second time changes nothing. */
  lemma BlankImportOnce(content: string, code: string, again: string)
    requires Trim(code) == "" && Trim(again) == "" && ImportedContent(content, code).Some?
    ensures ImportedContent(ImportedContent(content, code).value, again).None?
  {
    BlankImportCompletes(content, code);
  }

  /** The only occurrence of `p` at or after `i` is at `i`: then it is the last one. */
  lemma LastIndexAt(s: string, p: string, i: nat)
    requires OccursAt(s, p, i) && forall j :: i < j ==> !OccursAt(s, p, j)
    ensures LastIndexOf(s, p) == Some(i)
  {
    assert Contains(s, p);
  }

  /** A one-line code is indented as that one line: `rfl` becomes `  rfl`. */
  lemma IndentSingleLine(w: string)
    requires '\n' !in w
    ensures Indent(w) == IndentLine(w)
  {
    assert Split(w, '\n') == [w];
    assert IndentAll([w]) == [IndentLine(w)];
  }

  // ─── writeImportedProof ───────────────────────────────────────────────────

  /**
   * `writeImportedProof(filePath, code)`. `code` is `None` when the export holds a value that is
   * not a string: its `trim` throws inside the `try`, which answers false.
   */
  method WriteImportedProof(files: map<string, string>, path: string, code: Option<string>)
    returns (ok: bool, files': map<string, string>)
    ensures ok <==> path in files && code.Some? && ImportedContent(files[path], code.value).Some?
    ensures ok ==> files' == files[path := ImportedContent(files[path], code.value).value]
    ensures !ok ==> files' == files
  {
    if path !in files || code.None? {
      return false, files;
    }
    var next := ImportedContent(files[path], code.value);
    if next.None? {
      return false, files;
    }
    return true, files[path := next.value];
  }

  // ─── The progress export ──────────────────────────────────────────────────

  /** The `code` field of an entry: absent or null, a string, or some other value. */
  datatype CodeField = NoCode | CodeText(text: string) | CodeOther

  /** The value stored under a level key. `completed` is the truthiness of its field. */
  datatype EntryValue = ObjectEntry(code: CodeField, completed: bool) | NullEntry | ScalarEntry

  datatype KeyedEntry = KeyedEntry(key: string, value: EntryValue)

  /** The value stored under a world name. */
  datatype WorldValue = WorldObject(entries: seq<KeyedEntry>) | WorldNull | WorldScalar

  datatype WorldEntry = WorldEntry(world: string, value: WorldValue)

  /** The top-level `data` field: missing or falsy, some other non-object, or an object. */
  datatype DataField = DataMissing | DataNotObject | DataObject(worlds: seq<WorldEntry>)

  /** `entry.code ?? ''`, with `None` for a value that is not a string. */
  function CodeArgument(c: CodeField): Option<string> {
    match c
    case NoCode => Some("")
    case CodeText(t) => Some(t)
    case CodeOther => None
  }

  /** How JavaScript prints an integer. */
  function IntText(n: int): string {
    if n < 0 then "-" + LevelFile.DecimalText(-n) else LevelFile.DecimalText(n)
  }

  /** `${world}:${level}`. */
  function LevelKey(world: string, n: int): string {
    world + ":" + IntText(n)
  }

  lemma IntTextRoundTrip(n: int)
    ensures LevelFile.ParseInt10(IntText(n)) == Some(n)
  {
    if n < 0 {
      LevelFile.ParseInt10OfNegative(-n);
    } else {
      LevelFile.ParseInt10OfDecimal(n);
    }
  }

  lemma IntTextNoColon(n: int)
    ensures ':' !in IntText(n)
  {
    var d := LevelFile.DecimalText(if n < 0 then -n else n);
    assert forall i :: 0 <= i < |d| ==> d[i] != ':';
  }

  /** In `w + ":" + t` with no colon in `t`, the last colon sits right after `w`. */
  lemma LastColon(w: string, t: string)
    requires ':' !in t
    ensures (w + ":" + t)[|w|] == ':'
    ensures forall j :: |w| < j < |w + ":" + t| ==> (w + ":" + t)[j] != ':'
  {
    var k := w + ":" + t;
    forall j | |w| < j < |k|
      ensures k[j] != ':'
    {
      assert k[j] == t[j - |w| - 1];
    }
  }

  /** Different worlds or numbers never share a key, so the lookup finds the level itself. */
  lemma LevelKeyInjective(w1: string, n1: int, w2: string, n2: int)
    requires LevelKey(w1, n1) == LevelKey(w2, n2)
    ensures w1 == w2 && n1 == n2
  {
    var t1, t2 := IntText(n1), IntText(n2);
    IntTextNoColon(n1);
    IntTextNoColon(n2);
    var k := LevelKey(w1, n1);
    LastColon(w1, t1);
    LastColon(w2, t2);
    assert |w1| == |w2|;
    assert t1 == k[|w1| + 1..] == t2;
    assert w1 == k[..|w1|] == w2;
    IntTextRoundTrip(n1);
    IntTextRoundTrip(n2);
  }

  // ─── parseInt with no radix ───────────────────────────────────────────────

  predicate IsHexDigit(c: char) {
    LevelFile.IsDigit(c) || 'a' <= c <= 'f' || 'A' <= c <= 'F'
  }

  function HexDigitOf(c: char): nat
    requires IsHexDigit(c)
  {
    if LevelFile.IsDigit(c) then LevelFile.DigitOf(c)
    else if 'a' <= c <= 'f' then c as int - 'a' as int + 10
    else c as int - 'A' as int + 10
  }

  /** The longest prefix of `s` made of hexadecimal digits. */
  function HexRun(s: string): (r: string)
    ensures |r| <= |s| && r == s[..|r|]
    ensures forall i :: 0 <= i < |r| ==> IsHexDigit(r[i])
    ensures |r| < |s| ==> !IsHexDigit(s[|r|])
  {
    if |s| > 0 && IsHexDigit(s[0]) then [s[0]] + HexRun(s[1..]) else ""
  }

  function HexValue(ds: string): nat
    requires forall i :: 0 <= i < |ds| ==> IsHexDigit(ds[i])
  {
    if |ds| == 0 then 0 else HexValue(ds[..|ds| - 1]) * 16 + HexDigitOf(ds[|ds| - 1])
  }

  /** The value of the leading hexadecimal digits of `s`, if it has any. */
  function ParseHex(s: string): Option<nat> {
    var ds := HexRun(s);
    if |ds| == 0 then None else Some(HexValue(ds))
  }

  /** The text after leading whitespace and one sign character. */
  function Unsigned(s: string): string {
    var t := TrimStart(s);
    if |t| > 0 && (t[0] == '-' || t[0] == '+') then t[1..] else t
  }

  /** The unsigned text starts with `0x` or `0X`, which makes `parseInt` read base 16. */
  predicate HexPrefixed(s: string) {
    var u := Unsigned(s);
    |u| >= 2 && u[0] == '0' && (u[1] == 'x' || u[1] == 'X')
  }

  /**
   * `parseInt(s)` without a radix: leading whitespace, an optional sign, then base 16 after a
   * `0x` or `0X` prefix and base 10 otherwise; `None` (NaN) when no digit follows.
   */
  function ParseInt(s: string): Option<int> {
    var t := TrimStart(s);
    var u := Unsigned(s);
    var m := if HexPrefixed(s) then ParseHex(u[2..]) else LevelFile.ParseDigits(u);
    match m
    case None => None
    case Some(n) => Some(if |t| > 0 && t[0] == '-' then -(n as int) else n as int)
  }

  /** Without a `0x` prefix, `parseInt(s)` and `parseInt(s, 10)` agree. */
  lemma ParseIntDecimal(s: string)
    requires !HexPrefixed(s)
    ensures ParseInt(s) == LevelFile.ParseInt10(s)
  {
  }

  /** `parseInt('0x1') === 1` where `parseInt('0x1', 10) === 0`, and `parseInt('0x')` is NaN. */
  lemma HexKeys()
    ensures ParseInt("0x1") == Some(1) && LevelFile.ParseInt10("0x1") == Some(0)
    ensures ParseInt("0x") == None
  {
    TrimStartNoSpace("0x1");
    TrimStartNoSpace("0x");
    assert HexPrefixed("0x1");
    assert "0x1"[2..] == "1";
    assert HexRun("1") == "1";
    assert "0x1"[1..] == "x1";
    assert LevelFile.DigitRun("0x1") == "0";
    assert HexRun("0x"[2..]) == "";
  }

  /** `parseInt(String(n)) === n`. */
  lemma ParseIntOfDecimal(n: nat)
    ensures ParseInt(LevelFile.DecimalText(n)) == Some(n)
  {
    var d := LevelFile.DecimalText(n);
    TrimStartNoSpace(d);
    assert !HexPrefixed(d) by {
      assert |d| >= 2 ==> LevelFile.IsDigit(d[1]);
    }
    ParseIntDecimal(d);
    LevelFile.ParseInt10OfDecimal(n);
  }

  /** The `lookup` map: a later level with the same key wins. */
  function LookupOf(levels: seq<LevelData>): (m: map<string, LevelData>)
    ensures forall k :: k in m ==> m[k] in levels && LevelKey(m[k].world, m[k].level) == k
    ensures forall l :: l in levels ==> LevelKey(l.world, l.level) in m
  {
    if |levels| == 0 then map[]
    else
      var init := levels[..|levels| - 1];
      var last := levels[|levels| - 1];
      assert levels == init + [last];
      LookupOf(init)[LevelKey(last.world, last.level) := last]
  }

  /** `lookup.set` overwrites: a key maps to the last level that has it. */
  lemma {:induction false} LookupLastWins(levels: seq<LevelData>, i: nat)
    requires i < |levels|
    requires forall j :: i < j < |levels| ==>
      LevelKey(levels[j].world, levels[j].level) != LevelKey(levels[i].world, levels[i].level)
    ensures LookupOf(levels)[LevelKey(levels[i].world, levels[i].level)] == levels[i]
  {
    if i < |levels| - 1 {
      LookupLastWins(levels[..|levels| - 1], i);
    }
  }

  // ─── The import loop ──────────────────────────────────────────────────────

  /** The files as they stand and the counters of the loop. */
  datatype ImportTally = ImportTally(
    files: map<string, string>, imported: nat, skipped: nat, missing: nat, paths: seq<string>)

  function Start(files: map<string, string>): ImportTally {
    ImportTally(files, 0, 0, 0, [])
  }

  /** What the loop decides for one entry before any file is touched. */
  datatype Action = Ignore | Skip | Miss | Write(path: string, code: Option<string>)

  /**
   * A key that is not a number or a value that is not an object is ignored; an entry not
   * completed is skipped; a `world:level` the lookup lacks is missing; the rest are written.
   */
  function EntryAction(lookup: map<string, LevelData>, world: string, e: KeyedEntry): Action {
    var n := ParseInt(e.key);
    if n.None? || !e.value.ObjectEntry? then Ignore
    else if !e.value.completed then Skip
    else
      var key := LevelKey(world, n.value);
      if key !in lookup then Miss
      else Write(lookup[key].solutionFilePath, CodeArgument(e.value.code))
  }

  /**
   * The counters after an action; a write that `rewrite` refuses counts as missing. The loop
   * uses `ImportedContent` for `rewrite`.
   */
  ghost function Apply(rewrite: (string, string) -> Option<string>, t: ImportTally, a: Action): ImportTally {
    match a
    case Ignore => t
    case Skip => t.(skipped := t.skipped + 1)
    case Miss => t.(missing := t.missing + 1)
    case Write(path, code) =>
      if path in t.files && code.Some? && rewrite(t.files[path], code.value).Some? then
        t.(files := t.files[path := rewrite(t.files[path], code.value).value],
           imported := t.imported + 1, paths := t.paths + [path])
      else t.(missing := t.missing + 1)
  }

  /** `EntryAction` with the lookup fixed: the loops below see the classification only through it. */
  function Classifier(lookup: map<string, LevelData>): (string, KeyedEntry) -> Action {
    (world: string, e: KeyedEntry) => EntryAction(lookup, world, e)
  }

  ghost function EntryStep(classify: (string, KeyedEntry) -> Action, rewrite: (string, string) -> Option<string>,
                           t: ImportTally, world: string, e: KeyedEntry): ImportTally {
    Apply(rewrite, t, classify(world, e))
  }

  ghost function RunEntries(classify: (string, KeyedEntry) -> Action, rewrite: (string, string) -> Option<string>,
                            t: ImportTally, world: string, es: seq<KeyedEntry>, n: nat): ImportTally
    requires n <= |es|
  {
    if n == 0 then t else EntryStep(classify, rewrite, RunEntries(classify, rewrite, t, world, es, n - 1), world, es[n - 1])
  }

  /** The entries of one world; a world that is not an object has none. */
  ghost function WorldStep(classify: (string, KeyedEntry) -> Action, rewrite: (string, string) -> Option<string>,
                           t: ImportTally, w: WorldEntry): ImportTally {
    match w.value
    case WorldObject(es) => RunEntries(classify, rewrite, t, w.world, es, |es|)
    case _ => t
  }

  ghost function RunWorlds(classify: (string, KeyedEntry) -> Action, rewrite: (string, string) -> Option<string>,
                           t: ImportTally, ws: seq<WorldEntry>, n: nat): ImportTally
    requires n <= |ws|
  {
    if n == 0 then t else WorldStep(classify, rewrite, RunWorlds(classify, rewrite, t, ws, n - 1), ws[n - 1])
  }

  method Perform(t: ImportTally, a: Action) returns (t': ImportTally)
    ensures t' == Apply(ImportedContent, t, a)
  {
    match a
    case Ignore => t' := t;
    case Skip => t' := t.(skipped := t.skipped + 1);
    case Miss => t' := t.(missing := t.missing + 1);
    case Write(path, code) =>
      var ok, files' := WriteImportedProof(t.files, path, code);
      if ok {
        t' := t.(files := files', imported := t.imported + 1, paths := t.paths + [path]);
      } else {
        t' := t.(missing := t.missing + 1);
      }
  }

  // ─── What the loop guarantees ─────────────────────────────────────────────

  /** Entries with a numeric key and an object value: the ones the loop counts. */
  function CountedIn(es: seq<KeyedEntry>): nat {
    if |es| == 0 then 0
    else
      var e := es[|es| - 1];
      CountedIn(es[..|es| - 1]) + (if ParseInt(e.key).Some? && e.value.ObjectEntry? then 1 else 0)
  }

  function Counted(ws: seq<WorldEntry>): nat {
    if |ws| == 0 then 0
    else
      var w := ws[|ws| - 1];
      Counted(ws[..|ws| - 1]) + (match w.value case WorldObject(es) => CountedIn(es) case _ => 0)
  }

  /**
   * What holds of a tally started from `files0`: every counted entry is counted once, each
   * import has its path recorded, and only recorded paths of existing files have changed.
   */
  ghost predicate Accounted(files0: map<string, string>, t: ImportTally, counted: nat) {
    && t.imported + t.skipped + t.missing == counted
    && t.imported == |t.paths|
    && t.files.Keys == files0.Keys
    && (forall p :: p in t.paths ==> p in files0)
    && (forall p :: p in files0 && p !in t.paths ==> t.files[p] == files0[p])
  }

  lemma EntryStepAccounted(lookup: map<string, LevelData>, rewrite: (string, string) -> Option<string>,
                           files0: map<string, string>, t: ImportTally, world: string, e: KeyedEntry, counted: nat)
    requires Accounted(files0, t, counted)
    ensures Accounted(files0, EntryStep(Classifier(lookup), rewrite, t, world, e), counted +
      (if ParseInt(e.key).Some? && e.value.ObjectEntry? then 1 else 0))
  {
  }

  lemma {:induction false} RunEntriesAccounted(lookup: map<string, LevelData>, rewrite: (string, string) -> Option<string>,
                                               files0: map<string, string>, t: ImportTally, world: string,
                                               es: seq<KeyedEntry>, n: nat, counted: nat)
    requires n <= |es| && Accounted(files0, t, counted)
    ensures Accounted(files0, RunEntries(Classifier(lookup), rewrite, t, world, es, n), counted + CountedIn(es[..n]))
  {
    if n > 0 {
      RunEntriesAccounted(lookup, rewrite, files0, t, world, es, n - 1, counted);
      assert es[..n][..n - 1] == es[..n - 1];
      EntryStepAccounted(lookup, rewrite, files0, RunEntries(Classifier(lookup), rewrite, t, world, es, n - 1), world, es[n - 1],
                         counted + CountedIn(es[..n - 1]));
    }
  }

  lemma {:induction false} RunWorldsAccounted(lookup: map<string, LevelData>, rewrite: (string, string) -> Option<string>,
                                              files0: map<string, string>, ws: seq<WorldEntry>, n: nat)
    requires n <= |ws|
    ensures Accounted(files0, RunWorlds(Classifier(lookup), rewrite, Start(files0), ws, n), Counted(ws[..n]))
  {
    if n > 0 {
      RunWorldsAccounted(lookup, rewrite, files0, ws, n - 1);
      assert ws[..n][..n - 1] == ws[..n - 1];
      var t := RunWorlds(Classifier(lookup), rewrite, Start(files0), ws, n - 1);
      match ws[n - 1].value {
        case WorldObject(es) =>
          RunEntriesAccounted(lookup, rewrite, files0, t, ws[n - 1].world, es, |es|, Counted(ws[..n - 1]));
          assert es[..|es|] == es;
        case _ =>
      }
    }
  }

  /** `imported + skipped + missing` is the number of counted entries, and `imported = |importedPaths|`. */
  lemma ImportCounts(levels: seq<LevelData>, ws: seq<WorldEntry>, files: map<string, string>)
    ensures var t := RunWorlds(Classifier(LookupOf(levels)), ImportedContent, Start(files), ws, |ws|);
      && t.imported + t.skipped + t.missing == Counted(ws)
      && t.imported == |t.paths|
  {
    RunWorldsAccounted(LookupOf(levels), ImportedContent, files, ws, |ws|);
    assert ws[..|ws|] == ws;
  }

  /** The import touches only the paths it reports, all of them existing solution files. */
  lemma ImportFrame(levels: seq<LevelData>, ws: seq<WorldEntry>, files: map<string, string>)
    ensures var t := RunWorlds(Classifier(LookupOf(levels)), ImportedContent, Start(files), ws, |ws|);
      && t.files.Keys == files.Keys
      && (forall p :: p in t.paths ==> p in files)
      && (forall p :: p in files && p !in t.paths ==> t.files[p] == files[p])
  {
    RunWorldsAccounted(LookupOf(levels), ImportedContent, files, ws, |ws|);
  }

  // ─── The summary message ──────────────────────────────────────────────────

  const ImportedPrefix: string := "Imported "

  function ImportedPart(imported: nat): string {
    ImportedPrefix + LevelFile.DecimalText(imported) + " level" + (if imported != 1 then "s" else "") + "."
  }

  function SkippedPart(skipped: nat): string {
    LevelFile.DecimalText(skipped) + " incomplete in JSON (skipped)."
  }

  function MissingPart(missing: nat): string {
    LevelFile.DecimalText(missing) + " not found in current game."
  }

  /** The parts of the message: always the imported count, then the non-zero other counts. */
  function SummaryParts(imported: nat, skipped: nat, missing: nat): (parts: seq<string>)
    ensures |parts| == 1 + (if skipped > 0 then 1 else 0) + (if missing > 0 then 1 else 0)
    ensures parts[0] == ImportedPart(imported)
    ensures skipped > 0 ==> parts[1] == SkippedPart(skipped)
    ensures missing > 0 ==> parts[|parts| - 1] == MissingPart(missing)
  {
    [ImportedPart(imported)]
    + (if skipped > 0 then [SkippedPart(skipped)] else [])
    + (if missing > 0 then [MissingPart(missing)] else [])
  }

  /** The information message: the parts joined by two spaces. */
  function SummaryMessage(imported: nat, skipped: nat, missing: nat): string {
    Join(SummaryParts(imported, skipped, missing), "  ")
  }

  /** The message opens with the imported count, which `parseInt` reads back. */
  lemma SummaryReadBack(imported: nat, skipped: nat, missing: nat)
    ensures var m := SummaryMessage(imported, skipped, missing);
      && StartsWith(m, ImportedPrefix)
      && LevelFile.ParseInt10(m[|ImportedPrefix|..]) == Some(imported as int)
  {
    HeadReadBack(SummaryParts(imported, skipped, missing), imported);
  }

  /** Any parts joined after the imported part leave its count readable. */
  lemma HeadReadBack(parts: seq<string>, imported: nat)
    requires |parts| > 0 && parts[0] == ImportedPart(imported)
    ensures var m := Join(parts, "  ");
      && StartsWith(m, ImportedPrefix)
      && LevelFile.ParseInt10(m[|ImportedPrefix|..]) == Some(imported as int)
  {
    var m := Join(parts, "  ");
    JoinHead(parts, "  ");
    var rest := m[|parts[0]|..];
    assert m == parts[0] + rest by {
      assert m == m[..|parts[0]|] + rest;
    }
    var tail := " level" + (if imported != 1 then "s" else "") + "." + rest;
    var body := LevelFile.DecimalText(imported) + tail;
    Regroup(ImportedPrefix, LevelFile.DecimalText(imported), " level", if imported != 1 then "s" else "", ".", rest);
    StartsWithConcat(ImportedPrefix, body);
    SliceAfterPrefix(ImportedPrefix, body);
    LevelFile.ParseInt10IgnoresSuffix(imported, tail);
  }

  lemma Regroup(a: string, b: string, c: string, d: string, e: string, f: string)
    ensures a + b + c + d + e + f == a + (b + (c + d + e + f))
  {
  }

  /** "level" is plural exactly when the count is not one. */
  lemma ImportedPlural(imported: nat)
    ensures EndsWith(ImportedPart(imported), "levels.") <==> imported != 1
  {
    var p := ImportedPart(imported);
    if imported == 1 {
      assert p[|p| - 2] == 'l';
    } else {
      assert p[|p| - 7..] == "levels.";
    }
  }

  // ─── The command ──────────────────────────────────────────────────────────

  /** What reading the chosen export produced. */
  datatype ExportFile = Unreadable(message: string) | Parsed(data: DataField)

  /** The message the command shows; `NoMessage` when the file dialog was cancelled. */
  datatype Report = Warning(text: string) | ErrorMessage(text: string) | Info(text: string) | NoMessage | Uncaught

  const NoGameWarning: string := "No game loaded. Use \"Lean Game: Open Game\" first."
  const NoLevelsWarning: string := "No levels loaded. Use \"Lean Game: Open Game\" first."
  const ParseErrorPrefix: string := "Failed to parse progress JSON: "
  const MissingDataMessage: string := "JSON is missing a top-level \"data\" field."

  /**
   * `leanGame.importProgress`. `gameRoot` is the configured game root, `picked` the export the
   * dialog returned (`None` when cancelled) and `files` the file system. After a successful
   * import the touched paths are invalidated in the watcher, which pushes a fresh tree.
   */
  method ImportProgress(watcher: Watcher.SolutionWatcher, gameRoot: Option<string>,
                        picked: Option<ExportFile>, files: map<string, string>)
    returns (report: Report, files': map<string, string>, pushed: Option<TreeData>)
    requires watcher.Valid()
    modifies watcher
    ensures watcher.Valid()
    ensures watcher.sortedLevels == old(watcher.sortedLevels) && watcher.edges == old(watcher.edges)
    ensures gameRoot.None? || Trim(gameRoot.value) == "" ==>
      report == Warning(NoGameWarning) && files' == files && pushed.None? && unchanged(watcher)
    ensures gameRoot.Some? && Trim(gameRoot.value) != "" && |old(watcher.sortedLevels)| == 0 ==>
      report == Warning(NoLevelsWarning) && files' == files && pushed.None? && unchanged(watcher)
    ensures gameRoot.Some? && Trim(gameRoot.value) != "" && |old(watcher.sortedLevels)| > 0 ==>
      match picked
      case None => report == NoMessage && files' == files && pushed.None? && unchanged(watcher)
      case Some(Unreadable(msg)) =>
        report == ErrorMessage(ParseErrorPrefix + msg) && files' == files && pushed.None? && unchanged(watcher)
      case Some(Parsed(DataObject(ws))) =>
        var o := RunWorldsAsWritten(AsWritten(LookupOf(old(watcher.sortedLevels))), ImportedContent, Start(files), ws, |ws|);
        && files' == o.t.files
        && (o.Threw? ==> report == Uncaught && pushed.None? && unchanged(watcher))
        && (o.Finished? ==>
          && report == Info(SummaryMessage(o.t.imported, o.t.skipped, o.t.missing))
          && (forall p :: p in watcher.statusCache <==> p in old(watcher.statusCache) && p !in o.t.paths)
          && (forall p :: p in watcher.statusCache ==> watcher.statusCache[p] == old(watcher.statusCache)[p])
          && pushed == Some(Watcher.Progress(watcher.sortedLevels, watcher.statusCache, files', watcher.edges)))
      case Some(Parsed(_)) =>
        report == ErrorMessage(ParseErrorPrefix + MissingDataMessage) && files' == files && pushed.None?
        && unchanged(watcher)
  {
    files' := files;
    pushed := None;
    if gameRoot.None? || Trim(gameRoot.value) == "" {
      report := Warning(NoGameWarning);
      return;
    }
    var levels := watcher.sortedLevels;
    if |levels| == 0 {
      report := Warning(NoLevelsWarning);
      return;
    }
    if picked.None? {
      report := NoMessage;
      return;
    }
    match picked.value {
      case Unreadable(msg) =>
        report := ErrorMessage(ParseErrorPrefix + msg);
      case Parsed(data) =>
        if !data.DataObject? {
          report := ErrorMessage(ParseErrorPrefix + MissingDataMessage);
        } else {
          var o := ImportEntries(levels, data.worlds, files);
          files' := o.t.files;
          if o.Threw? {
            report := Uncaught;
            return;
          }
          var tree, _ := watcher.InvalidateAndRefresh(o.t.paths, files');
          pushed := Some(tree);
          report := Info(SummaryMessage(o.t.imported, o.t.skipped, o.t.missing));
        }
    }
  }

  // ─── A null entry, as the loop is written ─────────────────────────────────

  /** Where the loop got to: it ran to the end, or a `TypeError` left the handler at `t`. */
  datatype RunOutcome = Finished(t: ImportTally) | Threw(t: ImportTally)

  /**
   * The per-entry step as written: `typeof null === 'object'`, so a null value with a numeric
   * key passes the guard and reading `entry.completed` throws.
   */
  function EntryActionAsWritten(lookup: map<string, LevelData>, world: string, e: KeyedEntry): (r: Option<Action>)
    ensures r.None? <==> ParseInt(e.key).Some? && e.value.NullEntry?
    ensures r.Some? ==> r.value == EntryAction(lookup, world, e)
  {
    if ParseInt(e.key).Some? && e.value.NullEntry? then None
    else Some(EntryAction(lookup, world, e))
  }

  /** `EntryActionAsWritten` with the lookup fixed. */
  function AsWritten(lookup: map<string, LevelData>): (string, KeyedEntry) -> Option<Action> {
    (world: string, e: KeyedEntry) => EntryActionAsWritten(lookup, world, e)
  }

  ghost function RunEntriesAsWritten(step: (string, KeyedEntry) -> Option<Action>, rewrite: (string, string) -> Option<string>,
                                     t: ImportTally, world: string, es: seq<KeyedEntry>, n: nat): RunOutcome
    requires n <= |es|
  {
    if n == 0 then Finished(t)
    else match RunEntriesAsWritten(step, rewrite, t, world, es, n - 1)
      case Threw(t') => Threw(t')
      case Finished(t') =>
        match step(world, es[n - 1])
        case None => Threw(t')
        case Some(a) => Finished(Apply(rewrite, t', a))
  }

  /** `Object.entries(null)` throws too, so a null world aborts as well. */
  ghost function RunWorldsAsWritten(step: (string, KeyedEntry) -> Option<Action>, rewrite: (string, string) -> Option<string>,
                                    t: ImportTally, ws: seq<WorldEntry>, n: nat): RunOutcome
    requires n <= |ws|
  {
    if n == 0 then Finished(t)
    else match RunWorldsAsWritten(step, rewrite, t, ws, n - 1)
      case Threw(t') => Threw(t')
      case Finished(t') =>
        match ws[n - 1].value
        case WorldObject(es) => RunEntriesAsWritten(step, rewrite, t', ws[n - 1].world, es, |es|)
        case WorldNull => Threw(t')
        case WorldScalar => Finished(t')
  }

  /**
   * The import loop of the `leanGame.importProgress` handler, over the worlds and entries in
   * the order of the given lists. As written, a null world or a null entry with a numeric key
   * throws, and the files rewritten before it stay rewritten.
   */
  method ImportEntries(levels: seq<LevelData>, ws: seq<WorldEntry>, files: map<string, string>)
    returns (o: RunOutcome)
    ensures o == RunWorldsAsWritten(AsWritten(LookupOf(levels)), ImportedContent, Start(files), ws, |ws|)
  {
    o := ImportWorlds(AsWritten(LookupOf(levels)), Start(files), ws);
  }

  method ImportWorlds(step: (string, KeyedEntry) -> Option<Action>, t0: ImportTally, ws: seq<WorldEntry>)
    returns (o: RunOutcome)
    ensures o == RunWorldsAsWritten(step, ImportedContent, t0, ws, |ws|)
  {
    o := Finished(t0);
    var i := 0;
    while i < |ws|
      invariant 0 <= i <= |ws|
      invariant o == RunWorldsAsWritten(step, ImportedContent, t0, ws, i)
      invariant o.Finished?
    {
      match ws[i].value {
        case WorldObject(es) =>
          o := ImportWorld(step, o.t, ws[i].world, es);
        case WorldNull =>
          o := Threw(o.t);
        case WorldScalar =>
      }
      i := i + 1;
      if o.Threw? {
        WorldsThrewStays(step, ImportedContent, t0, ws, i, |ws|);
        return;
      }
    }
  }

  method ImportWorld(step: (string, KeyedEntry) -> Option<Action>, t0: ImportTally, world: string, es: seq<KeyedEntry>)
    returns (o: RunOutcome)
    ensures o == RunEntriesAsWritten(step, ImportedContent, t0, world, es, |es|)
  {
    o := Finished(t0);
    var j := 0;
    while j < |es|
      invariant 0 <= j <= |es|
      invariant o == RunEntriesAsWritten(step, ImportedContent, t0, world, es, j)
      invariant o.Finished?
    {
      var a := step(world, es[j]);
      if a.None? {
        o := Threw(o.t);
        EntriesThrewStays(step, ImportedContent, t0, world, es, j + 1, |es|);
        return;
      }
      var t := Perform(o.t, a.value);
      o := Finished(t);
      j := j + 1;
    }
  }

  /** Once the loop has thrown, the rest of the entries change nothing. */
  lemma {:induction false} EntriesThrewStays(step: (string, KeyedEntry) -> Option<Action>, rewrite: (string, string) -> Option<string>,
                                             t: ImportTally, world: string, es: seq<KeyedEntry>, n: nat, m: nat)
    requires n <= m <= |es| && RunEntriesAsWritten(step, rewrite, t, world, es, n).Threw?
    ensures RunEntriesAsWritten(step, rewrite, t, world, es, m) == RunEntriesAsWritten(step, rewrite, t, world, es, n)
    decreases m
  {
    if m > n {
      EntriesThrewStays(step, rewrite, t, world, es, n, m - 1);
    }
  }

  /** Once the loop has thrown, the rest of the worlds change nothing. */
  lemma {:induction false} WorldsThrewStays(step: (string, KeyedEntry) -> Option<Action>, rewrite: (string, string) -> Option<string>,
                                            t: ImportTally, ws: seq<WorldEntry>, n: nat, m: nat)
    requires n <= m <= |ws| && RunWorldsAsWritten(step, rewrite, t, ws, n).Threw?
    ensures RunWorldsAsWritten(step, rewrite, t, ws, m) == RunWorldsAsWritten(step, rewrite, t, ws, n)
    decreases m
  {
    if m > n {
      WorldsThrewStays(step, rewrite, t, ws, n, m - 1);
    }
  }

  /** The entry `"1": null`, which both loops classify by its numeric key. */
  lemma NullOneActions(lookup: map<string, LevelData>, world: string)
    ensures AsWritten(lookup)(world, KeyedEntry("1", NullEntry)).None?
    ensures Classifier(lookup)(world, KeyedEntry("1", NullEntry)) == Ignore
  {
    var e := KeyedEntry("1", NullEntry);
    OneParses();
    assert EntryActionAsWritten(lookup, world, e).None?;
    assert EntryAction(lookup, world, e) == Ignore;
  }

  lemma OneParses()
    ensures ParseInt("1") == Some(1)
  {
    ParseIntOfDecimal(1);
    assert LevelFile.DecimalText(1) == "1";
  }

  /** An export with `"1": null` in a world: as written the handler throws before refreshing. */
  lemma NullEntryThrows(levels: seq<LevelData>, files: map<string, string>)
    ensures var ws := [WorldEntry("W", WorldObject([KeyedEntry("1", NullEntry)]))];
      && RunWorldsAsWritten(AsWritten(LookupOf(levels)), ImportedContent, Start(files), ws, 1) == Threw(Start(files))
      && RunWorlds(Classifier(LookupOf(levels)), ImportedContent, Start(files), ws, 1) == Start(files)
  {
    NullOneActions(LookupOf(levels), "W");
    ThrowsOnOnlyEntry(AsWritten(LookupOf(levels)), Classifier(LookupOf(levels)), ImportedContent,
                      Start(files), "W", KeyedEntry("1", NullEntry));
  }

  lemma ThrowsOnOnlyEntry(step: (string, KeyedEntry) -> Option<Action>, classify: (string, KeyedEntry) -> Action,
                          rewrite: (string, string) -> Option<string>, t: ImportTally, world: string, e: KeyedEntry)
    requires step(world, e).None? && classify(world, e) == Ignore
    ensures RunWorldsAsWritten(step, rewrite, t, [WorldEntry(world, WorldObject([e]))], 1) == Threw(t)
    ensures RunWorlds(classify, rewrite, t, [WorldEntry(world, WorldObject([e]))], 1) == t
  {
    assert RunEntriesAsWritten(step, rewrite, t, world, [e], 1) == Threw(t);
    assert RunEntries(classify, rewrite, t, world, [e], 1) == t;
  }

  /** An entry with a numeric key and a null value. */
  predicate NullEntryIn(es: seq<KeyedEntry>) {
    exists i :: 0 <= i < |es| && ParseInt(es[i].key).Some? && es[i].value.NullEntry?
  }

  /** No null world and no counted null entry. */
  predicate NullFree(ws: seq<WorldEntry>) {
    forall i :: 0 <= i < |ws| ==> !ws[i].value.WorldNull? && (ws[i].value.WorldObject? ==> !NullEntryIn(ws[i].value.entries))
  }

  /** Where the as-written step does not throw, it takes the corrected step's action. */
  lemma StepsAgree(lookup: map<string, LevelData>, world: string, es: seq<KeyedEntry>)
    requires !NullEntryIn(es)
    ensures forall i :: 0 <= i < |es| ==> AsWritten(lookup)(world, es[i]) == Some(Classifier(lookup)(world, es[i]))
  {
  }

  lemma {:induction false} EntriesAgree(step: (string, KeyedEntry) -> Option<Action>, classify: (string, KeyedEntry) -> Action,
                                        rewrite: (string, string) -> Option<string>,
                                        t: ImportTally, world: string, es: seq<KeyedEntry>, n: nat)
    requires n <= |es|
    requires forall i :: 0 <= i < n ==> step(world, es[i]) == Some(classify(world, es[i]))
    ensures RunEntriesAsWritten(step, rewrite, t, world, es, n) == Finished(RunEntries(classify, rewrite, t, world, es, n))
  {
    if n > 0 {
      EntriesAgree(step, classify, rewrite, t, world, es, n - 1);
    }
  }

  /** Without nulls the loop as written and the one that ignores nulls do the same. */
  lemma {:induction false} WorldsAgree(lookup: map<string, LevelData>, rewrite: (string, string) -> Option<string>,
                                       t: ImportTally, ws: seq<WorldEntry>, n: nat)
    requires n <= |ws| && NullFree(ws)
    ensures RunWorldsAsWritten(AsWritten(lookup), rewrite, t, ws, n) == Finished(RunWorlds(Classifier(lookup), rewrite, t, ws, n))
  {
    if n > 0 {
      WorldsAgree(lookup, rewrite, t, ws, n - 1);
      var w := ws[n - 1];
      if w.value.WorldObject? {
        var es := w.value.entries;
        StepsAgree(lookup, w.world, es);
        EntriesAgree(AsWritten(lookup), Classifier(lookup), rewrite, RunWorlds(Classifier(lookup), rewrite, t, ws, n - 1), w.world, es, |es|);
      }
    }
  }

  /** Once the as-written step throws on entry `k`, the whole world's loop has thrown. */
  lemma {:induction false} NullAlwaysThrows(step: (string, KeyedEntry) -> Option<Action>, rewrite: (string, string) -> Option<string>,
                                            t: ImportTally, world: string, es: seq<KeyedEntry>, n: nat, k: nat)
    requires k < n <= |es| && step(world, es[k]).None?
    ensures RunEntriesAsWritten(step, rewrite, t, world, es, n).Threw?
  {
    if n - 1 > k {
      NullAlwaysThrows(step, rewrite, t, world, es, n - 1, k);
    }
  }

  /** Where the as-written step does not throw, it takes the corrected step's action. */
  lemma StepsAgreeWhereDefined(lookup: map<string, LevelData>, world: string, es: seq<KeyedEntry>)
    ensures forall i :: 0 <= i < |es| && AsWritten(lookup)(world, es[i]).Some? ==>
      AsWritten(lookup)(world, es[i]) == Some(Classifier(lookup)(world, es[i]))
  {
  }

  /** A world's loop that runs to its end has done what the loop that ignores nulls does. */
  lemma {:induction false} FinishedEntries(step: (string, KeyedEntry) -> Option<Action>, classify: (string, KeyedEntry) -> Action,
                                           rewrite: (string, string) -> Option<string>,
                                           t: ImportTally, world: string, es: seq<KeyedEntry>, n: nat)
    requires n <= |es| && RunEntriesAsWritten(step, rewrite, t, world, es, n).Finished?
    requires forall i :: 0 <= i < n && step(world, es[i]).Some? ==> step(world, es[i]) == Some(classify(world, es[i]))
    ensures RunEntriesAsWritten(step, rewrite, t, world, es, n) == Finished(RunEntries(classify, rewrite, t, world, es, n))
  {
    if n > 0 {
      FinishedEntries(step, classify, rewrite, t, world, es, n - 1);
    }
  }

  /** A run of the loop as written that finishes computes the loop that ignores nulls. */
  lemma {:induction false} FinishedWorlds(lookup: map<string, LevelData>, rewrite: (string, string) -> Option<string>,
                                          t: ImportTally, ws: seq<WorldEntry>, n: nat)
    requires n <= |ws| && RunWorldsAsWritten(AsWritten(lookup), rewrite, t, ws, n).Finished?
    ensures RunWorldsAsWritten(AsWritten(lookup), rewrite, t, ws, n) == Finished(RunWorlds(Classifier(lookup), rewrite, t, ws, n))
  {
    if n > 0 {
      FinishedWorlds(lookup, rewrite, t, ws, n - 1);
      var t' := RunWorlds(Classifier(lookup), rewrite, t, ws, n - 1);
      var w := ws[n - 1];
      if w.value.WorldObject? {
        StepsAgreeWhereDefined(lookup, w.world, w.value.entries);
        FinishedEntries(AsWritten(lookup), Classifier(lookup), rewrite, t', w.world, w.value.entries, |w.value.entries|);
      }
    }
  }

  /** The loop as written throws exactly when the export holds a null world or a counted null entry. */
  lemma ThrowsIffNull(lookup: map<string, LevelData>, rewrite: (string, string) -> Option<string>,
                      t: ImportTally, ws: seq<WorldEntry>)
    ensures RunWorldsAsWritten(AsWritten(lookup), rewrite, t, ws, |ws|).Threw? <==> !NullFree(ws)
  {
    if NullFree(ws) {
      WorldsAgree(lookup, rewrite, t, ws, |ws|);
    } else {
      var i :| 0 <= i < |ws| && (ws[i].value.WorldNull? || (ws[i].value.WorldObject? && NullEntryIn(ws[i].value.entries)));
      NullWorldThrows(lookup, rewrite, t, ws, i);
      WorldsThrewStays(AsWritten(lookup), rewrite, t, ws, i + 1, |ws|);
    }
  }

  lemma NullWorldThrows(lookup: map<string, LevelData>, rewrite: (string, string) -> Option<string>,
                        t: ImportTally, ws: seq<WorldEntry>, i: nat)
    requires i < |ws| && (ws[i].value.WorldNull? || (ws[i].value.WorldObject? && NullEntryIn(ws[i].value.entries)))
    ensures RunWorldsAsWritten(AsWritten(lookup), rewrite, t, ws, i + 1).Threw?
  {
    match RunWorldsAsWritten(AsWritten(lookup), rewrite, t, ws, i) {
      case Threw(_) =>
      case Finished(t') =>
        if ws[i].value.WorldObject? {
          var es := ws[i].value.entries;
          var k :| 0 <= k < |es| && ParseInt(es[k].key).Some? && es[k].value.NullEntry?;
          assert AsWritten(lookup)(ws[i].world, es[k]).None?;
          NullAlwaysThrows(AsWritten(lookup), rewrite, t', ws[i].world, es, |es|, k);
        }
    }
  }

  /**
   * The command's loop as written: it throws iff the export holds a null world or a counted
   * null entry, and when it finishes every counted entry is counted once.
   */
  lemma ImportOutcome(levels: seq<LevelData>, ws: seq<WorldEntry>, files: map<string, string>)
    ensures var o := RunWorldsAsWritten(AsWritten(LookupOf(levels)), ImportedContent, Start(files), ws, |ws|);
      && (o.Threw? <==> !NullFree(ws))
      && (o.Finished? ==> o.t.imported + o.t.skipped + o.t.missing == Counted(ws) && o.t.imported == |o.t.paths|)
  {
    var o := RunWorldsAsWritten(AsWritten(LookupOf(levels)), ImportedContent, Start(files), ws, |ws|);
    ThrowsIffNull(LookupOf(levels), ImportedContent, Start(files), ws);
    if o.Finished? {
      FinishedWorlds(LookupOf(levels), ImportedContent, Start(files), ws, |ws|);
      ImportCounts(levels, ws, files);
    }
  }
}
