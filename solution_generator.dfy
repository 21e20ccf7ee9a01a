/**
 * The solution generator: the module a level is imported from, the `Statement` header turned
 * into a theorem, the stub a solution file starts as, and the write of the stubs for all
 * levels. Files are a map from path to text; a path missing from it is a file that does not
 * exist.
 */
module SolutionGenerator {
  import opened Opt
  import opened Strings
  import opened GameTypes
  import Watcher
  import ProofImport

  // ─── computeImportPath ────────────────────────────────────────────────────

  predicate IsSep(c: char) {
    c == '/' || c == '\\'
  }

  const Seps: set<char> := {'/', '\\'}

  /**
   * `[/\\](Game[/\\]Levels[/\\].+)$` matches with its first separator at `i`: 12 characters of
   * `Game?Levels?` follow, then at least one character, and `.+$` admits no line terminator.
   */
  predicate LevelsMatchAt(s: string, i: int) {
    && 0 <= i && i + 13 < |s|
    && IsSep(s[i]) && s[i + 1..i + 5] == "Game" && IsSep(s[i + 5])
    && s[i + 6..i + 12] == "Levels" && IsSep(s[i + 12])
    && NoLineTerminator(s[i + 13..])
  }

  /** The leftmost match at or after `from`. */
  function FirstLevelsMatch(s: string, from: nat): (r: Option<nat>)
    ensures r.Some? ==> from <= r.value && LevelsMatchAt(s, r.value)
    ensures r.Some? ==> forall j :: from <= j < r.value ==> !LevelsMatchAt(s, j)
    ensures r.None? ==> forall j :: from <= j ==> !LevelsMatchAt(s, j)
    decreases |s| - from
  {
    if from >= |s| then None
    else if LevelsMatchAt(s, from) then Some(from)
    else FirstLevelsMatch(s, from + 1)
  }

  /** `.replace(/\.lean$/, '')`. */
  function StripLean(p: string): (r: string)
    ensures EndsWith(p, ".lean") ==> r == p[..|p| - 5]
    ensures !EndsWith(p, ".lean") ==> r == p
  {
    if EndsWith(p, ".lean") then p[..|p| - 5] else p
  }

  /** A file path under `Game/Levels`, as a Lean module name. */
  function ModuleName(p: string): string {
    ReplaceChars(StripLean(p), Seps, '.')
  }

  const FallbackModule: string := "Game.Metadata"

  /**
   * `computeImportPath`: the module named by the path from `Game/Levels` on, or
   * `Game.Metadata` for a path outside any `Game/Levels` directory.
   */
  function ComputeImportPath(sourceFilePath: string): (r: string)
    ensures FirstLevelsMatch(sourceFilePath, 0).None? <==> r == FallbackModule
    ensures FirstLevelsMatch(sourceFilePath, 0).Some? ==>
      StartsWith(r, "Game.Levels.") && forall k :: 0 <= k < |r| ==> !IsSep(r[k])
    ensures NoLineTerminator(r)
  {
    match FirstLevelsMatch(sourceFilePath, 0)
    case None => FallbackModule
    case Some(i) =>
      var rest := sourceFilePath[i + 1..];
      assert rest[..4] == sourceFilePath[i + 1..i + 5] && rest[4] == sourceFilePath[i + 5];
      assert rest[5..11] == sourceFilePath[i + 6..i + 12] && rest[11] == sourceFilePath[i + 12];
      assert rest[12..] == sourceFilePath[i + 13..];
      assert LevelsDir(rest);
      MatchedModule(rest);
      ModuleName(rest)
  }

  /** The text after the first separator of a match: `Game?Levels?` and at least one more character. */
  predicate LevelsDir(rest: string) {
    |rest| > 12 && rest[..4] == "Game" && IsSep(rest[4]) && rest[5..11] == "Levels" && IsSep(rest[11])
  }

  /** The text after the first separator of a match names a module under `Game.Levels`. */
  lemma MatchedModule(rest: string)
    requires LevelsDir(rest) && NoLineTerminator(rest[12..])
    ensures var r := ModuleName(rest);
      StartsWith(r, "Game.Levels.") && r != FallbackModule
      && (forall k :: 0 <= k < |r| ==> !IsSep(r[k])) && NoLineTerminator(r)
  {
    StripKeepsDir(rest);
    var t := StripLean(rest);
    DirDots(t);
    var r := ReplaceChars(t, Seps, '.');
    assert r[5] != FallbackModule[5];
    DotsKeepNoLineTerminator(t);
  }

  lemma StripKeepsDir(rest: string)
    requires LevelsDir(rest) && NoLineTerminator(rest[12..])
    ensures var t := StripLean(rest);
      |t| >= 12 && t[..12] == rest[..12] && NoLineTerminator(t)
  {
    var t := StripLean(rest);
    assert forall k :: 0 <= k < 12 ==> rest[k] != '.' && !IsLineTerminator(rest[k]) by {
      assert forall k :: 0 <= k < 4 ==> rest[k] == "Game"[k];
      assert forall k :: 5 <= k < 11 ==> rest[k] == rest[5..11][k - 5];
    }
    if EndsWith(rest, ".lean") {
      assert rest[|rest| - 5] == '.';
    }
    assert forall k :: 12 <= k < |t| ==> t[k] == rest[12..][k - 12];
  }

  lemma DirDots(t: string)
    requires |t| >= 12 && t[..4] == "Game" && IsSep(t[4]) && t[5..11] == "Levels" && IsSep(t[11])
    ensures var r := ReplaceChars(t, Seps, '.');
      r[..12] == "Game.Levels." && forall k :: 0 <= k < |r| ==> !IsSep(r[k])
  {
    var r := ReplaceChars(t, Seps, '.');
    var g, l := t[..4], t[5..11];
    assert forall k :: 0 <= k < 4 ==> r[k] == g[k];
    assert forall k :: 5 <= k < 11 ==> r[k] == l[k - 5];
    assert r[..4] == "Game" && r[4] == '.' && r[5..11] == "Levels" && r[11] == '.';
    assert r[..12] == r[..4] + [r[4]] + r[5..11] + [r[11]];
    NoSepsAfterDots(t);
  }

  lemma NoSepsAfterDots(t: string)
    ensures var r := ReplaceChars(t, Seps, '.');
      forall k :: 0 <= k < |r| ==> !IsSep(r[k])
  {
  }

  lemma DotsKeepNoLineTerminator(t: string)
    requires NoLineTerminator(t)
    ensures NoLineTerminator(ReplaceChars(t, Seps, '.'))
  {
  }

  /** The leftmost match is the first one when no separator comes before it. */
  lemma {:induction false} FirstMatchWithoutSeps(s: string, from: nat, i: nat)
    requires from <= i && LevelsMatchAt(s, i)
    requires forall j :: from <= j < i ==> !IsSep(s[j])
    ensures FirstLevelsMatch(s, from) == Some(i)
    decreases i - from
  {
    if from < i {
      FirstMatchWithoutSeps(s, from + 1, i);
    }
  }

  lemma ReplaceCharsConcat(a: string, b: string, from: set<char>, to: char)
    ensures ReplaceChars(a + b, from, to) == ReplaceChars(a, from, to) + ReplaceChars(b, from, to)
  {
    var l, r := ReplaceChars(a + b, from, to), ReplaceChars(a, from, to) + ReplaceChars(b, from, to);
    assert |l| == |r|;
    forall k | 0 <= k < |l|
      ensures l[k] == r[k]
    {
      if k >= |a| {
        assert (a + b)[k] == b[k - |a|];
      }
    }
  }

  /** With no separator in the root, the match is the separator right after it. */
  lemma MatchAfterRoot(root: string, rest: string)
    requires forall k :: 0 <= k < |root| ==> !IsSep(root[k])
    requires |rest| > 0 && NoLineTerminator(rest)
    ensures FirstLevelsMatch(root + "/Game/Levels/" + rest, 0) == Some(|root|)
    ensures (root + "/Game/Levels/" + rest)[|root| + 1..] == "Game/Levels/" + rest
  {
    var s := root + "/Game/Levels/" + rest;
    var i := |root|;
    assert s[i..i + 13] == "/Game/Levels/";
    assert s[i + 13..] == rest;
    assert LevelsMatchAt(s, i);
    assert forall j :: 0 <= j < i ==> s[j] == root[j];
    FirstMatchWithoutSeps(s, 0, i);
  }

  /** Dropping `.lean` from a path is dropping it from the path's last part. */
  lemma StripLeanConcat(a: string, rest: string)
    requires EndsWith(rest, ".lean")
    ensures StripLean(a + rest) == a + rest[..|rest| - 5]
  {
    var s := a + rest;
    assert s[|s| - 5..] == rest[|rest| - 5..];
    assert s[..|s| - 5] == a + rest[..|rest| - 5];
  }

  /** The module of `Game/Levels/<rest>.lean`. */
  lemma ModuleOfLevelFile(rest: string)
    requires EndsWith(rest, ".lean") && NoLineTerminator(rest)
    ensures ModuleName("Game/Levels/" + rest) == "Game.Levels." + ReplaceChars(rest[..|rest| - 5], Seps, '.')
  {
    var x := "Game/Levels/" + rest;
    assert x[..4] == "Game" && x[5..11] == "Levels" && x[12..] == rest;
    assert LevelsDir(x);
    MatchedModule(x);
    StripLeanConcat("Game/Levels/", rest);
    ReplaceCharsConcat("Game/Levels/", rest[..|rest| - 5], Seps, '.');
    var r := ModuleName(x);
    assert r == r[..12] + r[12..];
  }

  /**
   * When the game root holds no separator, a `.lean` file under `Game/Levels` imports
   * `Game.Levels.` followed by its path with dots.
   */
  lemma ImportPathUnderRoot(root: string, rest: string)
    requires forall k :: 0 <= k < |root| ==> !IsSep(root[k])
    requires EndsWith(rest, ".lean") && NoLineTerminator(rest)
    ensures ComputeImportPath(root + "/Game/Levels/" + rest) ==
      "Game.Levels." + ReplaceChars(rest[..|rest| - 5], Seps, '.')
  {
    MatchAfterRoot(root, rest);
    ModuleOfLevelFile(rest);
  }

  /** A path with no `Game/Levels` directory imports `Game.Metadata`. */
  lemma ImportPathFallback(path: string)
    requires !Contains(path, "Game/Levels/") && !Contains(path, "Game\\Levels\\")
    requires !Contains(path, "Game/Levels\\") && !Contains(path, "Game\\Levels/")
    ensures ComputeImportPath(path) == FallbackModule
  {
    match FirstLevelsMatch(path, 0) {
      case None =>
      case Some(j) =>
        var w := path[j + 1..j + 13];
        assert OccursAt(path, w, j + 1);
        assert w == "Game/Levels/" || w == "Game\\Levels\\" || w == "Game/Levels\\" || w == "Game\\Levels/"
        by {
          assert w[..4] == "Game" && w[5..11] == "Levels";
        }
        assert false;
    }
  }

  // ─── statementToTheorem ───────────────────────────────────────────────────

  /** `[A-Za-z_]`, the first character of a statement name. */
  predicate IsNameStart(c: char) {
    ('A' <= c <= 'Z') || ('a' <= c <= 'z') || c == '_'
  }

  /** `[A-Za-z0-9_'.]`, the characters of a statement name. */
  predicate IsNameChar(c: char) {
    IsNameStart(c) || ('0' <= c <= '9') || c == '\'' || c == '.'
  }

  /** What the lookahead `(?=\s|\(|:)` accepts. */
  predicate IsFollow(c: char) {
    IsSpace(c) || c == '(' || c == ':'
  }

  /** `^` under the `m` flag: the start of the text or of a line. */
  predicate LineStart(s: string, p: int) {
    p == 0 || (0 < p <= |s| && IsLineTerminator(s[p - 1]))
  }

  /** The length of the longest run of whitespace from `k`. */
  function SpaceRun(s: string, k: nat): (n: nat)
    requires k <= |s|
    ensures k + n <= |s| && (k + n == |s| || !IsSpace(s[k + n]))
    ensures forall j :: k <= j < k + n ==> IsSpace(s[j])
    decreases |s| - k
  {
    if k < |s| && IsSpace(s[k]) then 1 + SpaceRun(s, k + 1) else 0
  }

  /** The length of the longest run of name characters from `k`. */
  function NameRun(s: string, k: nat): (n: nat)
    requires k <= |s|
    ensures k + n <= |s| && (k + n == |s| || !IsNameChar(s[k + n]))
    ensures forall j :: k <= j < k + n ==> IsNameChar(s[j])
    decreases |s| - k
  {
    if k < |s| && IsNameChar(s[k]) then 1 + NameRun(s, k + 1) else 0
  }

  const StatementWord: string := "Statement"
  const TheoremHead: string := "theorem lean_game_solution"

  /** `^Statement` at `p`. */
  predicate WordAt(s: string, p: nat) {
    LineStart(s, p) && p + 9 <= |s| && s[p..p + 9] == StatementWord
  }

  /**
   * The length of `\s+[A-Za-z_][A-Za-z0-9_'.]*` from `q` when the lookahead accepts what
   * follows the identifier. Both runs are greedy, and giving characters back cannot help: a
   * shorter run leaves an identifier character or a space where the next part needs the other.
   */
  function NamedLength(s: string, q: nat): (r: Option<nat>)
    requires q <= |s|
    ensures r.Some? ==> q + r.value < |s| && r.value > 0
  {
    var w := SpaceRun(s, q);
    if w > 0 && q + w < |s| && IsNameStart(s[q + w]) then
      var e := q + w + NameRun(s, q + w);
      if e < |s| && IsFollow(s[e]) then Some(e - q) else None
    else None
  }

  /**
   * The length of the match of `^Statement(\s+[A-Za-z_][A-Za-z0-9_'.]*)?(?=\s|\(|:)` at `p`:
   * with the name when one follows, else the word alone if the lookahead accepts the next
   * character.
   */
  function MatchLength(s: string, p: nat): (r: Option<nat>)
    ensures r.Some? ==> WordAt(s, p) && p + r.value < |s| && r.value >= |StatementWord|
  {
    if !WordAt(s, p) then None
    else match NamedLength(s, p + 9)
      case Some(m) => Some(9 + m)
      case None => if p + 9 < |s| && IsFollow(s[p + 9]) then Some(9) else None
  }

  /** No match starts in `[from, to)`. */
  predicate NoMatchIn(s: string, from: nat, to: nat)
    decreases to - from
  {
    from >= to || (MatchLength(s, from).None? && NoMatchIn(s, from + 1, to))
  }

  lemma {:induction false} NoMatchInMeaning(s: string, from: nat, to: nat)
    ensures NoMatchIn(s, from, to) <==> (forall j :: from <= j < to ==> MatchLength(s, j).None?)
    decreases if from < to then to - from else 0
  {
    if from < to {
      NoMatchInMeaning(s, from + 1, to);
    }
  }

  /** The leftmost match at or after `from`, with its length; none can start past the end. */
  function FirstStatement(s: string, from: nat): (r: Option<(nat, nat)>)
    ensures r.Some? ==> from <= r.value.0 && MatchLength(s, r.value.0) == Some(r.value.1)
    ensures r.Some? ==> NoMatchIn(s, from, r.value.0)
    ensures r.None? ==> NoMatchIn(s, from, |s|)
    decreases |s| - from
  {
    if from >= |s| then None
    else match MatchLength(s, from)
      case Some(n) => Some((from, n))
      case None => FirstStatement(s, from + 1)
  }

  /**
   * `statementToTheorem`: the first line-initial `Statement`, with its name if it has one,
   * becomes `theorem lean_game_solution`; everything else is kept.
   */
  function StatementToTheorem(sig: string): string {
    match FirstStatement(sig, 0)
    case None => sig
    case Some((p, n)) => sig[..p] + TheoremHead + sig[p + n..]
  }

  /** A match never covers a colon: the word, the spaces and the name hold none. */
  lemma MatchHasNoColon(s: string, p: nat, n: nat)
    requires MatchLength(s, p) == Some(n)
    ensures forall j :: p <= j < p + n ==> s[j] != ':'
  {
    assert forall j :: p <= j < p + 9 ==> s[j] == s[p..p + 9][j - p];
  }

  /** A named statement: the word and the name give way to the theorem head. */
  lemma NamedStatement(name: string, tail: string)
    requires |name| > 0 && IsNameStart(name[0]) && forall k :: 0 <= k < |name| ==> IsNameChar(name[k])
    requires |tail| > 0 && IsFollow(tail[0])
    ensures StatementToTheorem(StatementWord + " " + name + tail) == TheoremHead + tail
  {
    var s := StatementWord + " " + name + tail;
    WordAtStart(StatementWord, " " + name + tail);
    assert s[10..] == name + tail;
    SpaceRunOne(s, 9);
    NameRunOf(s, 10, name, tail);
    assert NamedLength(s, 9) == Some(|name| + 1);
    MatchAtStart(s, |name| + 10);
    assert s[|name| + 10..] == tail;
  }

  lemma WordAtStart(w: string, rest: string)
    requires w == StatementWord
    ensures WordAt(w + rest, 0) && (w + rest)[9..] == rest
  {
    assert (w + rest)[..9] == w;
  }

  /** A match at the start turns the text into the theorem head and what follows the match. */
  lemma MatchAtStart(s: string, n: nat)
    requires MatchLength(s, 0) == Some(n)
    ensures StatementToTheorem(s) == TheoremHead + s[n..]
  {
    assert 0 < |s|;
    assert FirstStatement(s, 0) == Some((0, n));
    assert StatementToTheorem(s) == s[..0] + TheoremHead + s[n..];
    assert s[..0] + TheoremHead == TheoremHead;
  }

  lemma SpaceRunOne(s: string, k: nat)
    requires k + 1 < |s| && IsSpace(s[k]) && !IsSpace(s[k + 1])
    ensures SpaceRun(s, k) == 1
  {
    assert SpaceRun(s, k + 1) == 0;
  }

  lemma {:induction false} NameRunOf(s: string, k: nat, name: string, tail: string)
    requires k + |name| + |tail| == |s| && s[k..] == name + tail
    requires forall i :: 0 <= i < |name| ==> IsNameChar(name[i])
    requires |tail| > 0 && !IsNameChar(tail[0])
    ensures NameRun(s, k) == |name|
    decreases |name|
  {
    assert s[k] == (name + tail)[0];
    if |name| > 0 {
      assert s[k + 1..] == name[1..] + tail;
      NameRunOf(s, k + 1, name[1..], tail);
    }
  }

  /** An unnamed statement: only the word is replaced, the binders after it stay. */
  lemma UnnamedStatement(tail: string)
    requires |tail| > 0 && (tail[0] == '(' || tail[0] == ':')
    ensures StatementToTheorem(StatementWord + tail) == TheoremHead + tail
  {
    var s := StatementWord + tail;
    WordAtStart(StatementWord, tail);
    assert s[9] == tail[0];
    assert SpaceRun(s, 9) == 0;
    assert NamedLength(s, 9).None?;
    MatchAtStart(s, 9);
  }

  lemma NameCharNotFollow(c: char)
    requires IsNameChar(c)
    ensures !IsFollow(c) && !IsSpace(c)
  {
  }

  /** A word run straight on (`Statements`) is no match. */
  lemma LongerWordUnmatched(s: string)
    requires |s| > 9 && s[..9] == StatementWord && IsNameChar(s[9]) && NoLineTerminator(s)
    ensures StatementToTheorem(s) == s
  {
    NameCharNotFollow(s[9]);
    assert SpaceRun(s, 9) == 0;
    assert MatchLength(s, 0).None?;
    forall j | 0 < j
      ensures !LineStart(s, j)
    {
      if j <= |s| {
        assert !IsLineTerminator(s[j - 1]);
      }
    }
  }

  /** A signature without the word is left as it is. */
  lemma NoStatementUnchanged(sig: string)
    requires !Contains(sig, StatementWord)
    ensures StatementToTheorem(sig) == sig
  {
    forall j | 0 <= j
      ensures !WordAt(sig, j)
    {
      if j + 9 <= |sig| {
        assert !OccursAt(sig, StatementWord, j);
      }
    }
  }

  /** A header ending in `:= by` still ends in it once the statement is rewritten. */
  lemma TheoremKeepsBy(sig: string)
    requires EndsWith(sig, ":= by")
    ensures EndsWith(StatementToTheorem(sig), ":= by")
  {
    match FirstStatement(sig, 0) {
      case None =>
      case Some((p, n)) =>
        MatchHasNoColon(sig, p, n);
        assert sig[|sig| - 5] == ':' && p < |sig| - 5;
        SuffixKept(sig, p, p + n, TheoremHead, ":= by");
    }
  }

  /** Replacing a stretch that ends before a suffix keeps the suffix. */
  lemma SuffixKept(s: string, i: nat, j: nat, h: string, x: string)
    requires i <= j <= |s| - |x| && EndsWith(s, x)
    ensures EndsWith(s[..i] + h + s[j..], x)
  {
    var r := s[..i] + h + s[j..];
    assert r[|r| - |x|..] == s[j..][|s| - j - |x|..];
  }

  /** Rewriting the statement adds no line break. */
  lemma TheoremNoLineTerminator(sig: string)
    requires NoLineTerminator(sig)
    ensures NoLineTerminator(StatementToTheorem(sig))
  {
    match FirstStatement(sig, 0) {
      case None =>
      case Some((p, n)) =>
        NoLineTerminatorSlices(sig, p, p + n);
    }
  }

  lemma NoLineTerminatorSlices(sig: string, i: nat, j: nat)
    requires i <= j <= |sig| && NoLineTerminator(sig)
    ensures NoLineTerminator(sig[..i] + TheoremHead + sig[j..])
  {
    var a, b := sig[..i], sig[j..];
    assert NoLineTerminator(a) && NoLineTerminator(b) by {
      assert forall k :: 0 <= k < |b| ==> b[k] == sig[j + k];
    }
    assert NoLineTerminator(TheoremHead);
    NoLineTerminatorConcat(a, TheoremHead);
    NoLineTerminatorConcat(a + TheoremHead, b);
  }

  // ─── generateSolutionContent ──────────────────────────────────────────────

  /**
   * The first line of every stub, "-- Auto-generated by lean-game-vscode. Edit the proof below.",
   * written as short concatenated pieces so that `HeaderSingleLine` can show it holds no line break.
   */
  const StubHeader: string :=
    "-- Auto-gen" + "erated by " + "lean-game-" + "vscode. Ed" + "it the pro" + "of below."
  const SorryLine: string := "  sorry"

  /** The signature line of the stub. */
  function TheoremLine(level: LevelData): string {
    StatementToTheorem(TrimEnd(level.statementSignature))
  }

  /** The lines before the signature: header, import, blank line and the docstring if any. */
  function StubPreamble(level: LevelData): (r: seq<string>)
    ensures |r| == (if level.statementDocstring != "" then 4 else 3)
    ensures r[0] == StubHeader && r[1] == "import " + ComputeImportPath(level.sourceFilePath) && r[2] == ""
    ensures level.statementDocstring != "" ==> r[3] == "/-- " + level.statementDocstring + " -/"
  {
    [StubHeader, "import " + ComputeImportPath(level.sourceFilePath), ""]
    + (if level.statementDocstring != "" then ["/-- " + level.statementDocstring + " -/"] else [])
  }

  /** The lines of the stub: the preamble, the theorem, `  sorry` and a final empty line. */
  function StubLines(level: LevelData): seq<string> {
    StubPreamble(level) + [TheoremLine(level), SorryLine, ""]
  }

  /** `generateSolutionContent`: the stub's lines joined by line breaks. */
  function GenerateSolutionContent(level: LevelData): string {
    Join(StubLines(level), "\n")
  }

  /** The stub is the preamble, the theorem line, `  sorry` and a final line break. */
  lemma StubShape(level: LevelData)
    ensures GenerateSolutionContent(level) ==
      Join(StubPreamble(level), "\n") + "\n" + TheoremLine(level) + "\n" + SorryLine + "\n"
  {
    var pre := StubPreamble(level);
    var line := TheoremLine(level);
    assert StubLines(level) == pre + [line] + [SorryLine] + [""];
    JoinSnoc(pre, "\n", line);
    JoinSnoc(pre + [line], "\n", SorryLine);
    JoinSnoc(pre + [line] + [SorryLine], "\n", "");
  }

  /** Each line of the stub is free of line breaks when the docstring and the signature are. */
  lemma StubLinesSingle(level: LevelData)
    requires '\n' !in level.statementDocstring && NoLineTerminator(level.statementSignature)
    ensures forall i :: 0 <= i < |StubLines(level)| ==> '\n' !in StubLines(level)[i]
  {
    var sig := TrimEnd(level.statementSignature);
    assert NoLineTerminator(sig) by {
      assert forall k :: 0 <= k < |sig| ==> sig[k] == level.statementSignature[k];
    }
    TheoremNoLineTerminator(sig);
    var line := TheoremLine(level);
    assert '\n' !in line by {
      assert forall k :: 0 <= k < |line| ==> !IsLineTerminator(line[k]);
    }
    var imp := ComputeImportPath(level.sourceFilePath);
    assert '\n' !in imp by {
      assert forall k :: 0 <= k < |imp| ==> !IsLineTerminator(imp[k]);
    }
    HeaderSingleLine();
    if level.statementDocstring != "" {
      DocSingleLine(level.statementDocstring);
    }
  }

  lemma HeaderSingleLine()
    ensures '\n' !in StubHeader
  {
    NoBreakConcat("-- Auto-gen", "erated by ");
    NoBreakConcat("-- Auto-gen" + "erated by ", "lean-game-");
    NoBreakConcat("-- Auto-gen" + "erated by " + "lean-game-", "vscode. Ed");
    NoBreakConcat("-- Auto-gen" + "erated by " + "lean-game-" + "vscode. Ed", "it the pro");
    NoBreakConcat("-- Auto-gen" + "erated by " + "lean-game-" + "vscode. Ed" + "it the pro", "of below.");
  }

  lemma NoBreakConcat(a: string, b: string)
    requires '\n' !in a && '\n' !in b
    ensures '\n' !in a + b
  {
  }

  lemma DocSingleLine(d: string)
    requires '\n' !in d
    ensures '\n' !in "/-- " + d + " -/"
  {
  }

  /**
   * When the docstring and the signature are one line each, splitting the stub at line breaks
   * gives back its lines.
   */
  lemma StubLinesBack(level: LevelData)
    requires '\n' !in level.statementDocstring && NoLineTerminator(level.statementSignature)
    ensures Split(GenerateSolutionContent(level), '\n') == StubLines(level)
  {
    StubLinesSingle(level);
    SplitJoin(StubLines(level), '\n');
  }

  lemma SorryInTail(a: string)
    ensures Contains(a + "\n" + SorryLine + "\n", "sorry")
  {
    var c := a + "\n" + SorryLine + "\n";
    assert c[|a| + 3..|a| + 8] == "sorry";
    assert OccursAt(c, "sorry", |a| + 3);
  }

  lemma ByInTail(a: string, line: string)
    requires EndsWith(line, ":= by")
    ensures Contains(a + "\n" + line + "\n" + SorryLine + "\n", ProofImport.ByMarker)
  {
    var c := a + "\n" + line + "\n" + SorryLine + "\n";
    var at := |a| + 1 + |line| - 5;
    assert c[at..at + 5] == line[|line| - 5..];
    assert c[at + 5] == '\n';
    assert c[at..at + 6] == ProofImport.ByMarker;
    assert OccursAt(c, ProofImport.ByMarker, at);
  }

  /** A fresh stub says `sorry`, so unless its own text carries the marker it is incomplete. */
  lemma StubIsIncomplete(level: LevelData)
    requires !Contains(GenerateSolutionContent(level), Watcher.ImportMarker)
    ensures Watcher.StatusFromContent(Some(GenerateSolutionContent(level))) == Incomplete
  {
    StubShape(level);
    SorryInTail(Join(StubPreamble(level), "\n") + "\n" + TheoremLine(level));
  }

  /**
   * A stub whose signature ends in `:= by` is one the importer can fill: it carries a
   * `:= by` line and still says `sorry`.
   */
  lemma StubIsImportable(level: LevelData, code: string)
    requires EndsWith(TrimEnd(level.statementSignature), ":= by")
    requires !Contains(GenerateSolutionContent(level), Watcher.ImportMarker)
    ensures ProofImport.ImportedContent(GenerateSolutionContent(level), code).Some?
  {
    StubShape(level);
    TheoremKeepsBy(TrimEnd(level.statementSignature));
    SorryInTail(Join(StubPreamble(level), "\n") + "\n" + TheoremLine(level));
    ByInTail(Join(StubPreamble(level), "\n"), TheoremLine(level));
  }

  // ─── generateSolutionFile and generateAllSolutions ─────────────────────────

  datatype Outcome = Exists | Created | Failed

  /**
   * What `generateSolutionFile` does to the files, for a stub text `stub(level)`: an existing
   * file is kept unless `overwrite`; otherwise the stub is written, unless the directory or the
   * write fails (the paths in `failing`).
   */
  ghost function FileOutcome(stub: LevelData -> string, files: map<string, string>, level: LevelData,
                             overwrite: bool, failing: set<string>): (Outcome, map<string, string>) {
    var path := level.solutionFilePath;
    if path in files && !overwrite then (Exists, files)
    else if path in failing then (Failed, files)
    else (Created, files[path := stub(level)])
  }

  /** `generateSolutionFile`, writing the text of `generateSolutionContent`. */
  method GenerateSolutionFile(files: map<string, string>, level: LevelData, overwrite: bool,
                              failing: set<string>)
    returns (result: Outcome, files': map<string, string>)
    ensures (result, files') == FileOutcome(GenerateSolutionContent, files, level, overwrite, failing)
  {
    var path := level.solutionFilePath;
    if path in files && !overwrite {
      return Exists, files;
    }
    if path in failing {
      return Failed, files;
    }
    result, files' := Created, files[path := GenerateSolutionContent(level)];
  }

  /** The counters of `generateAllSolutions` and the files after it. */
  datatype GenerateTally = GenerateTally(files: map<string, string>, created: nat, skipped: nat, errors: nat)

  /** One level's outcome added to the counters, with the files it leaves. */
  function Tally(t: GenerateTally, result: Outcome, files': map<string, string>): (r: GenerateTally)
    ensures r.files == files'
    ensures r.created + r.skipped + r.errors == t.created + t.skipped + t.errors + 1
    ensures r.created == t.created + (if result == Created then 1 else 0)
  {
    match result
    case Created => t.(files := files', created := t.created + 1)
    case Exists => t.(files := files', skipped := t.skipped + 1)
    case Failed => t.(files := files', errors := t.errors + 1)
  }

  ghost function GenerateRun(stub: LevelData -> string, levels: seq<LevelData>, files: map<string, string>,
                             overwrite: bool, failing: set<string>, n: nat): GenerateTally
    requires n <= |levels|
  {
    if n == 0 then GenerateTally(files, 0, 0, 0)
    else
      var t := GenerateRun(stub, levels, files, overwrite, failing, n - 1);
      var (result, files') := FileOutcome(stub, t.files, levels[n - 1], overwrite, failing);
      Tally(t, result, files')
  }

  /** `generateAllSolutions`: one outcome per level, in order. */
  method GenerateAllSolutions(levels: seq<LevelData>, files: map<string, string>, overwrite: bool,
                              failing: set<string>)
    returns (t: GenerateTally)
    ensures t == GenerateRun(GenerateSolutionContent, levels, files, overwrite, failing, |levels|)
  {
    t := GenerateTally(files, 0, 0, 0);
    var i := 0;
    while i < |levels|
      invariant 0 <= i <= |levels|
      invariant t == GenerateRun(GenerateSolutionContent, levels, files, overwrite, failing, i)
    {
      var result, files' := GenerateSolutionFile(t.files, levels[i], overwrite, failing);
      t := Tally(t, result, files');
      i := i + 1;
    }
  }

  /**
   * Every level is counted once; existing files are kept unless `overwrite`; every level whose
   * path does not fail ends with a solution file; no other path is created.
   */
  lemma {:induction false} GenerateRunFacts(stub: LevelData -> string, levels: seq<LevelData>,
                                            files: map<string, string>, overwrite: bool,
                                            failing: set<string>, n: nat)
    requires n <= |levels|
    ensures var t := GenerateRun(stub, levels, files, overwrite, failing, n);
      && t.created + t.skipped + t.errors == n
      && (!overwrite ==> forall p :: p in files ==> p in t.files && t.files[p] == files[p])
      && (forall i :: 0 <= i < n && levels[i].solutionFilePath !in failing ==> levels[i].solutionFilePath in t.files)
      && (forall p :: p in t.files ==> p in files || exists i :: 0 <= i < n && levels[i].solutionFilePath == p)
  {
    if n > 0 {
      GenerateRunFacts(stub, levels, files, overwrite, failing, n - 1);
      var t := GenerateRun(stub, levels, files, overwrite, failing, n - 1);
      var t' := GenerateRun(stub, levels, files, overwrite, failing, n);
      forall p | p in t'.files
        ensures p in files || exists i :: 0 <= i < n && levels[i].solutionFilePath == p
      {
        if p !in t.files {
          assert levels[n - 1].solutionFilePath == p;
        }
      }
    }
  }

  /** `created + skipped + errors = |levels|`. */
  lemma GenerateCounts(levels: seq<LevelData>, files: map<string, string>, overwrite: bool, failing: set<string>)
    ensures var t := GenerateRun(GenerateSolutionContent, levels, files, overwrite, failing, |levels|);
      t.created + t.skipped + t.errors == |levels|
  {
    GenerateRunFacts(GenerateSolutionContent, levels, files, overwrite, failing, |levels|);
  }

  /** Without `overwrite`, no existing solution is ever replaced. */
  lemma GenerateKeepsExisting(levels: seq<LevelData>, files: map<string, string>, failing: set<string>, p: string)
    requires p in files
    ensures var t := GenerateRun(GenerateSolutionContent, levels, files, false, failing, |levels|);
      p in t.files && t.files[p] == files[p]
  {
    GenerateRunFacts(GenerateSolutionContent, levels, files, false, failing, |levels|);
  }

  /** With nothing failing and nothing present, every level is created and nothing else is. */
  lemma GenerateFresh(levels: seq<LevelData>, overwrite: bool)
    requires forall i, j :: 0 <= i < j < |levels| ==> levels[i].solutionFilePath != levels[j].solutionFilePath
    ensures var t := GenerateRun(GenerateSolutionContent, levels, map[], overwrite, {}, |levels|);
      t.created == |levels| && t.files.Keys == set i | 0 <= i < |levels| :: levels[i].solutionFilePath
  {
    FreshRun(GenerateSolutionContent, levels, overwrite, |levels|);
  }

  lemma {:induction false} FreshRun(stub: LevelData -> string, levels: seq<LevelData>, overwrite: bool, n: nat)
    requires n <= |levels|
    requires forall i, j :: 0 <= i < j < |levels| ==> levels[i].solutionFilePath != levels[j].solutionFilePath
    ensures GenerateRun(stub, levels, map[], overwrite, {}, n).created == n
    ensures GenerateRun(stub, levels, map[], overwrite, {}, n).files.Keys == set i | 0 <= i < n :: levels[i].solutionFilePath
  {
    if n > 0 {
      FreshRun(stub, levels, overwrite, n - 1);
      var t := GenerateRun(stub, levels, map[], overwrite, {}, n - 1);
      assert levels[n - 1].solutionFilePath !in t.files;
      var t' := GenerateRun(stub, levels, map[], overwrite, {}, n);
      assert t'.files.Keys == t.files.Keys + {levels[n - 1].solutionFilePath};
      assert (set i | 0 <= i < n :: levels[i].solutionFilePath)
        == (set i | 0 <= i < n - 1 :: levels[i].solutionFilePath) + {levels[n - 1].solutionFilePath};
    }
  }
}
