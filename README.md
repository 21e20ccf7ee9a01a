# lean4game-vscode, modelled in Dafny

A model of the logic of the lean4game VS Code extension, which lets a player solve the levels
of a Lean 4 game (in the lean4game format) inside the editor. The modelled parts are:

- **Level-file parser** (`LevelParser`, `LevelFile`, `GameScanner`). This reads a level source file
  line by line:
  - quoted Lean strings on one line or several, with backslash escapes;
  - `/-- … -/` doc comments, attached only to the `Statement` right after them;
  - the `Statement … := by` block, split into signature and proof body;
  - the `Hint` records in the body, with their `(hidden := …)` / `(strict := …)` options;
  - the `World`, `Level`, `Title`, `Introduction` and `Conclusion` headers.

  The directory scanner adds three things: it maps `Game/Levels/<rest>` to `Solutions/<rest>`,
  keeps the files that have a statement, and sorts the levels by world and then by level number.
- **Dependency edges** (`Dependencies`). The game manifest's `Dependency A → B` lines give the
  explicit edges. Implicit edges come from the `L<N>` prefixes of the world directories:
  - worlds are grouped by number;
  - non-pset directories come before pset ones;
  - each world without a declared predecessor hangs off the previous group's anchor.
- **Completion tracking** (`Watcher`):
  - the status of a solution file, from Lean's diagnostics or from its text;
  - the `SolutionWatcher` class with its level index and status cache;
  - the one-pass progress summary: per-world counters and at most one "next" level (`Watcher.ProgressOneNext`).
- **World tree** (`TreeLayout`). The tree view's logic without its pixel geometry:
  - the completion test and node colour;
  - the unlocked set;
  - longest-path layering with a memo and a cycle guard;
  - one barycenter ordering pass over the layers;
  - the overall totals.
- **Proof import** (`ProofImport`). The `leanGame.importProgress` command:
  - the rewrite of a solution file after its last `:= by`;
  - the classification and counting of the entries of a lean4game progress export;
  - the summary message.
- **Solution generator** (`SolutionGenerator`):
  - the Lean module a level file is imported as;
  - the `Statement` → `theorem lean_game_solution` rewrite;
  - the stub file text;
  - the per-file outcome and the counters of generating all stubs.
- **Goals display** (`LspGoals`). The flattening of Lean's `TaggedText` and the reading of an
  interactive-goals reply.

`GameTypes` holds the shared records: the level data, the hint, the completion status, the
world edge and the tree payload. `Strings`, `Seqs` and `Sorting` hold the JavaScript built-ins
that the code relies on:
- `trim`, `split`, `join`, `includes`, `lastIndexOf`;
- whitespace as JavaScript's `\s` defines it;
- an in-place array sort against a total-preorder comparator: an insertion sort by adjacent swaps, stable by construction, though stability is not proved.

Files, diagnostics and the manifest are inputs:
- the file system is a `map<string, string>` from path to text;
- the directory walk is a list of paths;
- the manifest is an optional text.

The model follows the code itself, also where it departs from what it evidently intends:
- The doc comment in front of a `Statement` is read as written: an indented `/--` comment keeps
  its opening marker (first row of "Findings").
- The import loop throws on a `null` world or on a `null` entry under a numeric key, as written.
  The command then shows no message of its own and does not refresh the watcher (second row of
  "Findings").
- Export keys are read with `parseInt(key)` and no radix, so `0x1` is level 1 and `0x` is not a
  number.
- A world's directory comes from its first level *whose path has a `Game/Levels/<dir>` segment*. A
  world whose first level has no such segment takes its directory from a later level.
- An anchor named `""` (a world declared without a `World` line) is falsy. It gives no implicit
  edges to the next group.
- The "`parseLevelFile` returns null iff there is no `Statement` line" reading holds only in one
  direction (see `LevelFile.ParseLevelFile` under "Left out").

## Model

| member | source | states |
|---|---|---|
| LevelParser.TryCloseSingleLine | src/parser/leanGameParser.ts:12-30 | The cursor loop yields exactly the reference reading `CloseSingle` of the line: the unescaped text before the first unescaped quote, or null. |
| LevelParser.CloseSingleOfEscaped | src/parser/leanGameParser.ts:12-30 | Round trip. Writing a value with a backslash before each `"` and `\`, then closing it with a quote, reads back as the value, whatever follows on the line. |
| LevelParser.CloseSingleWithoutQuote | src/parser/leanGameParser.ts:15-29 | A line with no quote at all never closes a string (null). |
| LevelParser.CloseSingleWithoutEscapes | src/parser/leanGameParser.ts:15-29 | Without backslashes, the value is exactly the text before the first quote, and null when there is none. |
| LevelParser.FirstClosing | src/parser/leanGameParser.ts:71-82 | The first line at or after a position that closes a string, or the end. No line before it closes. |
| LevelParser.ReadOpenString | src/parser/leanGameParser.ts:69-82 | The accumulation loop stops at the first closing line. It accumulates the opening rest and every line before that line, each with a newline, then the closing text. |
| LevelParser.LeanString | src/parser/leanGameParser.ts:49-86 | The value is null iff the trimmed rest does not start with `"`. The string is multi-line iff it opens without closing on its line. `endIdx = startIdx` otherwise. A multi-line string ends at the first later closing line, or at the last line when it never closes. Always `startIdx ≤ endIdx < |lines|`. |
| LevelParser.ExtractLeanString | src/parser/leanGameParser.ts:49-86 | The method returns what `LeanString` describes. |
| LevelParser.IdentRun | src/parser/leanGameParser.ts:116 | It is the longest prefix of identifier characters, and the character after it is not one. |
| LevelParser.KeywordIsIdentifier | src/parser/leanGameParser.ts:90-113 | Every top-level keyword is itself an identifier, so the leading-identifier test can find it. |
| LevelParser.TopLevelKeywordIff | src/parser/leanGameParser.ts:115-118 | A line is a top-level keyword line iff one of the 22 keywords is its whole leading identifier. |
| LevelParser.HintArgument | src/parser/leanGameParser.ts:131 | The text after `Hint` never holds a line terminator, as with the regex `.`. |
| LevelParser.ReadOptions | src/parser/leanGameParser.ts:134-145 | The option loop starts with both flags false and applies each `(hidden\|strict := true\|false)` prefix in turn. |
| LevelParser.OptionPrefixOfText | src/parser/leanGameParser.ts:140-144 | A written `(key := value)` option is recognised with its key and value. The text after it is left with its leading whitespace trimmed. |
| LevelParser.ApplyOptionsOfText | src/parser/leanGameParser.ts:139-145 | Written options set the flags as folding them in order: a later option for the same key wins. The text after them is left as it was. |
| LevelParser.HintAt | src/parser/leanGameParser.ts:129-179 | One turn of the hint loop always advances. A hint comes only from a line matching the `Hint` pattern. A turn that yields no hint advances exactly one line. |
| LevelParser.ReadHint | src/parser/leanGameParser.ts:129-179 | One turn of the loop (match, options, literal) computes `HintAt`. |
| LevelParser.ReadLiteralHint | src/parser/leanGameParser.ts:147-178 | The literal part of a turn computes the reference reading of the text after the options. That reading always advances, and by exactly one line when no hint is found. |
| LevelParser.ExtractHints | src/parser/leanGameParser.ts:126-181 | The hints are those of the proof lines, in line order. |
| LevelParser.HintsBoundedByHintLines | src/parser/leanGameParser.ts:126-181 | There are never more hints than lines that match the `Hint` pattern. |
| LevelParser.HintLineRoundTrip | src/parser/leanGameParser.ts:131-156 | Take a one-line `Hint` written with any indentation, options and an escaped string literal. It yields exactly one hint: the value, with the flags those options give from the defaults false/false. |
| LevelParser.StatementBlockMeaning | src/parser/leanGameParser.ts:197-238 | The signature is the lines from `startIdx` through the first line containing `:= by`, joined with `\n`. If there is no such line, the body is empty and `endIdx = |lines|`. Otherwise the body is the following lines up to `endIdx`, none of which ends a proof. The line after `endIdx`, if any, is a column-0 keyword or `/--` line and is not consumed. |
| LevelParser.ReadSignature | src/parser/leanGameParser.ts:205-216 | The signature loop stops at the first line containing `:= by` and collects the lines up to and including it. |
| LevelParser.SignatureEnds | src/parser/leanGameParser.ts:208-214 | The two tests of the signature loop together mean "the line contains `:= by`". |
| LevelParser.ReadProofBody | src/parser/leanGameParser.ts:219-235 | The body loop stops at the first line that ends a proof and collects the lines before it. |
| LevelParser.EndsBody | src/parser/leanGameParser.ts:226-232 | A line ends the body iff it starts at column 0 with a top-level keyword, or starts with `/--`. |
| LevelParser.ExtractStatementAndProof | src/parser/leanGameParser.ts:197-238 | The method returns the block `StatementBlockMeaning` describes. |
| LevelFile.DocTextAgrees | src/parser/leanGameParser.ts:297-298 | For a comment whose first line starts at column 0, the doc text as written and the corrected doc text are the same. |
| LevelFile.DocTextOfComment | src/parser/leanGameParser.ts:283-302 | Corrected doc text: a one-line doc comment at any indentation reads as its trimmed body. |
| LevelFile.DocTextAsWrittenKeepsMarker | src/parser/leanGameParser.ts:297-298 | As written, an indented one-line doc comment keeps its opening `/--` in the doc text. |
| LevelFile.IndentedDocAsWritten | src/parser/leanGameParser.ts:297-298 | As written, `  /-- Doc -/` gives a doc text starting with `/--`. |
| LevelFile.IndentedDocFixed | src/parser/leanGameParser.ts:297-298 | Corrected, `  /-- Doc -/` gives the doc text `Doc`. |
| LevelFile.ParseInt10IgnoresSuffix | src/parser/leanGameParser.ts:323-324 | `parseInt` reads the leading decimal digits; the text after them does not change the number. |
| LevelFile.ParseInt10OfDecimal | src/parser/leanGameParser.ts:323-324 | Reading back a printed non-negative number gives the number. |
| LevelFile.ParseInt10OfNegative | src/parser/leanGameParser.ts:323-324 | A minus sign before the digits negates the number. |
| LevelFile.DocBeforeIgnorable | src/parser/leanGameParser.ts:270-280 | A blank or `--` line between a doc comment and the scan keeps the comment pending. |
| LevelFile.ReadDocComment | src/parser/leanGameParser.ts:283-301 | It always advances. A comment closed on its first line takes exactly that line. It returns the comment's last line `e`: the first later line ending with `-/`, or the last line when none does. The text is the text as written (line 298, on the untrimmed joined lines) of exactly the lines `i..e`. Only blank and `--` lines stand between `e` and the line where the scan resumes. |
| LevelFile.IgnoreLine | src/parser/leanGameParser.ts:270-280 | A blank or `--` line advances one line and keeps all state, including the pending doc comment. |
| LevelFile.DocStep | src/parser/leanGameParser.ts:283-302 | A doc comment changes only the pending doc comment. The new pending value is the text as written of the comment starting at line `i`, which ends on the line before the one where the scan resumes. It advances and keeps the scan invariant. |
| LevelFile.ClearingStep | src/parser/leanGameParser.ts:304-309 | An `import` line, or any unrecognised line, clears the pending doc comment and changes nothing else. |
| LevelFile.LevelStep | src/parser/leanGameParser.ts:321-328 | A `Level` line advances one line and clears the pending doc comment. The level becomes the number `parseInt` finds, and stays as it was when there is none. Nothing else changes. |
| LevelFile.TextStep | src/parser/leanGameParser.ts:311-358 | A `World`/`Title`/`Introduction`/`Conclusion` line advances within the file. Its field becomes the line's string when there is one, and stays otherwise. The pending doc comment is cleared and nothing else changes. The scan invariant is kept: every recorded value still comes from a keyword line of its kind. |
| LevelFile.StatementStep | src/parser/leanGameParser.ts:360-371 | A `Statement` line resumes the scan at the block's `endIdx + 1`. It sets `hasStatement`, takes the signature of the block at line `i` and the hints of its proof lines, moves the pending doc comment to `statementDocstring` and clears the pending one. World, level, title, introduction and conclusion are unchanged. It keeps the scan invariant. |
| LevelFile.Step | src/parser/leanGameParser.ts:266-376 | Every turn of the scan strictly increases the line index and keeps the scan invariant. |
| LevelFile.KeywordStep | src/parser/leanGameParser.ts:311-375 | The keyword branches of a turn keep the scan invariant and advance. |
| LevelFile.ParseLevelFile | src/parser/leanGameParser.ts:246-392 | The paths are kept. A level exists only if some line is a `Statement` line, and always when a `Statement` line is reached. Each field is its default or the value of a matching line. Signature, hints and doc comment all belong to one `Statement` line. The doc comment is the text as written of a comment separated from that line only by blank and `--` lines. |
| GameScanner.SolutionPath | src/parser/leanGameParser.ts:420-424 | `<root>/Game/Levels/<rest>` maps to `<root>/Solutions/<rest>`, with the same rest. |
| GameScanner.SourceOfSolution | src/parser/leanGameParser.ts:420-424 | Mapping a level file to its solution path and back gives the level file. |
| GameScanner.SolutionPathInjective | src/parser/leanGameParser.ts:420-424 | Distinct level files never share a solution file. |
| GameScanner.LevelLeTotalPreorder | src/parser/leanGameParser.ts:446-449 | The comparator is consistent: a total preorder. |
| GameScanner.SortedMeaning | src/parser/leanGameParser.ts:445-449 | Sorted by the comparator means worlds ascending, and levels ascending by number within a world. |
| GameScanner.CollectLevels | src/parser/leanGameParser.ts:434-443 | Every collected level is the parse of one of the files. Every readable file with a reachable `Statement` line contributes a level. |
| GameScanner.SortLevels | src/parser/leanGameParser.ts:446-449 | The sorted levels are a permutation of the collected ones, ordered by world and then level. |
| GameScanner.ParseGameDirectory | src/parser/leanGameParser.ts:430-452 | There are no more levels than files. The result is sorted by world and then level. Each level comes from its file. No file with a reachable `Statement` line is lost. |
| Sorting.SortInPlace | src/parser/leanGameParser.ts:446-449 | `Array.prototype.sort` in place: the array ends up ordered by the comparator and holds the same elements. |
| Dependencies.MatchDependency | src/parser/gameLeanParser.ts:52 | A match only for a line starting with `Dependency`, with non-empty `from` and `to` tokens. |
| Dependencies.MatchDependencyLine | src/parser/gameLeanParser.ts:52 | Round trip: a written `Dependency A → B` or `Dependency A -> B` line reads back as the edge `A → B`. |
| Dependencies.IndentedDependencyIgnored | src/parser/gameLeanParser.ts:52 | The pattern is anchored at column 0: an indented declaration gives no edge. |
| Dependencies.ExplicitFromIff | src/parser/gameLeanParser.ts:50-54 | An edge is explicit iff some manifest line matches as that edge. |
| Dependencies.ExplicitEdges | src/parser/gameLeanParser.ts:50-54 | The loop collects the matched edges in file order. |
| Dependencies.TargetSet | src/parser/gameLeanParser.ts:95-96 | The set of worlds with an explicit predecessor is the set of explicit `to` ends. |
| Dependencies.DirAtLevelFile | src/parser/gameLeanParser.ts:61 | `Game/Levels/<dir>/<file>` has the directory `dir`. |
| Dependencies.LevelsDirAfter | src/parser/gameLeanParser.ts:61 | The leftmost `Game/Levels/` segment of a path decides its directory. |
| Dependencies.WorldDirsFirst | src/parser/gameLeanParser.ts:58-63 | A world's recorded directory is that of its first level whose path has one. |
| Dependencies.WorldDirsCover | src/parser/gameLeanParser.ts:58-63 | Every world with a level whose path has a directory is recorded. |
| Dependencies.WorldDirOrderKeys | src/parser/gameLeanParser.ts:58-63 | The Map's insertion order lists each recorded world once, and only those. |
| Dependencies.WorldDirOrderFirstSeen | src/parser/gameLeanParser.ts:58-63 | In the insertion order a world comes before another iff its first level with a directory comes before every level of the other that has one. |
| Dependencies.CollectWorldDirs | src/parser/gameLeanParser.ts:58-63 | The loop builds that map and its insertion order: each recorded world once, in the order of its first level whose path has a directory. |
| Dependencies.DirGroupOf | src/parser/gameLeanParser.ts:68-70 | `L<n><name>` is in group `n`, whatever the name. |
| Dependencies.LeadingZeroGroup | src/parser/gameLeanParser.ts:68-70 | `L01` and `L1` are in the same group, 1. |
| Dependencies.PsetLeTrans | src/parser/gameLeanParser.ts:83-88 | The group comparator (non-pset first, then by directory name) is transitive. |
| Dependencies.SortGroup | src/parser/gameLeanParser.ts:81-90 | A group is sorted into a permutation with non-pset directories first, then by directory name. |
| Dependencies.SortNumbers | src/parser/gameLeanParser.ts:92 | The group numbers are sorted strictly ascending, as a permutation. |
| Dependencies.AddWorld | src/parser/gameLeanParser.ts:67-73 | One iteration adds a grouped world to its group, which is created when new. An ungrouped world is skipped. |
| Dependencies.CollectGroups | src/parser/gameLeanParser.ts:66-73 | `groupMap` holds exactly the worlds whose directory has an `L<N>` prefix, each in its group. |
| Dependencies.OrderGroups | src/parser/gameLeanParser.ts:79-92 | The groups come in ascending numeric order, each holding exactly its worlds, sorted. |
| Dependencies.FirstFree | src/parser/gameLeanParser.ts:100 | It finds the first world without an explicit predecessor, and none iff every world has one. |
| Dependencies.Anchor | src/parser/gameLeanParser.ts:99-101 | The anchor exists iff the group is non-empty. It is the first world without a predecessor, or else the first world. |
| Dependencies.GroupEdges | src/parser/gameLeanParser.ts:110-123 | The inner loop yields the implicit edges of one group's worlds, in order. |
| Dependencies.ImplicitEdges | src/parser/gameLeanParser.ts:104-124 | The outer loop yields the implicit edges of all groups, in group order. |
| Dependencies.GroupImplicitIff | src/parser/gameLeanParser.ts:110-123 | An edge is among a group's implicit edges iff it is the edge of one of its worlds. |
| Dependencies.ImplicitIff | src/parser/gameLeanParser.ts:104-124 | An edge is implicit iff it is the edge of some world of some group. |
| Dependencies.ImplicitAvoidsExplicitTargets | src/parser/gameLeanParser.ts:95-112 | No implicit edge targets a world that already has an explicit predecessor. |
| Dependencies.ImplicitNoSelfEdge | src/parser/gameLeanParser.ts:114-121 | There are no implicit self-edges. |
| Dependencies.FirstGroupEdge | src/parser/gameLeanParser.ts:114-116 | In the first group, each later world without a predecessor gets an edge from the group's first world. |
| Dependencies.FirstWorldIsRoot | src/parser/gameLeanParser.ts:114-116 | The first group's first world never receives an implicit edge. |
| Dependencies.LaterGroupEdge | src/parser/gameLeanParser.ts:99-121 | In a later group, a world without a predecessor gets an edge from the previous group's anchor, and no implicit edge from anywhere else. |
| Dependencies.TwoGroupsExample | src/parser/gameLeanParser.ts:104-124 | `L1 = {A}`, `L2 = {B, C}` with no explicit edges gives exactly `[A → B, A → C]`. |
| Dependencies.GroupsDisjoint | src/parser/gameLeanParser.ts:66-73 | No world is in two groups. |
| Dependencies.NoPrefixNoGroups | src/parser/gameLeanParser.ts:66-75 | Without any `L<N>` directory there are no groups. |
| Dependencies.ParseGameDependencies | src/parser/gameLeanParser.ts:43-127 | Without a manifest there are no edges. Otherwise the result is the explicit edges in file order, then the implicit edges of the grouped worlds. |
| Dependencies.OnlyExplicitWithoutPrefixes | src/parser/gameLeanParser.ts:75-126 | When no world directory has an `L<N>` prefix, the result is the explicit edges alone. |
| Watcher.CountWhere | src/watcher/solutionWatcher.ts:15-22 | A filter's length is positive iff some diagnostic passes, and is at most their number. |
| Watcher.StatusFromDiagnostics | src/watcher/solutionWatcher.ts:13-32 | `has-errors` iff some diagnostic is an Error. `incomplete` iff there is no error, some Warning mentions `'sorry'`, and the file cannot be read or lacks the import marker. `complete` otherwise. |
| Watcher.StatusFromContent | src/watcher/solutionWatcher.ts:38-46 | Never `has-errors`. `incomplete` iff the file cannot be read, or lacks the marker and contains `sorry`. |
| Watcher.MarkedFileIsComplete | src/watcher/solutionWatcher.ts:24-41 | A file with the import marker is complete under both checks when Lean reports no error. |
| Watcher.FirstIncomplete | src/watcher/solutionWatcher.ts:140-148 | The first position whose status is not complete; none iff all are complete. |
| Watcher.IndexOfKeys | src/watcher/solutionWatcher.ts:69-71 | Exactly the levels' solution paths are indexed. |
| Watcher.IndexOfLast | src/watcher/solutionWatcher.ts:69-71 | Each indexed path maps to the last level that has it. |
| Watcher.WorldsOfMeaning | src/watcher/solutionWatcher.ts:166-171 | The summary's worlds are exactly the levels' worlds, each once. |
| Watcher.WorldsOfFirstSeen | src/watcher/solutionWatcher.ts:166-171 | The summary's worlds are in first-seen order: of two worlds listed in that order, some level of the first comes before every level of the second. |
| Watcher.FirstSeenWitness | src/watcher/solutionWatcher.ts:166-171 | For two worlds listed in that order, it gives a level of the first that comes before every level of the second. |
| Watcher.CompleteAtMostAll | src/watcher/solutionWatcher.ts:176-177 | A world's complete count is at most its number of rows. |
| Watcher.NextCount | src/watcher/solutionWatcher.ts:174-184 | Of a world's rows, exactly the row of the next level is marked next, when that level is in the world. |
| Watcher.NextRowIsFirstIncomplete | src/watcher/solutionWatcher.ts:174-184 | A row marked next is the row of the first level that is not complete. |
| Watcher.ProgressWorlds | src/watcher/solutionWatcher.ts:166-190 | The pushed worlds are the levels' worlds in first-seen order. |
| Watcher.ProgressCounts | src/watcher/solutionWatcher.ts:176-190 | In each pushed world, `total` is its number of levels and `completed ≤ total`. |
| Watcher.ProgressNextRow | src/watcher/solutionWatcher.ts:163-193 | A world has at most one row marked next. Such a row is the level at `nextFilePath`. With no next path, no row is marked. |
| Watcher.ProgressOneNext | src/watcher/solutionWatcher.ts:163-184 | The whole summary has at most one row marked next: two such rows are the same row of the same world. |
| Watcher.ProgressHasNext | src/watcher/solutionWatcher.ts:163-193 | When there is a next path, some world has exactly one row marked next. |
| Watcher.TallyStep | src/watcher/solutionWatcher.ts:167-185 | A level adds one row, one to `total` and, when complete, one to `completed`, to its own world's tally only. |
| Watcher.TalliedStep | src/watcher/solutionWatcher.ts:172-184 | Adding a level to its opened world keeps the per-world tallies equal to their definition. |
| Watcher.TalliedProgress | src/watcher/solutionWatcher.ts:187-190 | After the last level, the tallies read off in world order are the summary's worlds. |
| Watcher.NextAt | src/watcher/solutionWatcher.ts:174-175 | A level is next iff no earlier level was and it is not complete. That is, it is the first incomplete level. |
| Watcher.TallyRunFacts | src/watcher/solutionWatcher.ts:167-185 | After any number of turns, the loop variables hold the tallies so far and the first incomplete level seen so far. |
| Watcher.TallyWorlds | src/watcher/solutionWatcher.ts:161-185 | The loop yields the per-world tallies of all levels and the path of the first incomplete level. |
| Watcher.SolutionWatcher.constructor | src/watcher/solutionWatcher.ts:51-54 | A new watcher has an empty index, cache, level list and edge list. |
| Watcher.SolutionWatcher.LoadLevels | src/watcher/solutionWatcher.ts:63-71 | The cache is emptied and the levels and edges are stored. Each level is indexed by its solution path. The pushed summary is that of the new state. |
| Watcher.SolutionWatcher.OnDiagnosticsChanged | src/watcher/solutionWatcher.ts:85-103 | Only changed paths that are indexed get a status: the one their diagnostics and text give. All other entries are unchanged and the index is kept. The summary is pushed. |
| Watcher.SolutionWatcher.InvalidateAndRefresh | src/watcher/solutionWatcher.ts:134-137 | Exactly the listed paths leave the cache. Every other entry keeps its status. The summary is pushed. |
| Watcher.SolutionWatcher.GetNextLevelFilePath | src/watcher/solutionWatcher.ts:140-148 | It returns the first level in order whose status (cached, or else from the file) is not complete, or null. |
| Watcher.SolutionWatcher.SendUpdates | src/watcher/solutionWatcher.ts:160-197 | The pushed data is the summary of the current state. `hasNext` holds iff there is a next path. |
| Watcher.SolutionWatcher.Clear | src/watcher/solutionWatcher.ts:199-205 | It empties the index, the cache, the levels and the edges. |
| TreeLayout.NodeColor | out/webview/tree.js:42-46 | The complete colour iff the world is complete. The locked colour iff it is not complete, has world data and is not unlocked. Otherwise the unlocked colour. |
| TreeLayout.WorldCompleteIff | out/webview/tree.js:38-40 | A summarised world is complete iff it has levels and all of them are complete. |
| TreeLayout.AllCompleteIff | out/webview/tree.js:38-40 | The complete count equals the number of rows iff every row is complete. |
| TreeLayout.TotalsBounded | out/webview/tree.js:291-292 | The overall completed count never exceeds the overall total. |
| TreeLayout.ProgressText | out/webview/tree.js:291-293 | `No game loaded` iff the summed total is 0. |
| TreeLayout.NextButtonHidden | out/webview/tree.js:294 | The next button is hidden iff there is no next path, or it is empty. |
| TreeLayout.WorldMapOf | out/webview/tree.js:134 | The world map holds exactly the listed world names, each mapping to a world of that name. |
| TreeLayout.Endpoints | out/webview/tree.js:51 | It holds exactly the edge endpoints. |
| TreeLayout.DedupMeaning | out/webview/tree.js:50-52 | Building a set keeps exactly the members, once each. |
| TreeLayout.CollectIds | out/webview/tree.js:50-52 | The ids are the world names, then the edge endpoints, each once in first-seen order. |
| TreeLayout.FromsMeaning | out/webview/tree.js:54-55 | A node's predecessor list holds exactly the `from` ends of its incoming edges. |
| TreeLayout.BuildPreds | out/webview/tree.js:54-55 | Every id has its list of the `from` ends of its incoming edges, in edge order. |
| TreeLayout.PredsClosed | out/webview/tree.js:50-55 | Every predecessor is itself a node. |
| TreeLayout.UnlockedSet | out/webview/tree.js:138-149 | A node is unlocked iff it is an id and every predecessor along the edges is a complete world. |
| TreeLayout.UnlockedAmong | out/webview/tree.js:144-149 | The loop keeps exactly the ids whose predecessor list is all complete. |
| TreeLayout.UnlockedIff | out/webview/tree.js:146 | The check on the predecessor list decides "every incoming edge comes from a complete world". |
| TreeLayout.NoIncomingUnlocked | out/webview/tree.js:138-149 | A world without incoming edges is unlocked. |
| TreeLayout.MissingPredecessorLocks | out/webview/tree.js:146 | A predecessor that is not in the world list counts as incomplete and locks its successor. |
| TreeLayout.MaxLayerBound | out/webview/tree.js:64 | The maximum is at least every predecessor's layer. |
| TreeLayout.ConsistentAdd | out/webview/tree.js:59-67 | Memoising a node's longest-path layer keeps every memoised layer a solution of the equation. |
| TreeLayout.LayerOf | out/webview/tree.js:59-68 | A memoised node gives its layer unchanged. A node met again while being computed gives 0 and the memo is unchanged. Otherwise the node is memoised with its result. Earlier entries never change. On an acyclic graph the memo keeps solving the longest-path equation. The recursion terminates on any graph. |
| TreeLayout.DeepestPredecessor | out/webview/tree.js:63-64 | It computes every predecessor's layer and returns their maximum, under the same memo guarantees. |
| TreeLayout.AssignLayers | out/webview/tree.js:69 | Every id gets a layer. On an acyclic graph every layer is 0 without predecessors, and otherwise one more than the deepest predecessor. |
| TreeLayout.EdgeGoesDown | out/webview/tree.js:58-68 | With consistent layers, every edge goes from a smaller layer to a larger one. |
| TreeLayout.SourceAtZero | out/webview/tree.js:64 | A node without predecessors is in layer 0. |
| TreeLayout.DiamondExample | out/webview/tree.js:58-68 | `A → B`, `B → C`, `A → C` has the layers `A: 0`, `B: 1`, `C: 2`. |
| TreeLayout.DiamondAcyclic | out/webview/tree.js:58-68 | That graph is acyclic, so the computed layers are exactly those. |
| TreeLayout.DeepestLayer | out/webview/tree.js:71 | `maxL` is at least every id's layer, and is 0 or the layer of some id. |
| TreeLayout.OfLayerMeaning | out/webview/tree.js:72-73 | A layer's list holds exactly the ids of that layer. |
| TreeLayout.OfLayerNoDup | out/webview/tree.js:72-73 | A layer's list has no duplicates. |
| TreeLayout.GroupByLayer | out/webview/tree.js:72-73 | `byLayer` has `maxL + 1` rows. Row `l` is the ids of layer `l`, in id order. |
| TreeLayout.LayerRows | out/webview/tree.js:71-73 | The rows partition the ids: each id is in exactly the row of its own layer. |
| TreeLayout.BarLeTotalPreorder | out/webview/tree.js:79-85 | The barycenter comparator is a total preorder. |
| TreeLayout.BarOfSingle | out/webview/tree.js:80-83 | A node with one predecessor has that predecessor's position as its barycenter. |
| TreeLayout.SetRanksMeaning | out/webview/tree.js:77-86 | Ranking a layer gives each member its index and leaves the other nodes alone. |
| TreeLayout.AssignRanks | out/webview/tree.js:77-86 | The `forEach` loop computes that ranking. |
| TreeLayout.RanksPosition | out/webview/tree.js:76-87 | Once layers `0..k-1` are ranked, every node of those layers has its position in its own layer. |
| TreeLayout.SortStrings | out/webview/tree.js:77 | Layer 0 is sorted into a permutation in string order. |
| TreeLayout.SortByBar | out/webview/tree.js:79-85 | A later layer is sorted into a permutation in non-decreasing barycenter order. |
| TreeLayout.SortedNext | out/webview/tree.js:78-87 | A layer sorted against the positions of the layers above it extends the sorted pass. |
| TreeLayout.OrderLayers | out/webview/tree.js:75-87 | Each layer is a permutation of its row. Layer 0 is in string order. Every later layer is in barycenter order against the final positions of the layers above. `xRank` holds exactly those positions. |
| TreeLayout.FinalPositions | out/webview/tree.js:76-87 | After the pass, every node's rank is its index in its own layer. |
| TreeLayout.NodesAndPreds | out/webview/tree.js:50-55 | The ids are the world names and endpoints, once each. `preds` holds exactly their incoming `from` ends and is closed. |
| TreeLayout.LayerAndOrder | out/webview/tree.js:58-87 | The layers are those of the ids (consistent when acyclic). The ordered rows partition the ids by layer and are sorted as the pass sorts them. |
| TreeLayout.ComputeLayout | out/webview/tree.js:49-87 | The whole layout up to pixels: ids, predecessors, layers, the rows partitioning the ids by layer, the ordering, and the final ranks. |
| ProofImport.IndentLines | src/commands/registerCommands.ts:280-283 | Indenting keeps the lines: line `i` of the result is line `i` of the code, with two spaces before it if non-empty. |
| ProofImport.IndentSingleLine | src/commands/registerCommands.ts:280-283 | One-line code is indented as that one line: `rfl` becomes `  rfl`. |
| ProofImport.LastIndexAt | src/commands/registerCommands.ts:264 | An occurrence with none after it is the one `lastIndexOf` finds. |
| ProofImport.ImportedContent | src/commands/registerCommands.ts:262-289 | There is no rewrite iff the file has no `:= by\n`, or the code is blank and the file lacks `sorry` or already has the marker. |
| ProofImport.ImportedShape | src/commands/registerCommands.ts:263-288 | The new text keeps the old text up to and including the last `:= by\n`. Blank code puts the marker and `  sorry` after it. Other code is trimmed, indented and ends with a line break. |
| ProofImport.BlankImportCompletes | src/commands/registerCommands.ts:269-277 | A blank import writes the marker, and the watcher's file check then reports the level complete. |
| ProofImport.BlankImportOnce | src/commands/registerCommands.ts:272 | A second blank import of the same file is refused. |
| ProofImport.WriteImportedProof | src/commands/registerCommands.ts:258-295 | It succeeds iff the file exists and has a rewrite. Then exactly that file gets the new text; on failure nothing changes. |
| ProofImport.ParseIntDecimal | src/commands/registerCommands.ts:142 | `parseInt(key)` without a radix reads a key without a `0x` prefix as `parseInt(key, 10)` does. |
| ProofImport.HexKeys | src/commands/registerCommands.ts:142 | Without a radix, `0x1` is 1 (where base 10 gives 0), and `0x` is NaN. |
| ProofImport.ParseIntOfDecimal | src/commands/registerCommands.ts:142 | A printed non-negative number reads back through `parseInt` without a radix. |
| ProofImport.IntTextRoundTrip | src/commands/registerCommands.ts:142-150 | A printed level number reads back through `parseInt`. |
| ProofImport.LevelKeyInjective | src/commands/registerCommands.ts:129-150 | Different worlds or numbers never share a `world:level` key. |
| ProofImport.LookupOf | src/commands/registerCommands.ts:129-132 | Every level's key is present, and each key maps to a level with that key. |
| ProofImport.LookupLastWins | src/commands/registerCommands.ts:129-132 | `lookup.set` overwrites: a key maps to the last level that has it, so of two levels with the same world and number the later one wins. |
| ProofImport.Perform | src/commands/registerCommands.ts:145-158 | One entry's action: skipped, missing, imported (file rewritten and path recorded), or a failed write counted missing. |
| ProofImport.ImportWorld | src/commands/registerCommands.ts:140-159 | The inner loop, as written, applies the entries of one world in order and stops with a throw at the first null entry under a numeric key. |
| ProofImport.ImportWorlds | src/commands/registerCommands.ts:139-160 | The outer loop, as written, applies the worlds in order and stops with a throw at a null world or a throwing entry. |
| ProofImport.ImportEntries | src/commands/registerCommands.ts:139-160 | The import loop as written over the export, with the lookup of the loaded levels: it finishes, or throws with the files rewritten so far. |
| ProofImport.EntriesThrewStays | src/commands/registerCommands.ts:140-145 | Once a world's loop has thrown, the later entries change nothing. |
| ProofImport.WorldsThrewStays | src/commands/registerCommands.ts:139-145 | Once the loop has thrown, the later worlds change nothing. |
| ProofImport.StepsAgreeWhereDefined | src/commands/registerCommands.ts:142-151 | Where the step as written does not throw, it takes the corrected step's action. |
| ProofImport.FinishedEntries | src/commands/registerCommands.ts:140-159 | A world's loop as written that finishes computes what the loop ignoring nulls computes. |
| ProofImport.FinishedWorlds | src/commands/registerCommands.ts:139-160 | A run of the loop as written that finishes computes what the loop ignoring nulls computes. |
| ProofImport.NullWorldThrows | src/commands/registerCommands.ts:140-145 | A null world, or a world with a null entry under a numeric key, makes the loop throw by the end of that world. |
| ProofImport.ThrowsIffNull | src/commands/registerCommands.ts:139-160 | The loop as written throws iff the export has a null world or a null entry under a numeric key. |
| ProofImport.ImportOutcome | src/commands/registerCommands.ts:134-160 | The command's loop throws iff the export holds a null; when it finishes, `imported + skipped + missing` is the number of counted entries and `imported = |importedPaths|`. |
| ProofImport.RunWorldsAccounted | src/commands/registerCommands.ts:139-160 | Each counted entry (numeric key, object value) is counted exactly once. Each import records its path. Only recorded existing files change. |
| ProofImport.ImportCounts | src/commands/registerCommands.ts:134-160 | `imported + skipped + missing` is the number of counted entries, and `imported = |importedPaths|`. |
| ProofImport.ImportFrame | src/commands/registerCommands.ts:137-163 | The import touches only the paths it reports, which are all existing files. No file is created or removed. |
| ProofImport.SummaryParts | src/commands/registerCommands.ts:165-167 | The imported part always comes first, then the skipped part iff `skipped > 0` and the missing part iff `missing > 0`. |
| ProofImport.SummaryReadBack | src/commands/registerCommands.ts:165-168 | The message starts with `Imported ` followed by a number that `parseInt` reads back as the imported count. |
| ProofImport.ImportedPlural | src/commands/registerCommands.ts:165 | The message says `levels.` iff the count is not 1. |
| ProofImport.ImportProgress | src/commands/registerCommands.ts:87-169 | Without a game root or without levels, only a warning. A cancelled dialog does nothing. An unreadable file, or a `data` that is missing or not an object, gives an error before any file is touched. Otherwise the loop runs as written. When it throws, the files rewritten so far stay rewritten, and there is no refresh, no push and no message of the handler's own. When it finishes, exactly its paths leave the cache, the summary is pushed and the counts are reported. |
| ProofImport.EntryActionAsWritten | src/commands/registerCommands.ts:142-145 | As written, the step throws iff the key is numeric and the value is `null`. Otherwise it acts as the corrected step. |
| ProofImport.NullOneActions | src/commands/registerCommands.ts:142-145 | The entry `"1": null` throws as written and is ignored by the corrected step. |
| ProofImport.NullEntryThrows | src/commands/registerCommands.ts:139-163 | As written, an export with `"1": null` aborts the loop. The corrected loop finishes and leaves the tally and the files as they were. |
| ProofImport.ThrowsOnOnlyEntry | src/commands/registerCommands.ts:139-160 | A world whose only entry throws aborts as written, and is left alone by the corrected loop. |
| ProofImport.StepsAgree | src/commands/registerCommands.ts:142-151 | Without null entries, the step as written and the corrected step take the same actions. |
| ProofImport.EntriesAgree | src/commands/registerCommands.ts:140-159 | When every step as written takes the corrected step's action, the world loop as written finishes with the corrected loop's result. |
| ProofImport.WorldsAgree | src/commands/registerCommands.ts:139-160 | On exports without nulls, the loop as written finishes exactly as the corrected loop does. |
| ProofImport.NullAlwaysThrows | src/commands/registerCommands.ts:140-145 | Once an entry throws, the whole world's loop has thrown. |
| SolutionGenerator.FirstLevelsMatch | out/extension.js:880 | The leftmost position where the `[/\\]Game[/\\]Levels[/\\].+$` pattern matches, or none. |
| SolutionGenerator.StripLean | out/extension.js:883 | A trailing `.lean` is dropped; any other text is kept. |
| SolutionGenerator.ComputeImportPath | out/extension.js:879-884 | `Game.Metadata` iff no `Game/Levels/` match. Otherwise a module name under `Game.Levels.` with no separators left. Never a line break. |
| SolutionGenerator.MatchedModule | out/extension.js:880-883 | The text from a `Game/Levels/` match on becomes a module under `Game.Levels.`. It is never the fallback, and has no separators and no line break. |
| SolutionGenerator.ImportPathUnderRoot | out/extension.js:879-884 | `<root>/Game/Levels/<rest>.lean` imports `Game.Levels.<rest with dots>`. For example, `…/Game/Levels/L1Basics/Intro.lean` gives `Game.Levels.L1Basics.Intro`. |
| SolutionGenerator.ImportPathFallback | out/extension.js:881-882 | A path without a `Game/Levels/` segment (either separator) imports `Game.Metadata`. |
| SolutionGenerator.FirstStatement | out/extension.js:887 | The leftmost line-initial `Statement` match with its length. No match starts before it. |
| SolutionGenerator.NamedStatement | out/extension.js:885-890 | `Statement <name>` before whitespace, `(` or `:` becomes `theorem lean_game_solution`, and the rest is kept. |
| SolutionGenerator.UnnamedStatement | out/extension.js:885-890 | `Statement` directly before `(` or `:` is replaced by the theorem head, and the binders stay. |
| SolutionGenerator.MatchAtStart | out/extension.js:885-890 | A match at the start turns the text into the theorem head followed by the rest after the match. |
| SolutionGenerator.LongerWordUnmatched | out/extension.js:887 | A longer word such as `Statements` is not rewritten. |
| SolutionGenerator.NoStatementUnchanged | out/extension.js:885-890 | A signature without the word is unchanged. |
| SolutionGenerator.TheoremKeepsBy | out/extension.js:885-890 | A header ending in `:= by` still ends in it after the rewrite. |
| SolutionGenerator.TheoremNoLineTerminator | out/extension.js:885-890 | The rewrite adds no line break. |
| SolutionGenerator.StubPreamble | out/extension.js:892-900 | The header, `import <path>` and a blank line, then the doc-comment line iff the docstring is non-empty. |
| SolutionGenerator.StubShape | out/extension.js:891-906 | The stub is the preamble, the rewritten end-trimmed signature, `  sorry` and a final line break. |
| SolutionGenerator.StubLinesSingle | out/extension.js:891-906 | With a one-line doc text and signature, no line of the stub holds a line break. |
| SolutionGenerator.StubLinesBack | out/extension.js:891-906 | Splitting the stub at line breaks gives back its lines. |
| SolutionGenerator.StubIsIncomplete | out/extension.js:891-906 | A fresh stub contains `sorry`, so the watcher's file check reports it incomplete. |
| SolutionGenerator.StubIsImportable | out/extension.js:891-906 | If the signature ends in `:= by`, a fresh stub can take an imported proof, blank or not. |
| SolutionGenerator.GenerateSolutionFile | out/extension.js:907-920 | `exists` with no write when the file exists and `overwrite` is off. Otherwise `created` with the stub written, or `error` with nothing written. |
| SolutionGenerator.Tally | out/extension.js:925-933 | Each outcome adds one to exactly one counter. |
| SolutionGenerator.GenerateAllSolutions | out/extension.js:921-935 | One outcome per level, in order, with the counters and files they leave. |
| SolutionGenerator.GenerateRunFacts | out/extension.js:921-935 | After `n` levels, the counters sum to `n`. |
| SolutionGenerator.GenerateCounts | out/extension.js:921-935 | `created + skipped + errors = |levels|`. |
| SolutionGenerator.GenerateKeepsExisting | out/extension.js:907-935 | Without `overwrite`, no existing file is changed. |
| SolutionGenerator.GenerateFresh | out/extension.js:907-935 | With distinct paths, nothing present and nothing failing, every level is created, and exactly those files exist. |
| LspGoals.FlattenIsLeaves | src/lean/lspIntegration.ts:11-16 | Flattening is the in-order concatenation of the `text` leaves: a leaf is its text, an `append` concatenates its children, a `tag` is its wrapped text, and anything else is empty. |
| LspGoals.FlattenAllIsLeaves | src/lean/lspIntegration.ts:13 | Concatenating the flattened children is concatenating their leaves. |
| LspGoals.JoinNoSeparator | src/lean/lspIntegration.ts:13 | `join('')` is plain concatenation. |
| LspGoals.ConcatAppend | src/lean/lspIntegration.ts:13 | Concatenation distributes over appending lists of strings. |
| LspGoals.LeavesOfListAppend | src/lean/lspIntegration.ts:13 | The leaves of two child lists are the leaves of the first, then those of the second. |
| LspGoals.AppendSplits | src/lean/lspIntegration.ts:13 | Splitting an `append`'s children splits its text. |
| LspGoals.AppendOne | src/lean/lspIntegration.ts:13 | An `append` of one child has that child's text. |
| LspGoals.ParseHypothesis | src/lean/lspIntegration.ts:145-149 | Names are kept and the type is flattened. The value is present iff it was sent, and then flattened. |
| LspGoals.ParseGoal | src/lean/lspIntegration.ts:143-151 | The user name is kept and the type flattened. There is one hypothesis per sent one (none when `hyps` is missing), in order. |
| LspGoals.ParseGoals | src/lean/lspIntegration.ts:128-152 | No goals when the reply or its `goals` field is missing. Otherwise one goal state per goal, in order, with its flattened type and user name. |
| LspGoals.ParsedHypothesis | src/lean/lspIntegration.ts:132-152 | Hypothesis `j` of goal `i` keeps its names, flattens its type, and has a value iff one was sent. |
| LspGoals.ParseGoalsConcat | src/lean/lspIntegration.ts:132-152 | Parsing commutes with concatenating goal lists: order is kept and nothing is merged. |

## Left out

- File system: `readFileSync`, `existsSync`, `writeFileSync` and `mkdirSync` work on a `map<string, string>`. The `readdirSync` walk in `findLeanFiles` (src/parser/leanGameParser.ts:399-412) is a given list of paths. `findGameLean` (src/parser/gameLeanParser.ts:8-15) is an optional manifest text. A read that throws is a path missing from the map.
- Write failures: an exception thrown by a write is not modelled in `writeImportedProof`. In `generateSolutionFile` it is a given set of failing paths. `console.error` is left out.
- `JSON.parse`: the export arrives already parsed, as ordered lists of keyed entries. A parse failure is an opaque error message. `Object.entries` order is the order of those lists. `completed` is its truthiness.
- VS Code host: dialogs, configuration, `withProgress`, the command registration, `loadGame` and `leanGame.regenerateSolutions` are left out. They are orchestration around the modelled operations.
- VS Code subscriptions and their disposal in `loadLevels` are left out, and so are `dispose`, `handleEditorChange` and the selection handler. These are event wiring.
- The panel updates in the diagnostics handler (src/watcher/solutionWatcher.ts:89-101) are left out. So are the game-panel calls in `sendUpdates` and `clear`, except that `setHasNext` is the `hasNext` result.
- `getLevels` is a plain read of `sortedLevels`, which the model reads directly.
- Pixel geometry in out/webview/tree.js (`metrics`, lines 29-36, and the positions, lines 89-111) is left out: it uses floating point and `Math.sin`. So are SVG rendering, scrolling and the message posting.
- The barycenter is an exact `real` mean, not a floating-point one. Ties and ordering could differ from IEEE division only in the last bit.
- The Lean-client RPC in src/lean/lspIntegration.ts:33-126 (client lookup, sessions, keep-alive, retry) is left out: it is asynchronous IPC. `TaggedText` is one of `text`, `append`, `tag` or "none of these". An object carrying several of these keys is not modelled, nor is a `tag` without its second element.
- String order: `localeCompare` and the default `.sort()` are one fixed order, lexicographic on characters (code points). JavaScript's default sort compares UTF-16 code units and `localeCompare` is locale-sensitive. The modelled order differs from `localeCompare` already on ASCII names: the default collation compares letters ignoring case first and weighs punctuation differently, so `"L2bar"` sorts before `"L2Foo"` there but after it in code-point order. Two results change with it. Dependencies.SortGroup can order a group's directories differently, which changes the first group's root, the anchors and hence the implicit edges of Dependencies.ParseGameDependencies. GameScanner.SortLevels can order worlds differently. The default `.sort()` of layer 0 in TreeLayout.SortStrings differs from code-point order only outside the Basic Multilingual Plane.
- Numbers: `parseInt`, level numbers and the counters are unbounded integers. Values beyond 2^53, and the exponent notation JavaScript uses to print numbers of 10^21 and above, are not modelled.
- GameScanner.SolutionPath: `path.relative` and `path.join` are string concatenation on a level path that starts with `<gameRoot>/Game/Levels/`. Their normalisation (a `gameRoot` with a trailing separator, `.` or `..` segments, Windows separators) is not modelled; such a path fails the prefix precondition.
- Regular expressions are hand-written matchers for the specific patterns. There is no regex engine.
- LevelFile.ParseLevelFile: "null iff no `Statement` line" holds only in one direction. A result implies a `Statement` line. A `Statement` line implies a result only when the scan reaches it: a `Statement` line swallowed by a multi-line string, doc comment or proof body is not seen. The contract also says each field comes from *a* line of its kind, not that it is the last one.
- TreeLayout.OrderLayers: the order among ids with equal barycenters (or equal strings) is not stated. The source's stable sort keeps the `byLayer` order there.
- GameScanner.SortLevels, Dependencies.SortGroup and Sorting.SortInPlace state sortedness and permutation, but not stability.
- Dependencies.SortGroup and GameScanner.SortLevels compare names in code-point order, not with `localeCompare`. Their order, and with it the implicit edges, can differ from the source's on ASCII names that differ in case or punctuation (see the string-order line above).
- TreeLayout.LayerOf: on a cyclic graph, only termination and "every id gets a layer" are stated. The cycle guard makes the node re-entered during its own computation count as layer 0 for that call; the layers then depend on the visit order.
- A trailing lone `\` on a line is kept literally by `tryCloseSingleLine`. That text only ever reaches a result that is null, so it is not observable and has no lemma.

## Findings

| source | as written | input that shows it | evidently intended | confidence | as-written member | corrected member |
|---|---|---|---|---|---|---|
| src/parser/leanGameParser.ts:297-298 | The marker pattern `^\/--\s?` is applied to the untrimmed joined doc lines, so an indented doc comment keeps its opening `/--` in `statementDocstring` | a level file whose doc comment line is `  /-- Doc -/`, followed by `Statement` | the doc text `Doc`, as for the same comment at column 0 | not executed | LevelFile.IndentedDocAsWritten | LevelFile.IndentedDocFixed |
| src/commands/registerCommands.ts:143-145 | `typeof null === 'object'`, so a `null` entry under a numeric key passes the guard and `entry.completed` throws a `TypeError`. The command then stops after earlier files were rewritten, with no cache refresh and no message | the export `{"data": {"W": {"1": null}}}` | a null entry is ignored like any other non-object value, and the loop finishes with every counted entry counted once | not executed | ProofImport.NullEntryThrows | ProofImport.ImportCounts |

The scan and the command model the code as written. The corrected definitions are `LevelFile.DocText` and
`ProofImport.RunWorlds`. `LevelFile.DocTextAgrees` shows that the two doc texts agree for a comment at
column 0. `ProofImport.FinishedWorlds` and `ProofImport.ThrowsIffNull` show that the two loops agree
exactly on exports without nulls.
