/**
 * Completion detection and the `SolutionWatcher`: the status cache keyed by solution path, the
 * level index, and the progress summary pushed to the panels. Diagnostics are given per path and
 * file system reads are a map from path to text, where a missing path is a failed read.
 */
module Watcher {
  import opened Opt
  import opened Strings
  import opened GameTypes

  datatype Severity = Error | Warning | Information | Hint

  datatype Diagnostic = Diagnostic(severity: Severity, message: string)

  /** The marker the importer writes into levels completed in the browser without their code. */
  const ImportMarker: string := "-- lean4game-imported: completed"

  /** `readFileSync`: the text of `path`, or `None` when the read throws. */
  function Read(files: map<string, string>, path: string): Option<string> {
    if path in files then Some(files[path]) else None
  }

  // ─── Completion detection ─────────────────────────────────────────────────

  predicate IsError(d: Diagnostic) {
    d.severity == Error
  }

  /** A Warning whose message mentions `'sorry'`, quotes included. */
  predicate IsSorryWarning(d: Diagnostic) {
    d.severity == Warning && Contains(d.message, "'sorry'")
  }

  /** The length of `diags.filter(p)`. */
  function CountWhere(diags: seq<Diagnostic>, p: Diagnostic -> bool): (r: nat)
    ensures r <= |diags|
    ensures r > 0 <==> exists i :: 0 <= i < |diags| && p(diags[i])
  {
    if |diags| == 0 then 0
    else CountWhere(diags[..|diags| - 1], p) + (if p(diags[|diags| - 1]) then 1 else 0)
  }

  /**
   * `getCompletionStatus`: errors win; a `sorry` warning means incomplete unless the file text
   * carries the import marker; otherwise complete.
   */
  function StatusFromDiagnostics(diags: seq<Diagnostic>, content: Option<string>): (r: Status)
    ensures r == HasErrors <==> exists i :: 0 <= i < |diags| && diags[i].severity == Error
    ensures r == Incomplete <==>
      && (forall i :: 0 <= i < |diags| ==> diags[i].severity != Error)
      && (exists i :: 0 <= i < |diags| && IsSorryWarning(diags[i]))
      && !(content.Some? && Contains(content.value, ImportMarker))
  {
    var errors := CountWhere(diags, IsError);
    var sorrys := CountWhere(diags, IsSorryWarning);
    if errors > 0 then HasErrors
    else if sorrys > 0 then
      (if content.Some? && Contains(content.value, ImportMarker) then Complete else Incomplete)
    else Complete
  }

  /** `checkFileContent`: the scan of a file Lean has not processed yet. */
  function StatusFromContent(content: Option<string>): (r: Status)
    ensures r != HasErrors
    ensures r == Incomplete <==>
      content.None? || (!Contains(content.value, ImportMarker) && Contains(content.value, "sorry"))
  {
    match content
    case None => Incomplete
    case Some(text) =>
      if Contains(text, ImportMarker) then Complete
      else if Contains(text, "sorry") then Incomplete
      else Complete
  }

  /** A file carrying the marker counts as complete under both checks when Lean reports no error. */
  lemma MarkedFileIsComplete(diags: seq<Diagnostic>, text: string)
    requires Contains(text, ImportMarker)
    requires forall i :: 0 <= i < |diags| ==> diags[i].severity != Error
    ensures StatusFromDiagnostics(diags, Some(text)) == Complete
    ensures StatusFromContent(Some(text)) == Complete
  {
  }

  // ─── Statuses of the loaded levels ────────────────────────────────────────

  /** A cached status wins; only on a cache miss is the file scanned. */
  function StatusIn(cache: map<string, Status>, files: map<string, string>, l: LevelData): Status {
    if l.solutionFilePath in cache then cache[l.solutionFilePath]
    else StatusFromContent(Read(files, l.solutionFilePath))
  }

  /** `statusCache.get(path) ?? checkFileContent(path)`, as a function of the level. */
  function StatusOf(cache: map<string, Status>, files: map<string, string>): LevelData -> Status {
    l => StatusIn(cache, files, l)
  }

  /** The status of each level, in order, under `statusOf`. */
  ghost function StatusesBy(levels: seq<LevelData>, statusOf: LevelData -> Status): (r: seq<Status>)
    ensures |r| == |levels|
  {
    seq(|levels|, i requires 0 <= i < |levels| => statusOf(levels[i]))
  }

  ghost function Statuses(levels: seq<LevelData>, cache: map<string, Status>, files: map<string, string>): (r: seq<Status>)
    ensures |r| == |levels|
  {
    StatusesBy(levels, StatusOf(cache, files))
  }

  /** The index of the first status that is not `Complete`. */
  ghost function FirstIncomplete(st: seq<Status>): (r: Option<nat>)
    ensures r.Some? ==> r.value < |st| && st[r.value] != Complete
    ensures r.Some? ==> forall j :: 0 <= j < r.value ==> st[j] == Complete
    ensures r.None? ==> forall j :: 0 <= j < |st| ==> st[j] == Complete
  {
    if |st| == 0 then None
    else if st[0] != Complete then Some(0)
    else match FirstIncomplete(st[1..])
      case None => None
      case Some(k) => Some(k + 1)
  }

  /** The solution path of the first level that is not complete. */
  ghost function NextPath(levels: seq<LevelData>, st: seq<Status>): Option<string>
    requires |st| == |levels|
  {
    match FirstIncomplete(st)
    case None => None
    case Some(i) => Some(levels[i].solutionFilePath)
  }

  // ─── The progress summary ─────────────────────────────────────────────────

  /** The worlds of `levels[..n]`, in first-seen order. */
  ghost function WorldsOf(levels: seq<LevelData>, n: nat): seq<string>
    requires n <= |levels|
  {
    if n == 0 then []
    else
      var ws := WorldsOf(levels, n - 1);
      if levels[n - 1].world in ws then ws else ws + [levels[n - 1].world]
  }

  /** The rows of world `w` among `levels[..n]`: one per level of the world, in sequence order. */
  ghost function Rows(levels: seq<LevelData>, st: seq<Status>, next: Option<nat>, w: string, n: nat): seq<LevelProgress>
    requires |st| == |levels| && n <= |levels|
  {
    if n == 0 then []
    else
      var l := levels[n - 1];
      Rows(levels, st, next, w, n - 1)
        + (if l.world == w then [LevelProgress(l.level, l.title, l.solutionFilePath, st[n - 1], next == Some(n - 1))] else [])
  }

  ghost function CountComplete(rows: seq<LevelProgress>): nat {
    if |rows| == 0 then 0
    else CountComplete(rows[..|rows| - 1]) + (if rows[|rows| - 1].status == Complete then 1 else 0)
  }

  ghost function CountNext(rows: seq<LevelProgress>): nat {
    if |rows| == 0 then 0
    else CountNext(rows[..|rows| - 1]) + (if rows[|rows| - 1].isNext then 1 else 0)
  }

  ghost function WorldRow(levels: seq<LevelData>, st: seq<Status>, next: Option<nat>, w: string): WorldProgress
    requires |st| == |levels|
  {
    var rows := Rows(levels, st, next, w, |levels|);
    WorldProgress(w, rows, CountComplete(rows), |rows|)
  }

  /** What `sendUpdates` pushes to the tree panel for the given state. */
  ghost function Progress(levels: seq<LevelData>, cache: map<string, Status>, files: map<string, string>,
                          edges: seq<WorldEdge>): TreeData
  {
    var st := Statuses(levels, cache, files);
    var next := FirstIncomplete(st);
    var ws := WorldsOf(levels, |levels|);
    TreeData(seq(|ws|, k requires 0 <= k < |ws| => WorldRow(levels, st, next, ws[k])), edges, NextPath(levels, st))
  }

  // ─── The level index ──────────────────────────────────────────────────────

  /** `levelIndex` after indexing `levels[..n]` by solution path: a later level overwrites. */
  ghost function IndexOf(levels: seq<LevelData>, n: nat): map<string, LevelData>
    requires n <= |levels|
  {
    if n == 0 then map[] else IndexOf(levels, n - 1)[levels[n - 1].solutionFilePath := levels[n - 1]]
  }

  /** The last position of `levels[..n]`, if any, whose solution path is `p`. */
  ghost predicate LastWithPath(levels: seq<LevelData>, n: nat, p: string, i: nat)
    requires n <= |levels|
  {
    i < n && levels[i].solutionFilePath == p && forall j :: i < j < n ==> levels[j].solutionFilePath != p
  }

  /** Exactly the solution paths of the levels are indexed... */
  lemma {:induction false} IndexOfKeys(levels: seq<LevelData>, n: nat, p: string)
    requires n <= |levels|
    ensures p in IndexOf(levels, n) <==> exists i :: 0 <= i < n && levels[i].solutionFilePath == p
  {
    if n > 0 {
      IndexOfKeys(levels, n - 1, p);
      if levels[n - 1].solutionFilePath == p {
        assert levels[n - 1].solutionFilePath == p;
      }
    }
  }

  /** ...each by the last level that has it. */
  lemma {:induction false} IndexOfLast(levels: seq<LevelData>, n: nat, p: string)
    requires n <= |levels| && p in IndexOf(levels, n)
    ensures exists i: nat :: LastWithPath(levels, n, p, i) && IndexOf(levels, n)[p] == levels[i]
  {
    if levels[n - 1].solutionFilePath == p {
      assert LastWithPath(levels, n, p, n - 1);
    } else {
      IndexOfLast(levels, n - 1, p);
      var i: nat :| LastWithPath(levels, n - 1, p, i) && IndexOf(levels, n - 1)[p] == levels[i];
      assert LastWithPath(levels, n, p, i);
    }
  }

  // ─── Facts about the summary ──────────────────────────────────────────────

  /** Some level of world `u` among `levels[..n]` comes before every level of world `v`. */
  ghost predicate SeenBefore(levels: seq<LevelData>, n: nat, u: string, v: string)
    requires n <= |levels|
  {
    exists i :: 0 <= i < n && levels[i].world == u && forall j :: 0 <= j <= i ==> levels[j].world != v
  }

  /** First-seen order: of two worlds listed in that order, the first is seen before the second. */
  lemma WorldsOfFirstSeen(levels: seq<LevelData>, n: nat)
    requires n <= |levels|
    ensures forall a, b :: 0 <= a < b < |WorldsOf(levels, n)| ==>
      SeenBefore(levels, n, WorldsOf(levels, n)[a], WorldsOf(levels, n)[b])
  {
    forall a, b | 0 <= a < b < |WorldsOf(levels, n)|
      ensures SeenBefore(levels, n, WorldsOf(levels, n)[a], WorldsOf(levels, n)[b])
    {
      var i := FirstSeenWitness(levels, n, a, b);
    }
  }

  /** A level of world `a` that comes before every level of world `b`, for `a` listed before `b`. */
  lemma {:induction false} FirstSeenWitness(levels: seq<LevelData>, n: nat, a: nat, b: nat) returns (i: nat)
    requires n <= |levels| && a < b < |WorldsOf(levels, n)|
    ensures i < n && levels[i].world == WorldsOf(levels, n)[a]
    ensures forall j :: 0 <= j <= i ==> levels[j].world != WorldsOf(levels, n)[b]
  {
    var ws, w := WorldsOf(levels, n - 1), levels[n - 1].world;
    assert WorldsOf(levels, n) == ws || WorldsOf(levels, n) == ws + [w];
    if b < |ws| {
      i := FirstSeenWitness(levels, n - 1, a, b);
    } else {
      WorldsOfMeaning(levels, n - 1);
      assert ws[a] in ws;
      i :| 0 <= i < n - 1 && levels[i].world == ws[a];
      forall j | 0 <= j <= i
        ensures levels[j].world != w
      {
        assert levels[j].world in ws;
      }
    }
  }

  lemma {:induction false} WorldsOfMeaning(levels: seq<LevelData>, n: nat)
    requires n <= |levels|
    ensures forall w :: w in WorldsOf(levels, n) <==> exists i :: 0 <= i < n && levels[i].world == w
    ensures forall a, b :: 0 <= a < b < |WorldsOf(levels, n)| ==> WorldsOf(levels, n)[a] != WorldsOf(levels, n)[b]
  {
    if n > 0 {
      WorldsOfMeaning(levels, n - 1);
      var ws := WorldsOf(levels, n - 1);
      forall w
        ensures w in WorldsOf(levels, n) <==> exists i :: 0 <= i < n && levels[i].world == w
      {
        if w == levels[n - 1].world {
          assert levels[n - 1].world == w;
        }
      }
    }
  }

  lemma {:induction false} CompleteAtMostAll(rows: seq<LevelProgress>)
    ensures CountComplete(rows) <= |rows|
  {
    if |rows| > 0 {
      CompleteAtMostAll(rows[..|rows| - 1]);
    }
  }

  /** A world that has not been seen yet has no rows. */
  lemma {:induction false} RowsOfUnseen(levels: seq<LevelData>, st: seq<Status>, next: Option<nat>, w: string, n: nat)
    requires |st| == |levels| && n <= |levels|
    requires w !in WorldsOf(levels, n)
    ensures Rows(levels, st, next, w, n) == []
  {
    if n > 0 {
      var ws := WorldsOf(levels, n - 1);
      assert levels[n - 1].world in WorldsOf(levels, n);
      RowsOfUnseen(levels, st, next, w, n - 1);
    }
  }

  /** Of the rows of `w`, exactly the one of level `next` is marked next, when it is in `w`. */
  lemma {:induction false} NextCount(levels: seq<LevelData>, st: seq<Status>, next: Option<nat>, w: string, n: nat)
    requires |st| == |levels| && n <= |levels|
    ensures CountNext(Rows(levels, st, next, w, n)) ==
      if next.Some? && next.value < n && levels[next.value].world == w then 1 else 0
  {
    if n > 0 {
      NextCount(levels, st, next, w, n - 1);
      var prev := Rows(levels, st, next, w, n - 1);
      var rows := Rows(levels, st, next, w, n);
      var l := levels[n - 1];
      if l.world == w {
        var row := LevelProgress(l.level, l.title, l.solutionFilePath, st[n - 1], next == Some(n - 1));
        assert rows == prev + [row];
        assert rows[..|rows| - 1] == prev;
        assert CountNext(rows) == CountNext(prev) + (if row.isNext then 1 else 0);
      } else {
        ConcatEmptyRight(prev);
        assert rows == prev;
      }
    }
  }

  /** Each row marked next is the row of the first level that is not complete. */
  lemma {:induction false} NextRowIsFirstIncomplete(levels: seq<LevelData>, st: seq<Status>, next: Option<nat>, w: string, n: nat, r: LevelProgress)
    requires |st| == |levels| && n <= |levels|
    requires r in Rows(levels, st, next, w, n) && r.isNext
    ensures next.Some? && next.value < n && r.filePath == levels[next.value].solutionFilePath
  {
    if n > 0 {
      if r !in Rows(levels, st, next, w, n - 1) {
        assert next == Some(n - 1);
      } else {
        NextRowIsFirstIncomplete(levels, st, next, w, n - 1, r);
      }
    }
  }

  function WorldNames(ws: seq<WorldProgress>): (r: seq<string>)
    ensures |r| == |ws| && forall k :: 0 <= k < |ws| ==> r[k] == ws[k].world
  {
    seq(|ws|, k requires 0 <= k < |ws| => ws[k].world)
  }

  /** The summary lists the worlds of the levels in first-seen order (see `WorldsOfMeaning`). */
  lemma ProgressWorlds(levels: seq<LevelData>, cache: map<string, Status>, files: map<string, string>, edges: seq<WorldEdge>)
    ensures WorldNames(Progress(levels, cache, files, edges).worlds) == WorldsOf(levels, |levels|)
  {
  }

  /** In each world `total` is its number of rows and `completed` is at most `total`. */
  lemma ProgressCounts(levels: seq<LevelData>, cache: map<string, Status>, files: map<string, string>, edges: seq<WorldEdge>, k: nat)
    requires k < |Progress(levels, cache, files, edges).worlds|
    ensures var e := Progress(levels, cache, files, edges).worlds[k];
      e.completed <= e.total == |e.levels|
  {
    CompleteAtMostAll(Progress(levels, cache, files, edges).worlds[k].levels);
  }

  /** A row marked next is the level at `nextFilePath`, and no world has more than one. */
  lemma ProgressNextRow(levels: seq<LevelData>, cache: map<string, Status>, files: map<string, string>, edges: seq<WorldEdge>, k: nat, r: LevelProgress)
    requires k < |Progress(levels, cache, files, edges).worlds|
    ensures var d := Progress(levels, cache, files, edges);
      CountNext(d.worlds[k].levels) <= 1
      && (r in d.worlds[k].levels && r.isNext ==> d.nextFilePath == Some(r.filePath))
      && (d.nextFilePath.None? ==> CountNext(d.worlds[k].levels) == 0)
  {
    var st := Statuses(levels, cache, files);
    var ws := WorldsOf(levels, |levels|);
    NextCount(levels, st, FirstIncomplete(st), ws[k], |levels|);
    if r in Progress(levels, cache, files, edges).worlds[k].levels && r.isNext {
      NextRowIsFirstIncomplete(levels, st, FirstIncomplete(st), ws[k], |levels|, r);
    }
  }

  /** A row marked next counts. */
  lemma {:induction false} NextCounted(rows: seq<LevelProgress>, i: nat)
    requires i < |rows| && rows[i].isNext
    ensures CountNext(rows) >= 1
  {
    if i < |rows| - 1 {
      NextCounted(rows[..|rows| - 1], i);
    }
  }

  /** Two rows marked next count twice. */
  lemma {:induction false} TwoNextCounted(rows: seq<LevelProgress>, i: nat, j: nat)
    requires i < j < |rows| && rows[i].isNext && rows[j].isNext
    ensures CountNext(rows) >= 2
  {
    if j < |rows| - 1 {
      TwoNextCounted(rows[..|rows| - 1], i, j);
    } else {
      NextCounted(rows[..|rows| - 1], i);
    }
  }

  /** The whole summary has at most one row marked next: two such rows are the same row of the same world. */
  lemma ProgressOneNext(levels: seq<LevelData>, cache: map<string, Status>, files: map<string, string>, edges: seq<WorldEdge>,
                        k1: nat, i1: nat, k2: nat, i2: nat)
    requires var d := Progress(levels, cache, files, edges);
      && k1 < |d.worlds| && i1 < |d.worlds[k1].levels| && d.worlds[k1].levels[i1].isNext
      && k2 < |d.worlds| && i2 < |d.worlds[k2].levels| && d.worlds[k2].levels[i2].isNext
    ensures k1 == k2 && i1 == i2
  {
    var st := Statuses(levels, cache, files);
    var ws := WorldsOf(levels, |levels|);
    var next := FirstIncomplete(st);
    var rows1 := Rows(levels, st, next, ws[k1], |levels|);
    var rows2 := Rows(levels, st, next, ws[k2], |levels|);
    NextCounted(rows1, i1);
    NextCounted(rows2, i2);
    NextCount(levels, st, next, ws[k1], |levels|);
    NextCount(levels, st, next, ws[k2], |levels|);
    WorldsOfMeaning(levels, |levels|);
    assert ws[k1] == ws[k2];
    if i1 < i2 {
      TwoNextCounted(rows1, i1, i2);
    } else if i2 < i1 {
      TwoNextCounted(rows1, i2, i1);
    }
  }

  /** When there is a next level, its world has exactly one row marked next. */
  lemma ProgressHasNext(levels: seq<LevelData>, cache: map<string, Status>, files: map<string, string>, edges: seq<WorldEdge>)
    requires Progress(levels, cache, files, edges).nextFilePath.Some?
    ensures exists k ::
      (0 <= k < |Progress(levels, cache, files, edges).worlds| &&
       CountNext(Progress(levels, cache, files, edges).worlds[k].levels) == 1)
  {
    var st := Statuses(levels, cache, files);
    var next := FirstIncomplete(st);
    var ws := WorldsOf(levels, |levels|);
    WorldsOfMeaning(levels, |levels|);
    var w := levels[next.value].world;
    assert w in ws;
    var k :| 0 <= k < |ws| && ws[k] == w;
    NextCount(levels, st, next, w, |levels|);
    assert CountNext(Progress(levels, cache, files, edges).worlds[k].levels) == 1;
  }

  /** The tally `sendUpdates` keeps per world. */
  datatype Tally = Tally(completed: nat, total: nat, levels: seq<LevelProgress>)

  ghost function TallyOf(levels: seq<LevelData>, st: seq<Status>, next: Option<nat>, w: string, n: nat): Tally
    requires |st| == |levels| && n <= |levels|
  {
    var rows := Rows(levels, st, next, w, n);
    Tally(CountComplete(rows), |rows|, rows)
  }

  /** One step of the tally of world `w`. */
  lemma TallyStep(levels: seq<LevelData>, st: seq<Status>, next: Option<nat>, w: string, n: nat)
    requires |st| == |levels| && n < |levels|
    ensures levels[n].world != w ==> TallyOf(levels, st, next, w, n + 1) == TallyOf(levels, st, next, w, n)
    ensures levels[n].world == w ==>
      var t := TallyOf(levels, st, next, w, n);
      var l := levels[n];
      TallyOf(levels, st, next, w, n + 1) ==
        Tally(if st[n] == Complete then t.completed + 1 else t.completed, t.total + 1,
              t.levels + [LevelProgress(l.level, l.title, l.solutionFilePath, st[n], next == Some(n))])
  {
    var rows := Rows(levels, st, next, w, n + 1);
    if levels[n].world == w {
      assert rows[..|rows| - 1] == Rows(levels, st, next, w, n);
    } else {
      ConcatEmptyRight(Rows(levels, st, next, w, n));
    }
  }

  /** The loop invariant of `sendUpdates` after `n` levels. */
  ghost predicate Tallied(levels: seq<LevelData>, st: seq<Status>, next: Option<nat>,
                          worldMap: map<string, Tally>, worldsOrdered: seq<string>, n: nat)
    requires |st| == |levels| && n <= |levels|
  {
    && worldsOrdered == WorldsOf(levels, n)
    && (forall w :: w in worldMap <==> w in worldsOrdered)
    && (forall w :: w in worldMap ==> worldMap[w] == TallyOf(levels, st, next, w, n))
  }

  /** The state just before level `n` is added: its world is open, with its tally so far. */
  ghost predicate Opened(levels: seq<LevelData>, st: seq<Status>, next: Option<nat>,
                         worldMap: map<string, Tally>, worldsOrdered: seq<string>, n: nat)
    requires |st| == |levels| && n < |levels|
  {
    && worldsOrdered == WorldsOf(levels, n + 1)
    && (forall w :: w in worldMap <==> w in worldsOrdered)
    && (forall w :: w in worldMap ==> worldMap[w] == TallyOf(levels, st, next, w, n))
    && levels[n].world in worldMap
  }

  /** A world seen for the first time gets an empty tally. */
  lemma TalliedNewWorld(levels: seq<LevelData>, st: seq<Status>, next: Option<nat>,
                        worldMap: map<string, Tally>, worldsOrdered: seq<string>, n: nat)
    requires |st| == |levels| && n < |levels|
    requires Tallied(levels, st, next, worldMap, worldsOrdered, n) && levels[n].world !in worldMap
    ensures Opened(levels, st, next, worldMap[levels[n].world := Tally(0, 0, [])],
                   worldsOrdered + [levels[n].world], n)
  {
    RowsOfUnseen(levels, st, next, levels[n].world, n);
  }

  /** A world already seen stays as it is until level `n` is added to it. */
  lemma TalliedSeenWorld(levels: seq<LevelData>, st: seq<Status>, next: Option<nat>,
                         worldMap: map<string, Tally>, worldsOrdered: seq<string>, n: nat)
    requires |st| == |levels| && n < |levels|
    requires Tallied(levels, st, next, worldMap, worldsOrdered, n) && levels[n].world in worldMap
    ensures Opened(levels, st, next, worldMap, worldsOrdered, n)
  {
  }

  /** Adding level `n` to the tally of its world keeps the invariant. */
  lemma TalliedStep(levels: seq<LevelData>, st: seq<Status>, next: Option<nat>,
                    worldMap: map<string, Tally>, worldsOrdered: seq<string>, n: nat,
                    status: Status, isNext: bool)
    requires |st| == |levels| && n < |levels|
    requires Opened(levels, st, next, worldMap, worldsOrdered, n)
    requires status == st[n] && (isNext <==> next == Some(n))
    ensures Tallied(levels, st, next, WithLevel(worldMap, levels[n], status, isNext), worldsOrdered, n + 1)
  {
    TallyStep(levels, st, next, levels[n].world, n);
    forall w | w in worldMap && w != levels[n].world
      ensures TallyOf(levels, st, next, w, n + 1) == TallyOf(levels, st, next, w, n)
    {
      TallyStep(levels, st, next, w, n);
    }
  }

  /** The tallies after the last level are the summary. */
  lemma TalliedProgress(levels: seq<LevelData>, cache: map<string, Status>, files: map<string, string>, edges: seq<WorldEdge>,
                        worldMap: map<string, Tally>, worldsOrdered: seq<string>, worlds: seq<WorldProgress>)
    requires Tallied(levels, Statuses(levels, cache, files), FirstIncomplete(Statuses(levels, cache, files)), worldMap, worldsOrdered, |levels|)
    requires |worlds| == |worldsOrdered|
    requires forall k :: 0 <= k < |worlds| ==>
      var e := worldMap[worldsOrdered[k]];
      worlds[k] == WorldProgress(worldsOrdered[k], e.levels, e.completed, e.total)
    ensures worlds == Progress(levels, cache, files, edges).worlds
  {
  }

  /** Level `i` is the next one exactly when none before it was and it is not complete. */
  lemma NextAt(st: seq<Status>, next: Option<nat>, i: nat, foundNext: bool)
    requires next == FirstIncomplete(st) && i < |st|
    requires foundNext <==> next.Some? && next.value < i
    ensures (!foundNext && st[i] != Complete) <==> next == Some(i)
  {
  }

  /** The variables of the loop of `sendUpdates`. */
  datatype TallyState = TallyState(worldMap: map<string, Tally>, worldsOrdered: seq<string>,
                                   foundNext: bool, nextFilePath: Option<string>)

  /** The tally of the level's (open) world with one more row for the level. */
  function WithLevel(m: map<string, Tally>, level: LevelData, status: Status, isNext: bool): map<string, Tally>
    requires level.world in m
  {
    var entry := m[level.world];
    m[level.world := Tally(if status == Complete then entry.completed + 1 else entry.completed, entry.total + 1,
      entry.levels + [LevelProgress(level.level, level.title, level.solutionFilePath, status, isNext)])]
  }

  /** One turn of the loop of `sendUpdates` on a level whose status is `status`. */
  function TallyTurn(s: TallyState, level: LevelData, status: Status): TallyState {
    var seen := level.world in s.worldMap;
    var m := if seen then s.worldMap else s.worldMap[level.world := Tally(0, 0, [])];
    var isNext := !s.foundNext && status != Complete;
    TallyState(
      WithLevel(m, level, status, isNext),
      if seen then s.worldsOrdered else s.worldsOrdered + [level.world],
      s.foundNext || isNext,
      if isNext then Some(level.solutionFilePath) else s.nextFilePath)
  }

  /** The loop variables after the first `n` levels. */
  ghost function TallyRun(levels: seq<LevelData>, statusOf: LevelData -> Status, n: nat): TallyState
    requires n <= |levels|
  {
    if n == 0 then TallyState(map[], [], false, None)
    else TallyTurn(TallyRun(levels, statusOf, n - 1), levels[n - 1], statusOf(levels[n - 1]))
  }

  /** What the loop variables mean after `n` levels: the tallies so far and the first incomplete level. */
  ghost predicate TallyFacts(levels: seq<LevelData>, st: seq<Status>, next: Option<nat>, s: TallyState, n: nat)
    requires |st| == |levels| && n <= |levels|
  {
    && Tallied(levels, st, next, s.worldMap, s.worldsOrdered, n)
    && (s.foundNext <==> next.Some? && next.value < n)
    && s.nextFilePath == if s.foundNext then Some(levels[next.value].solutionFilePath) else None
  }

  /** One turn keeps the meaning of the loop variables. */
  lemma TurnKeepsFacts(levels: seq<LevelData>, st: seq<Status>, next: Option<nat>, s: TallyState, n: nat)
    requires |st| == |levels| && n < |levels| && next == FirstIncomplete(st)
    requires TallyFacts(levels, st, next, s, n)
    ensures TallyFacts(levels, st, next, TallyTurn(s, levels[n], st[n]), n + 1)
  {
    NextAt(st, next, n, s.foundNext);
    TurnKeepsTallied(levels, st, next, s, n, !s.foundNext && st[n] != Complete);
    TurnKeepsNext(levels, st, next, s, n);
  }

  lemma TurnKeepsTallied(levels: seq<LevelData>, st: seq<Status>, next: Option<nat>, s: TallyState, n: nat, isNext: bool)
    requires |st| == |levels| && n < |levels|
    requires Tallied(levels, st, next, s.worldMap, s.worldsOrdered, n)
    requires isNext == (!s.foundNext && st[n] != Complete) && (isNext <==> next == Some(n))
    ensures var t := TallyTurn(s, levels[n], st[n]);
      Tallied(levels, st, next, t.worldMap, t.worldsOrdered, n + 1)
  {
    var level := levels[n];
    var m := if level.world in s.worldMap then s.worldMap else s.worldMap[level.world := Tally(0, 0, [])];
    var ws := if level.world in s.worldMap then s.worldsOrdered else s.worldsOrdered + [level.world];
    if level.world !in s.worldMap {
      TalliedNewWorld(levels, st, next, s.worldMap, s.worldsOrdered, n);
    } else {
      TalliedSeenWorld(levels, st, next, s.worldMap, s.worldsOrdered, n);
    }
    TalliedStep(levels, st, next, m, ws, n, st[n], isNext);
  }

  lemma TurnKeepsNext(levels: seq<LevelData>, st: seq<Status>, next: Option<nat>, s: TallyState, n: nat)
    requires |st| == |levels| && n < |levels| && next == FirstIncomplete(st)
    requires s.foundNext <==> next.Some? && next.value < n
    requires s.nextFilePath == if s.foundNext then Some(levels[next.value].solutionFilePath) else None
    ensures var t := TallyTurn(s, levels[n], st[n]);
      && (t.foundNext <==> next.Some? && next.value < n + 1)
      && t.nextFilePath == if t.foundNext then Some(levels[next.value].solutionFilePath) else None
  {
    NextAt(st, next, n, s.foundNext);
  }

  lemma {:induction false} TallyRunFacts(levels: seq<LevelData>, statusOf: LevelData -> Status, n: nat)
    requires n <= |levels|
    ensures TallyFacts(levels, StatusesBy(levels, statusOf), FirstIncomplete(StatusesBy(levels, statusOf)),
                       TallyRun(levels, statusOf, n), n)
  {
    var st := StatusesBy(levels, statusOf);
    if n > 0 {
      TallyRunFacts(levels, statusOf, n - 1);
      assert statusOf(levels[n - 1]) == st[n - 1];
      TurnKeepsFacts(levels, st, FirstIncomplete(st), TallyRun(levels, statusOf, n - 1), n - 1);
    }
  }

  /**
   * The loop of `sendUpdates`: per-world tallies in first-seen order, with the `foundNext` flag
   * marking the first level that is not complete.
   */
  method TallyWorlds(levels: seq<LevelData>, statusOf: LevelData -> Status)
    returns (worldMap: map<string, Tally>, worldsOrdered: seq<string>, nextFilePath: Option<string>)
    ensures Tallied(levels, StatusesBy(levels, statusOf), FirstIncomplete(StatusesBy(levels, statusOf)),
                    worldMap, worldsOrdered, |levels|)
    ensures nextFilePath == NextPath(levels, StatusesBy(levels, statusOf))
  {
    worldMap, worldsOrdered, nextFilePath := map[], [], None;
    var foundNext := false;
    var i := 0;
    while i < |levels|
      invariant 0 <= i <= |levels|
      invariant TallyState(worldMap, worldsOrdered, foundNext, nextFilePath) == TallyRun(levels, statusOf, i)
    {
      var level := levels[i];
      ghost var s := TallyState(worldMap, worldsOrdered, foundNext, nextFilePath);
      if level.world !in worldMap {
        worldMap := worldMap[level.world := Tally(0, 0, [])];
        worldsOrdered := worldsOrdered + [level.world];
      }
      ghost var open := worldMap;
      var entry := worldMap[level.world];
      var status := statusOf(level);
      var isNext := !foundNext && status != Complete;
      if isNext {
        foundNext := true;
        nextFilePath := Some(level.solutionFilePath);
      }
      var completed := if status == Complete then entry.completed + 1 else entry.completed;
      worldMap := worldMap[level.world := Tally(completed, entry.total + 1,
        entry.levels + [LevelProgress(level.level, level.title, level.solutionFilePath, status, isNext)])];
      assert worldMap == WithLevel(open, level, status, isNext);
      assert TallyState(worldMap, worldsOrdered, foundNext, nextFilePath) == TallyTurn(s, level, status);
      i := i + 1;
    }
    TallyRunFacts(levels, statusOf, |levels|);
  }

  // ─── The watcher ──────────────────────────────────────────────────────────

  class SolutionWatcher {
    var levelIndex: map<string, LevelData>
    var statusCache: map<string, Status>
    var sortedLevels: seq<LevelData>
    var edges: seq<WorldEdge>

    /** The index is built from the loaded levels, and only indexed paths are cached. */
    ghost predicate Valid()
      reads this
    {
      levelIndex == IndexOf(sortedLevels, |sortedLevels|) && statusCache.Keys <= levelIndex.Keys
    }

    constructor()
      ensures Valid()
      ensures levelIndex == map[] && statusCache == map[] && sortedLevels == [] && edges == []
    {
      levelIndex := map[];
      statusCache := map[];
      sortedLevels := [];
      edges := [];
    }

    /**
     * `loadLevels`: empties the cache, indexes the levels by solution path and pushes the
     * summary. The editor and diagnostics subscriptions are not part of the model.
     */
    method LoadLevels(levels: seq<LevelData>, newEdges: seq<WorldEdge>, files: map<string, string>)
      returns (pushed: TreeData, hasNext: bool)
      modifies this
      ensures Valid()
      ensures sortedLevels == levels && edges == newEdges && statusCache == map[]
      ensures levelIndex == IndexOf(levels, |levels|)
      ensures pushed == Progress(levels, map[], files, newEdges)
      ensures hasNext <==> pushed.nextFilePath.Some?
    {
      levelIndex := map[];
      statusCache := map[];
      sortedLevels := levels;
      edges := newEdges;
      var i := 0;
      while i < |levels|
        invariant 0 <= i <= |levels|
        invariant levelIndex == IndexOf(levels, i)
        invariant statusCache == map[] && sortedLevels == levels && edges == newEdges
      {
        levelIndex := levelIndex[levels[i].solutionFilePath := levels[i]];
        i := i + 1;
      }
      pushed, hasNext := SendUpdates(files);
    }

    /**
     * The diagnostics handler: each changed path that is a loaded level gets the status its
     * current diagnostics and file text give; then the summary is pushed. The panel updates for
     * the active editor are not part of the model.
     */
    method OnDiagnosticsChanged(uris: seq<string>, diagnostics: map<string, seq<Diagnostic>>, files: map<string, string>)
      returns (pushed: TreeData, hasNext: bool)
      requires Valid()
      modifies this
      ensures Valid()
      ensures levelIndex == old(levelIndex) && sortedLevels == old(sortedLevels) && edges == old(edges)
      ensures forall p :: p in statusCache <==> p in old(statusCache) || (p in uris && p in levelIndex)
      ensures forall p :: p in uris && p in levelIndex ==>
        statusCache[p] == StatusFromDiagnostics(DiagnosticsOf(diagnostics, p), Read(files, p))
      ensures forall p :: p in old(statusCache) && p !in uris ==> statusCache[p] == old(statusCache)[p]
      ensures pushed == Progress(sortedLevels, statusCache, files, edges)
      ensures hasNext <==> pushed.nextFilePath.Some?
    {
      var i := 0;
      while i < |uris|
        invariant 0 <= i <= |uris|
        invariant levelIndex == old(levelIndex) && sortedLevels == old(sortedLevels) && edges == old(edges)
        invariant Valid()
        invariant forall p :: p in statusCache <==> p in old(statusCache) || (p in uris[..i] && p in levelIndex)
        invariant forall p :: p in uris[..i] && p in levelIndex ==>
          statusCache[p] == StatusFromDiagnostics(DiagnosticsOf(diagnostics, p), Read(files, p))
        invariant forall p :: p in old(statusCache) && p !in uris[..i] ==> statusCache[p] == old(statusCache)[p]
      {
        var uri := uris[i];
        assert uris[..i + 1] == uris[..i] + [uri];
        if uri in levelIndex {
          var status := StatusFromDiagnostics(DiagnosticsOf(diagnostics, uri), Read(files, uri));
          statusCache := statusCache[uri := status];
        }
        i := i + 1;
      }
      assert uris[..i] == uris;
      pushed, hasNext := SendUpdates(files);
    }

    /** `invalidateAndRefresh`: drops exactly the given paths from the cache, then pushes. */
    method InvalidateAndRefresh(filePaths: seq<string>, files: map<string, string>)
      returns (pushed: TreeData, hasNext: bool)
      requires Valid()
      modifies this
      ensures Valid()
      ensures levelIndex == old(levelIndex) && sortedLevels == old(sortedLevels) && edges == old(edges)
      ensures forall p :: p in statusCache <==> p in old(statusCache) && p !in filePaths
      ensures forall p :: p in statusCache ==> statusCache[p] == old(statusCache)[p]
      ensures pushed == Progress(sortedLevels, statusCache, files, edges)
      ensures hasNext <==> pushed.nextFilePath.Some?
    {
      var i := 0;
      while i < |filePaths|
        invariant 0 <= i <= |filePaths|
        invariant levelIndex == old(levelIndex) && sortedLevels == old(sortedLevels) && edges == old(edges)
        invariant Valid()
        invariant forall p :: p in statusCache <==> p in old(statusCache) && p !in filePaths[..i]
        invariant forall p :: p in statusCache ==> statusCache[p] == old(statusCache)[p]
      {
        assert filePaths[..i + 1] == filePaths[..i] + [filePaths[i]];
        statusCache := statusCache - {filePaths[i]};
        i := i + 1;
      }
      assert filePaths[..i] == filePaths;
      pushed, hasNext := SendUpdates(files);
    }

    /** `getNextLevelFilePath`: the first level in order whose status is not complete. */
    method GetNextLevelFilePath(files: map<string, string>) returns (r: Option<string>)
      ensures r == NextPath(sortedLevels, Statuses(sortedLevels, statusCache, files))
    {
      ghost var st := Statuses(sortedLevels, statusCache, files);
      var i := 0;
      while i < |sortedLevels|
        invariant 0 <= i <= |sortedLevels|
        invariant forall j :: 0 <= j < i ==> st[j] == Complete
      {
        var level := sortedLevels[i];
        var status := StatusIn(statusCache, files, level);
        assert status == st[i];
        if status != Complete {
          assert FirstIncomplete(st) == Some(i);
          return Some(level.solutionFilePath);
        }
        i := i + 1;
      }
      return None;
    }

    /**
     * `sendUpdates`: one pass over the levels tallies each world and marks the first level that
     * is not complete; `hasNext` is what the game panel is told.
     */
    method SendUpdates(files: map<string, string>) returns (data: TreeData, hasNext: bool)
      ensures data == Progress(sortedLevels, statusCache, files, edges)
      ensures hasNext <==> data.nextFilePath.Some?
    {
      var worldMap, worldsOrdered, nextFilePath := TallyWorlds(sortedLevels, StatusOf(statusCache, files));
      var worlds := seq(|worldsOrdered|, k requires 0 <= k < |worldsOrdered| =>
        var e := worldMap[worldsOrdered[k]];
        WorldProgress(worldsOrdered[k], e.levels, e.completed, e.total));
      TalliedProgress(sortedLevels, statusCache, files, edges, worldMap, worldsOrdered, worlds);
      data := TreeData(worlds, edges, nextFilePath);
      hasNext := nextFilePath.Some?;
    }

    /** `clear`: empties the index, the cache, the levels and the edges. */
    method Clear()
      modifies this
      ensures Valid()
      ensures levelIndex == map[] && statusCache == map[] && sortedLevels == [] && edges == []
    {
      levelIndex := map[];
      statusCache := map[];
      sortedLevels := [];
      edges := [];
    }
  }

  /** `vscode.languages.getDiagnostics(uri)`: the diagnostics of `path`, empty when it has none. */
  function DiagnosticsOf(diagnostics: map<string, seq<Diagnostic>>, path: string): seq<Diagnostic> {
    if path in diagnostics then diagnostics[path] else []
  }
}
