/**
 * `parseGameDependencies`: the world graph's edges. Explicit edges come from `Dependency A → B`
 * lines of the game manifest; implicit edges are inferred from the `L<N>` prefixes of the
 * worlds' directories under `Game/Levels`.
 */
module Dependencies {
  import opened Opt
  import opened Strings
  import opened GameTypes
  import opened Sorting
  import LevelFile
  import opened Seqs

  // ─── Explicit edges: /^Dependency\s+(\S+)\s+(?:→|->)\s+(\S+)/ ─────────────

  /** The longest prefix of `s` without whitespace: what a greedy `\S+` takes. */
  function NonSpaceRun(s: string): (r: string)
    ensures |r| <= |s|
  {
    if |s| > 0 && !IsSpace(s[0]) then [s[0]] + NonSpaceRun(s[1..]) else ""
  }

  /** `\s+(\S+)` at the start of `s`: the token and the text after it. */
  function SpacedToken(s: string): (r: Option<(string, string)>)
    ensures r.Some? ==> |r.value.0| > 0 && |r.value.1| < |s|
  {
    if |s| > 0 && IsSpace(s[0]) then
      var t := TrimStart(s);
      var tok := NonSpaceRun(t);
      if |tok| > 0 then Some((tok, t[|tok|..])) else None
    else None
  }

  /** `\s+(?:→|->)` at the start of `s`: the text after the arrow. */
  function ArrowAfter(s: string): Option<string> {
    if |s| > 0 && IsSpace(s[0]) then
      var t := TrimStart(s);
      if StartsWith(t, "\U{2192}") then Some(t[1..])
      else if StartsWith(t, "->") then Some(t[2..])
      else None
    else None
  }

  /** The edge of one manifest line, if it is a `Dependency` declaration. */
  function MatchDependency(line: string): (r: Option<WorldEdge>)
    ensures r.Some? ==> StartsWith(line, "Dependency") && |r.value.from| > 0 && |r.value.to| > 0
  {
    if StartsWith(line, "Dependency") then AfterKeyword(line[10..]) else None
  }

  /** `\s+(\S+)\s+(?:→|->)\s+(\S+)` at the start of `s`. */
  function AfterKeyword(s: string): (r: Option<WorldEdge>)
    ensures r.Some? ==> |r.value.from| > 0 && |r.value.to| > 0
  {
    match SpacedToken(s)
    case None => None
    case Some(first) => AfterFrom(first.0, first.1)
  }

  /** `\s+(?:→|->)\s+(\S+)` at the start of `s`, with `from` already read. */
  function AfterFrom(from: string, s: string): (r: Option<WorldEdge>)
    ensures r.Some? ==> r.value.from == from && |r.value.to| > 0
  {
    match ArrowAfter(s)
    case None => None
    case Some(rest) =>
      match SpacedToken(rest)
      case None => None
      case Some(second) => Some(WorldEdge(from, second.0))
  }

  datatype Arrow = Unicode | Ascii

  function ArrowText(a: Arrow): string {
    match a
    case Unicode => "\U{2192}"
    case Ascii => "->"
  }

  predicate IsToken(s: string) {
    |s| > 0 && forall i :: 0 <= i < |s| ==> !IsSpace(s[i])
  }

  /** The manifest line declaring that `to` depends on `from`. */
  function DependencyLine(from: string, to: string, a: Arrow): string {
    "Dependency" + (" " + (from + (" " + (ArrowText(a) + (" " + to)))))
  }

  lemma {:induction false} NonSpaceRunOfToken(tok: string, rest: string)
    requires forall i :: 0 <= i < |tok| ==> !IsSpace(tok[i])
    requires |rest| == 0 || IsSpace(rest[0])
    ensures NonSpaceRun(tok + rest) == tok
    decreases |tok|
  {
    if |tok| > 0 {
      assert (tok + rest)[1..] == tok[1..] + rest;
      NonSpaceRunOfToken(tok[1..], rest);
      assert tok == [tok[0]] + tok[1..];
    } else {
      ConcatEmpty(rest);
    }
  }

  lemma SpacedTokenOf(tok: string, rest: string)
    requires IsToken(tok) && (|rest| == 0 || IsSpace(rest[0]))
    ensures SpacedToken(" " + (tok + rest)) == Some((tok, rest))
  {
    var s := " " + (tok + rest);
    assert s[1..] == tok + rest;
    assert TrimStart(s) == TrimStart(tok + rest);
    TrimStartNoSpace(tok + rest);
    NonSpaceRunOfToken(tok, rest);
    SliceAfterPrefix(tok, rest);
  }

  lemma ArrowAfterOf(a: Arrow, rest: string)
    ensures ArrowAfter(" " + (ArrowText(a) + rest)) == Some(rest)
  {
    var s := " " + (ArrowText(a) + rest);
    assert s[1..] == ArrowText(a) + rest;
    TrimStartNoSpace(ArrowText(a) + rest);
    StartsWithConcat(ArrowText(a), rest);
    SliceAfterPrefix(ArrowText(a), rest);
  }

  /** A written `Dependency` line is read back as its edge. */
  lemma MatchDependencyLine(from: string, to: string, a: Arrow)
    requires IsToken(from) && IsToken(to)
    ensures MatchDependency(DependencyLine(from, to, a)) == Some(WorldEdge(from, to))
  {
    var tail := " " + (ArrowText(a) + (" " + to));
    DependencyLineParts(from, tail);
    SpacedTokenOf(from, tail);
    AfterFromOf(from, to, a);
  }

  lemma DependencyLineParts(from: string, tail: string)
    ensures MatchDependency("Dependency" + (" " + (from + tail))) == AfterKeyword(" " + (from + tail))
  {
    StartsWithConcat("Dependency", " " + (from + tail));
    SliceAfterPrefix("Dependency", " " + (from + tail));
  }

  lemma AfterFromOf(from: string, to: string, a: Arrow)
    requires IsToken(to)
    ensures AfterFrom(from, " " + (ArrowText(a) + (" " + to))) == Some(WorldEdge(from, to))
  {
    ArrowAfterOf(a, " " + to);
    SpacedTokenOf(to, "");
    assert to + "" == to;
  }

  /** The pattern is anchored at the start of the line: an indented declaration is ignored. */
  lemma IndentedDependencyIgnored(line: string)
    requires |line| > 0 && IsSpace(line[0])
    ensures MatchDependency(line).None?
  {
    NoKeywordAfterSpace(line, "Dependency");
  }

  lemma NoKeywordAfterSpace(line: string, kw: string)
    requires |line| > 0 && IsSpace(line[0]) && |kw| > 0 && !IsSpace(kw[0])
    ensures !StartsWith(line, kw)
  {
    if |kw| <= |line| {
      assert line[..|kw|][0] == line[0];
    }
  }

  /** The explicit edges of the manifest's lines, in file order. */
  ghost function ExplicitFrom(lines: seq<string>): seq<WorldEdge> {
    FilterMap(lines, MatchDependency)
  }

  /** An explicit edge comes only from a `Dependency` line, and every such line gives one. */
  lemma ExplicitFromIff(lines: seq<string>, e: WorldEdge)
    ensures e in ExplicitFrom(lines) <==> exists k :: 0 <= k < |lines| && MatchDependency(lines[k]) == Some(e)
  {
    if e in ExplicitFrom(lines) {
      FilterMapSound(lines, MatchDependency, e);
    }
    if exists k :: 0 <= k < |lines| && MatchDependency(lines[k]) == Some(e) {
      var k :| 0 <= k < |lines| && MatchDependency(lines[k]) == Some(e);
      FilterMapComplete(lines, MatchDependency, k);
    }
  }

  /** The loop over the manifest's lines. */
  method ExplicitEdges(lines: seq<string>) returns (edges: seq<WorldEdge>)
    ensures edges == ExplicitFrom(lines)
  {
    edges := FilterMapLoop(lines, MatchDependency);
  }

  /** `new Set(explicitEdges.map(e => e.to))`. */
  ghost function Targets(edges: seq<WorldEdge>): set<string> {
    set e | e in edges :: e.to
  }

  method TargetSet(edges: seq<WorldEdge>) returns (s: set<string>)
    ensures s == Targets(edges)
  {
    s := {};
    var i := 0;
    while i < |edges|
      invariant 0 <= i <= |edges|
      invariant s == Targets(edges[..i])
    {
      assert edges[..i + 1] == edges[..i] + [edges[i]];
      s := s + {edges[i].to};
      i := i + 1;
    }
    assert edges[..i] == edges;
  }

  // ─── World directories: /Game[/\\]Levels[/\\]([^/\\]+)/ ───────────────────

  predicate IsSep(c: char) {
    c == '/' || c == '\\'
  }

  /** The longest prefix of `s` without a path separator. */
  function NonSepRun(s: string): (r: string)
    ensures |r| <= |s| && r == s[..|r|]
    ensures forall i :: 0 <= i < |r| ==> !IsSep(r[i])
  {
    if |s| > 0 && !IsSep(s[0]) then [s[0]] + NonSepRun(s[1..]) else ""
  }

  /** The pattern matched at the start of `s`. */
  function DirAt(s: string): Option<string> {
    if |s| >= 12 && s[..4] == "Game" && IsSep(s[4]) && s[5..11] == "Levels" && IsSep(s[11]) then
      var d := NonSepRun(s[12..]);
      if |d| > 0 then Some(d) else None
    else None
  }

  /** The leftmost match in a level's path: the directory directly under `Game/Levels`. */
  function LevelsDir(path: string): Option<string> {
    if |path| == 0 then None
    else match DirAt(path)
      case Some(d) => Some(d)
      case None => LevelsDir(path[1..])
  }

  lemma {:induction false} NonSepRunOf(d: string, rest: string)
    requires forall i :: 0 <= i < |d| ==> !IsSep(d[i])
    requires |rest| == 0 || IsSep(rest[0])
    ensures NonSepRun(d + rest) == d
    decreases |d|
  {
    if |d| > 0 {
      assert (d + rest)[1..] == d[1..] + rest;
      NonSepRunOf(d[1..], rest);
      assert d == [d[0]] + d[1..];
    } else {
      ConcatEmpty(rest);
    }
  }

  /** The directory of `Game/Levels/<dir>/<file>` is `dir`. */
  lemma DirAtLevelFile(dir: string, file: string)
    requires |dir| > 0 && forall i :: 0 <= i < |dir| ==> !IsSep(dir[i])
    ensures DirAt("Game/Levels/" + (dir + ("/" + file))) == Some(dir)
  {
    var s := "Game/Levels/" + (dir + ("/" + file));
    assert s[..4] == "Game" && s[4] == '/' && s[5..11] == "Levels" && s[11] == '/';
    SliceAfterPrefix("Game/Levels/", dir + ("/" + file));
    NonSepRunOf(dir, "/" + file);
  }

  /** A path takes the directory of the first `Game/Levels/` segment it has. */
  lemma {:induction false} LevelsDirAfter(pre: string, rest: string)
    requires forall i :: 0 <= i < |pre| ==> DirAt((pre + rest)[i..]).None?
    ensures LevelsDir(pre + rest) == LevelsDir(rest)
    decreases |pre|
  {
    if |pre| > 0 {
      assert DirAt((pre + rest)[0..]).None?;
      assert (pre + rest)[0..] == pre + rest;
      assert (pre + rest)[1..] == pre[1..] + rest;
      forall i | 0 <= i < |pre[1..]|
        ensures DirAt((pre[1..] + rest)[i..]).None?
      {
        assert (pre[1..] + rest)[i..] == (pre + rest)[i + 1..];
      }
      LevelsDirAfter(pre[1..], rest);
    } else {
      ConcatEmpty(rest);
    }
  }

  /**
   * World to directory, after the levels before `n`: a world takes the directory of its first
   * level whose path has one, and keeps it.
   */
  ghost function WorldDirs(levels: seq<LevelData>, n: nat): map<string, string>
    requires n <= |levels|
  {
    if n == 0 then map[]
    else
      var prev := WorldDirs(levels, n - 1);
      var l := levels[n - 1];
      if l.world in prev then prev
      else match LevelsDir(l.sourceFilePath)
        case None => prev
        case Some(d) => prev[l.world := d]
  }

  /** What `WorldDirs` records: the directory of the first level of `w` that has one. */
  ghost predicate FirstDirOf(levels: seq<LevelData>, n: nat, w: string, d: string)
    requires n <= |levels|
  {
    exists k :: 0 <= k < n && levels[k].world == w && LevelsDir(levels[k].sourceFilePath) == Some(d)
      && forall j :: 0 <= j < k && levels[j].world == w ==> LevelsDir(levels[j].sourceFilePath).None?
  }

  lemma {:induction false} WorldDirsFirst(levels: seq<LevelData>, n: nat)
    requires n <= |levels|
    ensures forall w :: w in WorldDirs(levels, n) ==> FirstDirOf(levels, n, w, WorldDirs(levels, n)[w])
  {
    if n > 0 {
      WorldDirsFirst(levels, n - 1);
      WorldDirsCover(levels, n - 1);
      var prev := WorldDirs(levels, n - 1);
      var l := levels[n - 1];
      forall w | w in WorldDirs(levels, n)
        ensures FirstDirOf(levels, n, w, WorldDirs(levels, n)[w])
      {
        if w in prev {
          assert WorldDirs(levels, n)[w] == prev[w];
          assert FirstDirOf(levels, n - 1, w, prev[w]);
          var k :| 0 <= k < n - 1 && levels[k].world == w && LevelsDir(levels[k].sourceFilePath) == Some(prev[w])
            && forall j :: 0 <= j < k && levels[j].world == w ==> LevelsDir(levels[j].sourceFilePath).None?;
          assert 0 <= k < n;
        } else {
          assert w == l.world && LevelsDir(l.sourceFilePath) == Some(WorldDirs(levels, n)[w]);
          assert forall j :: 0 <= j < n - 1 && levels[j].world == w ==> LevelsDir(levels[j].sourceFilePath).None?;
          assert 0 <= n - 1 < n;
        }
      }
    }
  }

  /** Every world with a level that has a directory is recorded. */
  lemma {:induction false} WorldDirsCover(levels: seq<LevelData>, n: nat)
    requires n <= |levels|
    ensures forall k :: 0 <= k < n && LevelsDir(levels[k].sourceFilePath).Some? ==> levels[k].world in WorldDirs(levels, n)
  {
    if n > 0 {
      WorldDirsCover(levels, n - 1);
      assert WorldDirs(levels, n - 1).Keys <= WorldDirs(levels, n).Keys;
    }
  }

  /** The keys of `WorldDirs` in the order they were set: the iteration order of the Map. */
  ghost function WorldDirOrder(levels: seq<LevelData>, n: nat): seq<string>
    requires n <= |levels|
  {
    if n == 0 then []
    else
      var l := levels[n - 1];
      if l.world in WorldDirs(levels, n - 1) || LevelsDir(l.sourceFilePath).None? then WorldDirOrder(levels, n - 1)
      else WorldDirOrder(levels, n - 1) + [l.world]
  }

  /** `a` has a level with a directory before any level of `b` that has one. */
  ghost predicate SeenBefore(levels: seq<LevelData>, n: nat, a: string, b: string)
    requires n <= |levels|
  {
    exists k :: 0 <= k < n && levels[k].world == a && LevelsDir(levels[k].sourceFilePath).Some?
      && forall j :: 0 <= j <= k && levels[j].world == b ==> LevelsDir(levels[j].sourceFilePath).None?
  }

  lemma SeenBeforeGrows(levels: seq<LevelData>, n: nat, a: string, b: string)
    requires 0 < n <= |levels| && SeenBefore(levels, n - 1, a, b)
    ensures SeenBefore(levels, n, a, b)
  {
    var k :| 0 <= k < n - 1 && levels[k].world == a && LevelsDir(levels[k].sourceFilePath).Some?
      && forall j :: 0 <= j <= k && levels[j].world == b ==> LevelsDir(levels[j].sourceFilePath).None?;
    assert 0 <= k < n;
  }

  lemma {:induction false} WorldDirOrderKeys(levels: seq<LevelData>, n: nat)
    requires n <= |levels|
    ensures NoDup(WorldDirOrder(levels, n))
    ensures forall w :: w in WorldDirOrder(levels, n) <==> w in WorldDirs(levels, n)
  {
    if n > 0 {
      WorldDirOrderKeys(levels, n - 1);
    }
  }

  /** A world set before line `n - 1` keeps its place before the world set there. */
  lemma SeenBeforeNew(levels: seq<LevelData>, n: nat, a: string)
    requires 0 < n <= |levels| && a in WorldDirs(levels, n - 1)
    requires levels[n - 1].world !in WorldDirs(levels, n - 1)
    ensures SeenBefore(levels, n, a, levels[n - 1].world)
  {
    WorldDirsFirst(levels, n - 1);
    WorldDirsCover(levels, n - 1);
    var b := levels[n - 1].world;
    var d := WorldDirs(levels, n - 1)[a];
    assert FirstDirOf(levels, n - 1, a, d);
    var k :| 0 <= k < n - 1 && levels[k].world == a && LevelsDir(levels[k].sourceFilePath) == Some(d)
      && forall j :: 0 <= j < k && levels[j].world == a ==> LevelsDir(levels[j].sourceFilePath).None?;
    assert forall j :: 0 <= j <= k && levels[j].world == b ==> LevelsDir(levels[j].sourceFilePath).None?;
  }

  /** Worlds are listed in the order of their first level that has a directory. */
  lemma {:induction false} WorldDirOrderFirstSeen(levels: seq<LevelData>, n: nat)
    requires n <= |levels|
    ensures forall a, b :: 0 <= a < b < |WorldDirOrder(levels, n)| ==>
      SeenBefore(levels, n, WorldDirOrder(levels, n)[a], WorldDirOrder(levels, n)[b])
  {
    if n > 0 {
      WorldDirOrderFirstSeen(levels, n - 1);
      WorldDirOrderKeys(levels, n - 1);
      var prev := WorldDirOrder(levels, n - 1);
      var order := WorldDirOrder(levels, n);
      forall a, b | 0 <= a < b < |order|
        ensures SeenBefore(levels, n, order[a], order[b])
      {
        if b < |prev| {
          assert order[a] == prev[a] && order[b] == prev[b];
          SeenBeforeGrows(levels, n, prev[a], prev[b]);
        } else {
          assert order[b] == levels[n - 1].world && order[a] == prev[a];
          SeenBeforeNew(levels, n, prev[a]);
        }
      }
    }
  }

  /** The loop that fills `worldDir`; `order` is the Map's insertion order. */
  method CollectWorldDirs(levels: seq<LevelData>) returns (dirs: map<string, string>, order: seq<string>)
    ensures dirs == WorldDirs(levels, |levels|)
    ensures order == WorldDirOrder(levels, |levels|)
    ensures NoDup(order) && forall w :: w in order <==> w in dirs
    ensures forall a, b :: 0 <= a < b < |order| ==> SeenBefore(levels, |levels|, order[a], order[b])
  {
    dirs := map[];
    order := [];
    var i := 0;
    while i < |levels|
      invariant 0 <= i <= |levels|
      invariant dirs == WorldDirs(levels, i)
      invariant order == WorldDirOrder(levels, i)
    {
      var l := levels[i];
      if l.world !in dirs {
        var m := LevelsDir(l.sourceFilePath);
        if m.Some? {
          dirs := dirs[l.world := m.value];
          order := order + [l.world];
        }
      }
      i := i + 1;
    }
    WorldDirOrderKeys(levels, |levels|);
    WorldDirOrderFirstSeen(levels, |levels|);
  }

  // ─── Groups: /^[Ll](\d+)/ ─────────────────────────────────────────────────

  /** The group number of a world's directory: `parseInt` of the digits after a leading `L`. */
  function DirGroup(dir: string): Option<nat> {
    if |dir| > 0 && (dir[0] == 'L' || dir[0] == 'l') then
      var ds := LevelFile.DigitRun(dir[1..]);
      if |ds| > 0 then Some(LevelFile.DigitsValue(ds)) else None
    else None
  }

  /** `L<n><name>` is in group `n`, however the name goes on. */
  lemma DirGroupOf(n: nat, name: string)
    requires |name| == 0 || !LevelFile.IsDigit(name[0])
    ensures DirGroup("L" + (LevelFile.DecimalText(n) + name)) == Some(n)
  {
    var d := "L" + (LevelFile.DecimalText(n) + name);
    SliceAfterPrefix("L", LevelFile.DecimalText(n) + name);
    LevelFile.DigitRunOfPrefix(LevelFile.DecimalText(n), name);
    LevelFile.DigitsValueOfDecimal(n);
  }

  /** `L01` and `L1` are the same group: leading zeros do not count. */
  lemma LeadingZeroGroup()
    ensures DirGroup("L01") == DirGroup("L1") == Some(1)
  {
    assert "L01"[1..] == "01";
    assert LevelFile.DigitRun("01") == "01";
    assert LevelFile.DigitsValue("01") == LevelFile.DigitsValue("0") * 10 + 1;
    assert "L1"[1..] == "1";
    assert LevelFile.DigitRun("1") == "1";
  }

  function AsciiLower(c: char): char {
    if 'A' <= c <= 'Z' then (c as int + 32) as char else c
  }

  /** `/pset/i` matches at the start of `s`. */
  predicate PsetAt(s: string) {
    |s| >= 4 && AsciiLower(s[0]) == 'p' && AsciiLower(s[1]) == 's'
    && AsciiLower(s[2]) == 'e' && AsciiLower(s[3]) == 't'
  }

  /** `/pset/i.test(dir)`: the directory holds `pset` in any letter case. */
  predicate IsPsetDir(dir: string) {
    exists i :: 0 <= i <= |dir| && PsetAt(dir[i..])
  }

  /** The directory of a world, or "" for one without (`worldDir.get(w) ?? ''`). */
  function DirOf(dirs: map<string, string>, w: string): string {
    if w in dirs then dirs[w] else ""
  }

  /**
   * The comparator of a group, as "a may come before b": lecture directories before problem-set
   * directories, then directory names in lexicographic order (`localeCompare`).
   */
  predicate PsetLe(dirs: map<string, string>, a: string, b: string) {
    var pa := IsPsetDir(DirOf(dirs, a));
    var pb := IsPsetDir(DirOf(dirs, b));
    if pa != pb then !pa else StrLe(DirOf(dirs, a), DirOf(dirs, b))
  }

  ghost predicate SortedByPset(dirs: map<string, string>, ws: seq<string>) {
    forall i, j :: 0 <= i < j < |ws| ==> PsetLe(dirs, ws[i], ws[j])
  }

  lemma PsetLeTrans(dirs: map<string, string>, x: string, y: string, z: string)
    requires PsetLe(dirs, x, y) && PsetLe(dirs, y, z)
    ensures PsetLe(dirs, x, z)
  {
    var dx, dy, dz := DirOf(dirs, x), DirOf(dirs, y), DirOf(dirs, z);
    if IsPsetDir(dx) == IsPsetDir(dy) == IsPsetDir(dz) {
      StrLeTrans(dx, dy, dz);
    }
  }

  /** Sorts one group in place, with its comparator. */
  method SortGroup(dirs: map<string, string>, ws: seq<string>) returns (sorted: seq<string>)
    ensures multiset(sorted) == multiset(ws)
    ensures SortedByPset(dirs, sorted)
  {
    var a := new string[|ws|](i requires 0 <= i < |ws| => ws[i]);
    assert a[..] == ws;
    var le := (x: string, y: string) => PsetLe(dirs, x, y);
    forall x: string, y: string
      ensures le(x, y) || le(y, x)
    {
      StrLeTotal(DirOf(dirs, x), DirOf(dirs, y));
    }
    forall x: string, y: string, z: string | le(x, y) && le(y, z)
      ensures le(x, z)
    {
      PsetLeTrans(dirs, x, y, z);
    }
    SortInPlace(a, le);
    sorted := a[..];
    assert SortedBy(sorted, le);
  }

  /** Sorts the group numbers in place, ascending (`(a, b) => a - b`). */
  method SortNumbers(nums: seq<nat>) returns (sorted: seq<nat>)
    requires NoDup(nums)
    ensures multiset(sorted) == multiset(nums)
    ensures forall i, j :: 0 <= i < j < |sorted| ==> sorted[i] < sorted[j]
  {
    var a := new nat[|nums|](i requires 0 <= i < |nums| => nums[i]);
    assert a[..] == nums;
    var le := (x: nat, y: nat) => x <= y;
    SortInPlace(a, le);
    sorted := a[..];
    assert SortedBy(sorted, le);
    PermutationNoDup(nums, sorted);
  }

  // ─── Grouping ─────────────────────────────────────────────────────────────

  /** World `w` has a directory with group number `g`. */
  ghost predicate InGroup(dirs: map<string, string>, group: string -> Option<nat>, w: string, g: nat) {
    w in dirs && group(dirs[w]) == Some(g)
  }

  /**
   * `groups` lists, for every group number in ascending order, the worlds of that group, each
   * once, sorted lecture directories first and then by directory name.
   */
  ghost predicate GroupedWorlds(dirs: map<string, string>, group: string -> Option<nat>, nums: seq<nat>, groups: seq<seq<string>>) {
    && |nums| == |groups|
    && (forall i, j :: 0 <= i < j < |nums| ==> nums[i] < nums[j])
    && (forall g: nat :: g in nums <==> exists w :: InGroup(dirs, group, w, g))
    && (forall gi :: 0 <= gi < |groups| ==> NoDup(groups[gi]) && SortedByPset(dirs, groups[gi]))
    && (forall gi, w :: 0 <= gi < |groups| ==> (w in groups[gi] <==> InGroup(dirs, group, w, nums[gi])))
  }

  /** `groupMap` and `groupOrder` hold exactly the grouped worlds among `seen`. */
  ghost predicate GroupsSoFar(dirs: map<string, string>, group: string -> Option<nat>, seen: seq<string>,
                              groupMap: map<nat, seq<string>>, groupOrder: seq<nat>) {
    && NoDup(groupOrder) && (forall g :: g in groupOrder <==> g in groupMap)
    && (forall g :: g in groupMap ==> NoDup(groupMap[g]))
    && (forall g, w :: g in groupMap ==> (w in groupMap[g] <==> w in seen && InGroup(dirs, group, w, g)))
    && (forall g: nat :: g in groupMap <==> exists w :: w in seen && InGroup(dirs, group, w, g))
  }

  /** One iteration: world `w` joins the list of its group, which is created when new. */
  method AddWorld(dirs: map<string, string>, group: string -> Option<nat>, ghost seen: seq<string>, w: string,
                  groupMap: map<nat, seq<string>>, groupOrder: seq<nat>)
    returns (groupMap': map<nat, seq<string>>, groupOrder': seq<nat>)
    requires w in dirs && w !in seen && GroupsSoFar(dirs, group, seen, groupMap, groupOrder)
    ensures GroupsSoFar(dirs, group, seen + [w], groupMap', groupOrder')
  {
    var m := group(dirs[w]);
    if m.None? {
      groupMap', groupOrder' := groupMap, groupOrder;
      AddUngrouped(dirs, group, seen, w, groupMap, groupOrder);
    } else if m.value !in groupMap {
      groupMap' := groupMap[m.value := [w]];
      groupOrder' := groupOrder + [m.value];
      AddNewGroup(dirs, group, seen, w, m.value, groupMap, groupOrder);
    } else {
      groupMap' := groupMap[m.value := groupMap[m.value] + [w]];
      groupOrder' := groupOrder;
      AddToGroup(dirs, group, seen, w, m.value, groupMap, groupOrder);
    }
  }

  lemma AddUngrouped(dirs: map<string, string>, group: string -> Option<nat>, seen: seq<string>, w: string,
                     groupMap: map<nat, seq<string>>, groupOrder: seq<nat>)
    requires w in dirs && group(dirs[w]).None? && GroupsSoFar(dirs, group, seen, groupMap, groupOrder)
    ensures GroupsSoFar(dirs, group, seen + [w], groupMap, groupOrder)
  {
    forall g: nat | g in groupMap
      ensures exists v :: v in seen + [w] && InGroup(dirs, group, v, g)
    {
      var v :| v in seen && InGroup(dirs, group, v, g);
      assert v in seen + [w];
    }
  }

  lemma AddNewGroup(dirs: map<string, string>, group: string -> Option<nat>, seen: seq<string>, w: string, g: nat,
                    groupMap: map<nat, seq<string>>, groupOrder: seq<nat>)
    requires w in dirs && w !in seen && group(dirs[w]) == Some(g) && g !in groupMap
    requires GroupsSoFar(dirs, group, seen, groupMap, groupOrder)
    ensures GroupsSoFar(dirs, group, seen + [w], groupMap[g := [w]], groupOrder + [g])
  {
    var m := groupMap[g := [w]];
    assert InGroup(dirs, group, w, g) && w in seen + [w];
    forall h: nat | h in m
      ensures exists v :: v in seen + [w] && InGroup(dirs, group, v, h)
    {
      if h != g {
        var v :| v in seen && InGroup(dirs, group, v, h);
        assert v in seen + [w];
      }
    }
    forall v | v in seen
      ensures !InGroup(dirs, group, v, g)
    {
    }
  }

  lemma AddToGroup(dirs: map<string, string>, group: string -> Option<nat>, seen: seq<string>, w: string, g: nat,
                   groupMap: map<nat, seq<string>>, groupOrder: seq<nat>)
    requires w in dirs && w !in seen && group(dirs[w]) == Some(g) && g in groupMap
    requires GroupsSoFar(dirs, group, seen, groupMap, groupOrder)
    ensures GroupsSoFar(dirs, group, seen + [w], groupMap[g := groupMap[g] + [w]], groupOrder)
  {
    var m := groupMap[g := groupMap[g] + [w]];
    assert w !in groupMap[g];
    forall h: nat | h in m
      ensures exists v :: v in seen + [w] && InGroup(dirs, group, v, h)
    {
      var v :| v in seen && InGroup(dirs, group, v, h);
      assert v in seen + [w];
    }
  }

  /** The loop that fills `groupMap`, keeping the group numbers in insertion order. */
  method CollectGroups(dirs: map<string, string>, group: string -> Option<nat>, order: seq<string>)
    returns (groupMap: map<nat, seq<string>>, groupOrder: seq<nat>)
    requires NoDup(order) && forall w :: w in order <==> w in dirs
    ensures GroupsSoFar(dirs, group, order, groupMap, groupOrder)
  {
    groupMap := map[];
    groupOrder := [];
    var i := 0;
    while i < |order|
      invariant 0 <= i <= |order|
      invariant GroupsSoFar(dirs, group, order[..i], groupMap, groupOrder)
    {
      assert order[..i + 1] == order[..i] + [order[i]];
      assert order[i] !in order[..i] by {
        forall j | 0 <= j < i
          ensures order[j] != order[i]
        {
        }
      }
      groupMap, groupOrder := AddWorld(dirs, group, order[..i], order[i], groupMap, groupOrder);
      i := i + 1;
    }
    assert order[..i] == order;
  }

  /** Each group sorted with its comparator, in ascending group order. */
  method OrderGroups(dirs: map<string, string>, group: string -> Option<nat>, ghost order: seq<string>, groupMap: map<nat, seq<string>>, groupOrder: seq<nat>)
    returns (nums: seq<nat>, groups: seq<seq<string>>)
    requires forall w :: w in order <==> w in dirs
    requires GroupsSoFar(dirs, group, order, groupMap, groupOrder)
    ensures |groups| == |groupOrder|
    ensures GroupedWorlds(dirs, group, nums, groups)
  {
    nums := SortNumbers(groupOrder);
    PermutationMembers(nums, groupOrder);
    groups := [];
    var gi := 0;
    while gi < |nums|
      invariant 0 <= gi <= |nums| && |groups| == gi
      invariant forall k :: 0 <= k < gi ==> NoDup(groups[k]) && SortedByPset(dirs, groups[k])
      invariant forall k, w :: 0 <= k < gi ==> (w in groups[k] <==> InGroup(dirs, group, w, nums[k]))
    {
      var sorted := SortGroup(dirs, groupMap[nums[gi]]);
      PermutationNoDup(groupMap[nums[gi]], sorted);
      PermutationMembers(sorted, groupMap[nums[gi]]);
      assert forall w :: w in sorted <==> InGroup(dirs, group, w, nums[gi]);
      var next := groups + [sorted];
      assert forall k :: 0 <= k < gi ==> next[k] == groups[k];
      assert next[gi] == sorted;
      groups := next;
      gi := gi + 1;
    }
  }

  // ─── Implicit edges ───────────────────────────────────────────────────────

  /** The first world of `ws` without an explicit predecessor. */
  function FirstFree(ws: seq<string>, hasPred: set<string>): (r: Option<string>)
    ensures r.Some? ==> r.value in ws && r.value !in hasPred
    ensures r.Some? ==> exists i :: 0 <= i < |ws| && ws[i] == r.value && forall j :: 0 <= j < i ==> ws[j] in hasPred
    ensures r.None? <==> forall w :: w in ws ==> w in hasPred
  {
    if |ws| == 0 then None
    else if ws[0] !in hasPred then Some(ws[0])
    else
      var r := FirstFree(ws[1..], hasPred);
      assert forall w :: w in ws ==> w == ws[0] || w in ws[1..];
      if r.Some? then
        var i :| 0 <= i < |ws[1..]| && ws[1..][i] == r.value && forall j :: 0 <= j < i ==> ws[1..][j] in hasPred;
        assert ws[i + 1] == r.value && forall j :: 0 <= j < i + 1 ==> ws[j] in hasPred;
        r
      else r
  }

  /** `anchor`: the first world without an explicit predecessor, else the first world. */
  function Anchor(ws: seq<string>, hasPred: set<string>): (r: Option<string>)
    ensures r.Some? <==> |ws| > 0
    ensures r.Some? ==> r.value in ws
    ensures r.Some? && r.value in hasPred ==> r.value == ws[0] && forall w :: w in ws ==> w in hasPred
  {
    match FirstFree(ws, hasPred)
    case Some(w) => Some(w)
    case None => if |ws| > 0 then Some(ws[0]) else None
  }

  /** The implicit edge, if any, that world `wi` of group `gi` receives. */
  ghost function EdgeFor(groups: seq<seq<string>>, gi: nat, wi: nat, hasPred: set<string>): Option<WorldEdge>
    requires gi < |groups| && wi < |groups[gi]|
  {
    var w := groups[gi][wi];
    if w in hasPred then None
    else if gi == 0 then (if wi > 0 then Some(WorldEdge(groups[0][0], w)) else None)
    else match Anchor(groups[gi - 1], hasPred)
      case Some(a) => if a != "" && a != w then Some(WorldEdge(a, w)) else None
      case None => None
  }

  /** The implicit edges of the first `n` worlds of group `gi`. */
  ghost function GroupImplicit(groups: seq<seq<string>>, gi: nat, n: nat, hasPred: set<string>): seq<WorldEdge>
    requires gi < |groups| && n <= |groups[gi]|
  {
    if n == 0 then [] else GroupImplicit(groups, gi, n - 1, hasPred) + OptionSeq(EdgeFor(groups, gi, n - 1, hasPred))
  }

  /** The implicit edges of the first `n` groups. */
  ghost function Implicit(groups: seq<seq<string>>, n: nat, hasPred: set<string>): seq<WorldEdge>
    requires n <= |groups|
  {
    if n == 0 then [] else Implicit(groups, n - 1, hasPred) + GroupImplicit(groups, n - 1, |groups[n - 1]|, hasPred)
  }

  /** The inner loop, over the worlds of group `gi`. */
  method GroupEdges(groups: seq<seq<string>>, gi: nat, hasPred: set<string>) returns (edges: seq<WorldEdge>)
    requires gi < |groups|
    ensures edges == GroupImplicit(groups, gi, |groups[gi]|, hasPred)
  {
    var worlds := groups[gi];
    var prevAnchor := if gi > 0 then Anchor(groups[gi - 1], hasPred) else None;
    edges := [];
    var wi := 0;
    while wi < |worlds|
      invariant 0 <= wi <= |worlds|
      invariant edges == GroupImplicit(groups, gi, wi, hasPred)
    {
      var world := worlds[wi];
      if world !in hasPred {
        if gi == 0 {
          if wi > 0 {
            edges := edges + [WorldEdge(worlds[0], world)];
          }
        } else if prevAnchor.Some? && prevAnchor.value != "" && prevAnchor.value != world {
          edges := edges + [WorldEdge(prevAnchor.value, world)];
        }
      }
      wi := wi + 1;
    }
  }

  /** The outer loop, over the groups in ascending order. */
  method ImplicitEdges(groups: seq<seq<string>>, hasPred: set<string>) returns (edges: seq<WorldEdge>)
    ensures edges == Implicit(groups, |groups|, hasPred)
  {
    edges := [];
    var gi := 0;
    while gi < |groups|
      invariant 0 <= gi <= |groups|
      invariant edges == Implicit(groups, gi, hasPred)
    {
      var es := GroupEdges(groups, gi, hasPred);
      edges := edges + es;
      gi := gi + 1;
    }
  }

  /** Every implicit edge is the edge of one world of one group, and every such edge is there. */
  lemma {:induction false} GroupImplicitIff(groups: seq<seq<string>>, gi: nat, n: nat, hasPred: set<string>, e: WorldEdge)
    requires gi < |groups| && n <= |groups[gi]|
    ensures e in GroupImplicit(groups, gi, n, hasPred) <==> exists wi :: 0 <= wi < n && EdgeFor(groups, gi, wi, hasPred) == Some(e)
  {
    if n > 0 {
      GroupImplicitIff(groups, gi, n - 1, hasPred, e);
      if EdgeFor(groups, gi, n - 1, hasPred) == Some(e) {
        assert e in OptionSeq(EdgeFor(groups, gi, n - 1, hasPred));
      }
    }
  }

  lemma {:induction false} ImplicitIff(groups: seq<seq<string>>, n: nat, hasPred: set<string>, e: WorldEdge)
    requires n <= |groups|
    ensures e in Implicit(groups, n, hasPred) <==>
      exists gi, wi :: 0 <= gi < n && 0 <= wi < |groups[gi]| && EdgeFor(groups, gi, wi, hasPred) == Some(e)
  {
    if n > 0 {
      ImplicitIff(groups, n - 1, hasPred, e);
      GroupImplicitIff(groups, n - 1, |groups[n - 1]|, hasPred, e);
    }
  }

  /** No implicit edge leads to a world that has an explicit predecessor. */
  lemma ImplicitAvoidsExplicitTargets(groups: seq<seq<string>>, hasPred: set<string>, e: WorldEdge)
    requires e in Implicit(groups, |groups|, hasPred)
    ensures e.to !in hasPred
  {
    ImplicitIff(groups, |groups|, hasPred, e);
  }

  /** With every world listed once in its group, there are no implicit self-edges. */
  lemma ImplicitNoSelfEdge(groups: seq<seq<string>>, hasPred: set<string>, e: WorldEdge)
    requires forall gi :: 0 <= gi < |groups| ==> NoDup(groups[gi])
    requires e in Implicit(groups, |groups|, hasPred)
    ensures e.from != e.to
  {
    ImplicitIff(groups, |groups|, hasPred, e);
  }

  /** In the first group every world after the first without a predecessor hangs off the first. */
  lemma FirstGroupEdge(groups: seq<seq<string>>, hasPred: set<string>, wi: nat)
    requires |groups| > 0 && 0 < wi < |groups[0]| && groups[0][wi] !in hasPred
    ensures WorldEdge(groups[0][0], groups[0][wi]) in Implicit(groups, |groups|, hasPred)
  {
    assert EdgeFor(groups, 0, wi, hasPred) == Some(WorldEdge(groups[0][0], groups[0][wi]));
    ImplicitIff(groups, |groups|, hasPred, WorldEdge(groups[0][0], groups[0][wi]));
  }

  /**
   * In a later group a world without a predecessor gets its edge from the previous group's
   * anchor, and, when worlds are in one group only, from nowhere else.
   */
  lemma LaterGroupEdge(groups: seq<seq<string>>, hasPred: set<string>, gi: nat, wi: nat)
    requires 0 < gi < |groups| && wi < |groups[gi]| && groups[gi][wi] !in hasPred
    requires |groups[gi - 1]| > 0
    requires Anchor(groups[gi - 1], hasPred).value != "" && Anchor(groups[gi - 1], hasPred).value != groups[gi][wi]
    requires forall i, j, x :: 0 <= i < j < |groups| && x in groups[i] ==> x !in groups[j]
    ensures WorldEdge(Anchor(groups[gi - 1], hasPred).value, groups[gi][wi]) in Implicit(groups, |groups|, hasPred)
    ensures forall e :: e in Implicit(groups, |groups|, hasPred) && e.to == groups[gi][wi] ==>
      e.from == Anchor(groups[gi - 1], hasPred).value
  {
    var w := groups[gi][wi];
    assert EdgeFor(groups, gi, wi, hasPred) == Some(WorldEdge(Anchor(groups[gi - 1], hasPred).value, w));
    ImplicitIff(groups, |groups|, hasPred, WorldEdge(Anchor(groups[gi - 1], hasPred).value, w));
    forall e | e in Implicit(groups, |groups|, hasPred) && e.to == w
      ensures e.from == Anchor(groups[gi - 1], hasPred).value
    {
      ImplicitIff(groups, |groups|, hasPred, e);
      var gj, wj :| 0 <= gj < |groups| && 0 <= wj < |groups[gj]| && EdgeFor(groups, gj, wj, hasPred) == Some(e);
      assert groups[gj][wj] == w;
      assert w in groups[gj] && w in groups[gi];
      assert gj == gi;
    }
  }

  /** The first world of the first group is the root: it never receives an implicit edge. */
  lemma FirstWorldIsRoot(groups: seq<seq<string>>, hasPred: set<string>, e: WorldEdge)
    requires |groups| > 0 && |groups[0]| > 0
    requires forall gi :: 0 <= gi < |groups| ==> NoDup(groups[gi])
    requires forall i, j, x :: 0 <= i < j < |groups| && x in groups[i] ==> x !in groups[j]
    requires e in Implicit(groups, |groups|, hasPred)
    ensures e.to != groups[0][0]
  {
    ImplicitIff(groups, |groups|, hasPred, e);
    var gj, wj :| 0 <= gj < |groups| && 0 <= wj < |groups[gj]| && EdgeFor(groups, gj, wj, hasPred) == Some(e);
    assert groups[gj][wj] == e.to && e.to in groups[gj];
    assert groups[0][0] in groups[0];
    if gj == 0 {
      assert wj > 0;
    }
  }

  /** `L1 = {A}`, `L2 = {B, C}` with no explicit edges gives `A → B` and `A → C`. */
  lemma TwoGroupsExample()
    ensures Implicit([["A"], ["B", "C"]], 2, {}) == [WorldEdge("A", "B"), WorldEdge("A", "C")]
  {
    var groups := [["A"], ["B", "C"]];
    assert FirstFree(["A"], {}) == Some("A");
    assert Anchor(groups[0], {}) == Some("A");
    assert GroupImplicit(groups, 0, 1, {}) == [];
    assert EdgeFor(groups, 1, 0, {}) == Some(WorldEdge("A", "B"));
    assert EdgeFor(groups, 1, 1, {}) == Some(WorldEdge("A", "C"));
    assert GroupImplicit(groups, 1, 2, {}) == [WorldEdge("A", "B"), WorldEdge("A", "C")];
  }

  // ─── The whole computation ────────────────────────────────────────────────

  /** Worlds of different directories' groups are in different groups. */
  lemma GroupsDisjoint(dirs: map<string, string>, nums: seq<nat>, groups: seq<seq<string>>)
    requires GroupedWorlds(dirs, DirGroup, nums, groups)
    ensures forall i, j, x :: 0 <= i < j < |groups| && x in groups[i] ==> x !in groups[j]
  {
    forall i, j, x | 0 <= i < j < |groups| && x in groups[i]
      ensures x !in groups[j]
    {
      assert InGroup(dirs, DirGroup, x, nums[i]);
      assert nums[i] < nums[j];
    }
  }

  /** Without any `L<N>` directory there are no groups. */
  lemma NoPrefixNoGroups(dirs: map<string, string>, nums: seq<nat>, groups: seq<seq<string>>)
    requires GroupedWorlds(dirs, DirGroup, nums, groups)
    requires forall w :: w in dirs ==> DirGroup(dirs[w]).None?
    ensures groups == []
  {
    assert forall g: nat :: g !in nums;
    HeadIn(nums);
  }

  /**
   * `parseGameDependencies`, with `manifest` the text of `Game.lean` or `<dirName>.lean` when
   * one exists. The edges are the explicit ones followed by the implicit ones of the grouped
   * worlds.
   */
  method ParseGameDependencies(manifest: Option<string>, levels: seq<LevelData>)
    returns (edges: seq<WorldEdge>, ghost nums: seq<nat>, ghost groups: seq<seq<string>>)
    ensures manifest.None? ==> edges == []
    ensures manifest.Some? ==> GroupedWorlds(WorldDirs(levels, |levels|), DirGroup, nums, groups)
    ensures manifest.Some? ==>
      var explicit := ExplicitFrom(Split(manifest.value, '\n'));
      edges == explicit + Implicit(groups, |groups|, Targets(explicit))
  {
    nums, groups := [], [];
    if manifest.None? {
      return [], nums, groups;
    }
    var explicit := ExplicitEdges(Split(manifest.value, '\n'));
    var dirs, order := CollectWorldDirs(levels);
    var groupMap, groupOrder := CollectGroups(dirs, DirGroup, order);
    var ns, gs := OrderGroups(dirs, DirGroup, order, groupMap, groupOrder);
    nums, groups := ns, gs;
    if groupMap == map[] {
      HeadIn(groupOrder);
      return explicit, nums, groups;
    }
    var hasPred := TargetSet(explicit);
    var implicit := ImplicitEdges(gs, hasPred);
    edges := explicit + implicit;
  }

  /** Without a manifest or without `L<N>` directories, only the explicit edges remain. */
  lemma OnlyExplicitWithoutPrefixes(manifest: string, levels: seq<LevelData>, nums: seq<nat>, groups: seq<seq<string>>, edges: seq<WorldEdge>)
    requires GroupedWorlds(WorldDirs(levels, |levels|), DirGroup, nums, groups)
    requires forall w :: w in WorldDirs(levels, |levels|) ==> DirGroup(WorldDirs(levels, |levels|)[w]).None?
    requires var explicit := ExplicitFrom(Split(manifest, '\n'));
      edges == explicit + Implicit(groups, |groups|, Targets(explicit))
    ensures edges == ExplicitFrom(Split(manifest, '\n'))
  {
    NoPrefixNoGroups(WorldDirs(levels, |levels|), nums, groups);
    ConcatEmptyRight(ExplicitFrom(Split(manifest, '\n')));
  }
}
