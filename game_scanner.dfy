/**
 * `computeSolutionPath` and `parseGameDirectory`: every level file under `Game/Levels` is parsed,
 * files without a `Statement` are dropped, and the levels are sorted by world, then level.
 */
module GameScanner {
  import opened Opt
  import opened Strings
  import opened GameTypes
  import opened Sorting
  import LevelFile

  /** `path.join(gameRoot, 'Game', 'Levels')` followed by the separator. */
  function LevelsPrefix(root: string): string {
    root + "/Game/Levels/"
  }

  function SolutionsPrefix(root: string): string {
    root + "/Solutions/"
  }

  /** `<root>/Game/Levels/<rest>` becomes `<root>/Solutions/<rest>`. */
  function SolutionPath(root: string, file: string): (r: string)
    requires StartsWith(file, LevelsPrefix(root))
    ensures StartsWith(r, SolutionsPrefix(root))
    ensures r[|SolutionsPrefix(root)|..] == file[|LevelsPrefix(root)|..]
  {
    StartsWithConcat(SolutionsPrefix(root), file[|LevelsPrefix(root)|..]);
    SliceAfterPrefix(SolutionsPrefix(root), file[|LevelsPrefix(root)|..]);
    SolutionsPrefix(root) + file[|LevelsPrefix(root)|..]
  }

  /** The level file a solution path belongs to: the inverse mapping. */
  function SourcePath(root: string, solution: string): string
    requires StartsWith(solution, SolutionsPrefix(root))
  {
    LevelsPrefix(root) + solution[|SolutionsPrefix(root)|..]
  }

  lemma PrefixAndRest(p: string, s: string)
    requires StartsWith(s, p)
    ensures s == p + s[|p|..]
  {
    assert s[..|p|] == p;
  }

  /** Mapping to the solution tree and back gives the level file again. */
  lemma SourceOfSolution(root: string, file: string)
    requires StartsWith(file, LevelsPrefix(root))
    ensures SourcePath(root, SolutionPath(root, file)) == file
  {
    PrefixAndRest(LevelsPrefix(root), file);
  }

  /** Distinct level files never share a solution file. */
  lemma SolutionPathInjective(root: string, f: string, g: string)
    requires StartsWith(f, LevelsPrefix(root)) && StartsWith(g, LevelsPrefix(root))
    requires SolutionPath(root, f) == SolutionPath(root, g)
    ensures f == g
  {
    SourceOfSolution(root, f);
    SourceOfSolution(root, g);
  }

  /**
   * The comparator of the sort, as "a may come before b": worlds in lexicographic order
   * (`localeCompare`), then `a.level - b.level <= 0`.
   */
  predicate LevelLe(a: LevelData, b: LevelData) {
    if a.world != b.world then StrLe(a.world, b.world) else a.level <= b.level
  }

  lemma LevelLeTotalPreorder()
    ensures TotalPreorder(LevelLe)
  {
    forall x: LevelData, y: LevelData
      ensures LevelLe(x, y) || LevelLe(y, x)
    {
      StrLeTotal(x.world, y.world);
    }
    forall x: LevelData, y: LevelData, z: LevelData | LevelLe(x, y) && LevelLe(y, z)
      ensures LevelLe(x, z)
    {
      LevelLeTrans(x, y, z);
    }
  }

  lemma LevelLeTrans(x: LevelData, y: LevelData, z: LevelData)
    requires LevelLe(x, y) && LevelLe(y, z)
    ensures LevelLe(x, z)
  {
    if x.world != y.world && y.world != z.world {
      StrLeTrans(x.world, y.world, z.world);
      if x.world == z.world {
        StrLeAntisym(x.world, y.world);
      }
    }
  }

  /** What `parseGameDirectory` promises: worlds ascending, and levels ascending in a world. */
  ghost predicate SortedByWorldThenLevel(levels: seq<LevelData>) {
    forall i, j :: 0 <= i < j < |levels| ==>
      StrLe(levels[i].world, levels[j].world)
      && (levels[i].world == levels[j].world ==> levels[i].level <= levels[j].level)
  }

  lemma SortedMeaning(levels: seq<LevelData>)
    requires SortedBy(levels, LevelLe)
    ensures SortedByWorldThenLevel(levels)
  {
    forall i, j | 0 <= i < j < |levels|
      ensures StrLe(levels[i].world, levels[j].world)
    {
      assert LevelLe(levels[i], levels[j]);
      if levels[i].world == levels[j].world {
        StrLeTotal(levels[i].world, levels[j].world);
      }
    }
  }

  /** A parsed level of `file`, whose text is `content`. */
  ghost predicate LevelOfFile(root: string, file: string, content: string, l: LevelData)
    requires StartsWith(file, LevelsPrefix(root))
  {
    && l.sourceFilePath == file && l.solutionFilePath == SolutionPath(root, file)
    && LevelFile.LevelFrom(Split(content, '\n'), l)
  }

  /** A file whose text has a `Statement` line that the scan reaches. */
  ghost predicate HasReachableStatement(content: string) {
    exists k :: LevelFile.ReachableStatement(Split(content, '\n'), k)
  }

  /**
   * `parseGameDirectory` over the files the directory walk found, in its order. `contents`
   * holds the text of every file that could be read; one missing from it fails to parse and is
   * skipped, as the source's `catch` does.
   */
  method ParseGameDirectory(root: string, files: seq<string>, contents: map<string, string>)
    returns (levels: seq<LevelData>)
    requires forall f :: f in files ==> StartsWith(f, LevelsPrefix(root))
    ensures |levels| <= |files|
    ensures SortedByWorldThenLevel(levels)
    ensures forall l :: l in levels ==>
      l.sourceFilePath in files && l.sourceFilePath in contents
      && LevelOfFile(root, l.sourceFilePath, contents[l.sourceFilePath], l)
    ensures forall f :: f in files && f in contents && HasReachableStatement(contents[f]) ==>
      exists l :: l in levels && l.sourceFilePath == f
  {
    var found := CollectLevels(root, files, contents);
    levels := SortLevels(found);
    PermutationMembers(levels, found);
  }

  /** The loop over the files: the levels that parse, in file order. */
  method CollectLevels(root: string, files: seq<string>, contents: map<string, string>)
    returns (levels: seq<LevelData>)
    requires forall f :: f in files ==> StartsWith(f, LevelsPrefix(root))
    ensures |levels| <= |files|
    ensures forall l :: l in levels ==>
      l.sourceFilePath in files && l.sourceFilePath in contents
      && LevelOfFile(root, l.sourceFilePath, contents[l.sourceFilePath], l)
    ensures forall f :: f in files && f in contents && HasReachableStatement(contents[f]) ==>
      exists l :: l in levels && l.sourceFilePath == f
  {
    levels := [];
    var i := 0;
    while i < |files|
      invariant 0 <= i <= |files| && |levels| <= i
      invariant forall l :: l in levels ==>
        l.sourceFilePath in files[..i] && l.sourceFilePath in contents
        && LevelOfFile(root, l.sourceFilePath, contents[l.sourceFilePath], l)
      invariant forall f :: f in files[..i] && f in contents && HasReachableStatement(contents[f]) ==>
        exists l :: l in levels && l.sourceFilePath == f
    {
      var file := files[i];
      assert files[..i + 1] == files[..i] + [file];
      if file in contents {
        var data := LevelFile.ParseLevelFile(file, SolutionPath(root, file), contents[file]);
        if data.Some? {
          levels := levels + [data.value];
        }
      }
      i := i + 1;
    }
    assert files[..i] == files;
  }

  /** The in-place sort of the collected levels. */
  method SortLevels(levels: seq<LevelData>) returns (sorted: seq<LevelData>)
    ensures multiset(sorted) == multiset(levels)
    ensures SortedByWorldThenLevel(sorted)
  {
    var a := new LevelData[|levels|](i requires 0 <= i < |levels| => levels[i]);
    assert a[..] == levels;
    LevelLeTotalPreorder();
    SortInPlace(a, LevelLe);
    sorted := a[..];
    SortedMeaning(sorted);
  }
}
