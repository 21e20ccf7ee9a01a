/** The model's stand-in for `T | null`, `undefined` and an optional property. */
module Opt {
  datatype Option<+T> = None | Some(value: T)
}

/** The shared data model of the game: levels, hints, worlds, edges and completion statuses. */
module GameTypes {
  import opened Opt

  datatype Hint = Hint(text: string, hidden: bool, strict: bool)

  /** One parsed level file. `level` is a JavaScript number produced by `parseInt`. */
  datatype LevelData = LevelData(
    sourceFilePath: string,
    solutionFilePath: string,
    world: string,
    level: int,
    title: string,
    introduction: string,
    statementDocstring: string,
    statementSignature: string,
    hints: seq<Hint>,
    conclusion: string)

  datatype Status = Incomplete | HasErrors | Complete

  /** `to` requires `from`. */
  datatype WorldEdge = WorldEdge(from: string, to: string)

  datatype LevelProgress = LevelProgress(
    level: int, title: string, filePath: string, status: Status, isNext: bool)

  datatype WorldProgress = WorldProgress(
    world: string, levels: seq<LevelProgress>, completed: nat, total: nat)

  /** The payload pushed to the tree panel. */
  datatype TreeData = TreeData(
    worlds: seq<WorldProgress>, edges: seq<WorldEdge>, nextFilePath: Option<string>)

  datatype Hypothesis = Hypothesis(names: seq<string>, typ: string, val: Option<string>)

  datatype GoalState = GoalState(hypotheses: seq<Hypothesis>, goalType: string, userName: Option<string>)
}
