/**
 * The part of the Lean language-server integration that is pure: flattening Lean's
 * `TaggedText` into a string and turning an interactive-goals reply into `GoalState`s.
 */
module LspGoals {
  import opened Opt
  import opened Strings
  import opened GameTypes

  /**
   * A `TaggedText`: a `text` leaf, an `append` of children, or a `tag` whose second component
   * is the wrapped text (the tag's payload never reaches the string); `Other` is any object
   * with none of the three properties.
   */
  datatype TaggedText = Text(text: string) | Append(append: seq<TaggedText>) | Tag(tagged: TaggedText) | Other

  /** `taggedTextToString`. */
  function Flatten(t: TaggedText): string {
    match t
    case Text(s) => s
    case Append(xs) => Join(FlattenAll(xs), "")
    case Tag(u) => Flatten(u)
    case Other => ""
  }

  /** `xs.map(taggedTextToString)`. */
  function FlattenAll(xs: seq<TaggedText>): (r: seq<string>)
    ensures |r| == |xs|
  {
    if |xs| == 0 then [] else [Flatten(xs[0])] + FlattenAll(xs[1..])
  }

  // ─── A reference definition: the text leaves, read left to right ───────────

  /** Plain concatenation of a list of strings. */
  function Concat(ss: seq<string>): (r: string)
    ensures |ss| == 0 ==> r == ""
  {
    if |ss| == 0 then "" else ss[0] + Concat(ss[1..])
  }

  lemma {:induction false} ConcatAppend(a: seq<string>, b: seq<string>)
    ensures Concat(a + b) == Concat(a) + Concat(b)
  {
    if |a| == 0 {
      assert a + b == b;
    } else {
      assert (a + b)[1..] == a[1..] + b;
      ConcatAppend(a[1..], b);
    }
  }

  /** `join('')` is plain concatenation. */
  lemma {:induction false} JoinNoSeparator(ss: seq<string>)
    ensures Join(ss, "") == Concat(ss)
  {
    if |ss| == 1 {
      assert Concat(ss[1..]) == "";
    } else if |ss| > 1 {
      JoinNoSeparator(ss[1..]);
    }
  }

  /** The strings of the `text` leaves `taggedTextToString` reaches, left to right. */
  function Leaves(t: TaggedText): seq<string> {
    match t
    case Text(s) => [s]
    case Append(xs) => LeavesOfList(xs)
    case Tag(u) => Leaves(u)
    case Other => []
  }

  function LeavesOfList(xs: seq<TaggedText>): seq<string> {
    if |xs| == 0 then [] else Leaves(xs[0]) + LeavesOfList(xs[1..])
  }

  /** Flattening a tagged text is concatenating its text leaves in order. */
  lemma {:induction false} FlattenIsLeaves(t: TaggedText)
    ensures Flatten(t) == Concat(Leaves(t))
  {
    match t
    case Text(s) =>
      assert Concat([s]) == s + Concat([]);
    case Append(xs) =>
      JoinNoSeparator(FlattenAll(xs));
      FlattenAllIsLeaves(xs);
    case Tag(u) =>
      FlattenIsLeaves(u);
    case Other =>
  }

  lemma {:induction false} FlattenAllIsLeaves(xs: seq<TaggedText>)
    ensures Concat(FlattenAll(xs)) == Concat(LeavesOfList(xs))
  {
    if |xs| > 0 {
      FlattenIsLeaves(xs[0]);
      FlattenAllIsLeaves(xs[1..]);
      ConcatAppend(Leaves(xs[0]), LeavesOfList(xs[1..]));
      assert FlattenAll(xs)[1..] == FlattenAll(xs[1..]);
    }
  }

  // ─── Consequences the reader of a goal relies on ──────────────────────────

  lemma {:induction false} LeavesOfListAppend(xs: seq<TaggedText>, ys: seq<TaggedText>)
    ensures LeavesOfList(xs + ys) == LeavesOfList(xs) + LeavesOfList(ys)
  {
    if |xs| == 0 {
      assert xs + ys == ys;
    } else {
      assert (xs + ys)[1..] == xs[1..] + ys;
      LeavesOfListAppend(xs[1..], ys);
    }
  }

  /** `append` is concatenation: splitting its children splits its text. */
  lemma AppendSplits(xs: seq<TaggedText>, ys: seq<TaggedText>)
    ensures Flatten(Append(xs + ys)) == Flatten(Append(xs)) + Flatten(Append(ys))
  {
    FlattenIsLeaves(Append(xs + ys));
    FlattenIsLeaves(Append(xs));
    FlattenIsLeaves(Append(ys));
    LeavesOfListAppend(xs, ys);
    ConcatAppend(LeavesOfList(xs), LeavesOfList(ys));
  }

  /** An `append` of one child has that child's text. */
  lemma AppendOne(x: TaggedText)
    ensures Flatten(Append([x])) == Flatten(x)
  {
    assert FlattenAll([x]) == [Flatten(x)] + FlattenAll([]);
  }

  // ─── parseGoals ───────────────────────────────────────────────────────────

  /** A hypothesis as the server sends it: names, a type and perhaps a value. */
  datatype RawHypothesis = RawHypothesis(names: seq<string>, typ: TaggedText, val: Option<TaggedText>)

  /** A goal as the server sends it; `hyps` and `userName` may be missing. */
  datatype RawGoal = RawGoal(userName: Option<string>, hyps: Option<seq<RawHypothesis>>, typ: TaggedText)

  /** The reply of the goals request; `None` stands for a missing or falsy `goals` field. */
  datatype GoalsReply = GoalsReply(goals: Option<seq<RawGoal>>)

  function ParseHypothesis(h: RawHypothesis): (r: Hypothesis)
    ensures r.names == h.names && r.typ == Flatten(h.typ)
    ensures r.val.Some? <==> h.val.Some?
    ensures h.val.Some? ==> r.val.value == Flatten(h.val.value)
  {
    Hypothesis(h.names, Flatten(h.typ), if h.val.Some? then Some(Flatten(h.val.value)) else None)
  }

  /** The hypotheses of a goal; a missing `hyps` list counts as empty. */
  function HypothesesOf(g: RawGoal): seq<RawHypothesis> {
    if g.hyps.Some? then g.hyps.value else []
  }

  function ParseGoal(g: RawGoal): (r: GoalState)
    ensures r.userName == g.userName && r.goalType == Flatten(g.typ)
    ensures |r.hypotheses| == |HypothesesOf(g)|
    ensures forall j :: 0 <= j < |r.hypotheses| ==> r.hypotheses[j] == ParseHypothesis(HypothesesOf(g)[j])
  {
    var hs := HypothesesOf(g);
    GoalState(seq(|hs|, j requires 0 <= j < |hs| => ParseHypothesis(hs[j])), Flatten(g.typ), g.userName)
  }

  /** The goals the client sees; an absent reply (`null`) or goals field gives none. */
  function GoalsOf(reply: Option<GoalsReply>): seq<RawGoal> {
    if reply.Some? && reply.value.goals.Some? then reply.value.goals.value else []
  }

  /**
   * `parseGoals`: no goals when the reply or its `goals` field is missing; otherwise one goal
   * state per goal, in order, each with its flattened type, its user name and its hypotheses.
   */
  function ParseGoals(reply: Option<GoalsReply>): (r: seq<GoalState>)
    ensures reply.None? || reply.value.goals.None? ==> r == []
    ensures |r| == |GoalsOf(reply)|
    ensures forall i :: 0 <= i < |r| ==>
      r[i].goalType == Flatten(GoalsOf(reply)[i].typ) && r[i].userName == GoalsOf(reply)[i].userName
      && |r[i].hypotheses| == |HypothesesOf(GoalsOf(reply)[i])|
  {
    var gs := GoalsOf(reply);
    seq(|gs|, i requires 0 <= i < |gs| => ParseGoal(gs[i]))
  }

  /** Hypothesis `j` of goal `i` keeps its names, flattens its type, and has a value iff sent one. */
  lemma ParsedHypothesis(reply: Option<GoalsReply>, i: nat, j: nat)
    requires i < |GoalsOf(reply)| && j < |HypothesesOf(GoalsOf(reply)[i])|
    ensures var h := HypothesesOf(GoalsOf(reply)[i])[j];
      var r := ParseGoals(reply)[i].hypotheses[j];
      && r.names == h.names && r.typ == Flatten(h.typ)
      && (r.val.Some? <==> h.val.Some?)
      && (h.val.Some? ==> r.val.value == Flatten(h.val.value))
  {
    var g := GoalsOf(reply)[i];
    assert ParseGoals(reply)[i] == ParseGoal(g);
  }

  /** Parsing goal lists commutes with concatenating them: order is kept, nothing is merged. */
  lemma ParseGoalsConcat(a: seq<RawGoal>, b: seq<RawGoal>)
    ensures ParseGoals(Some(GoalsReply(Some(a + b))))
         == ParseGoals(Some(GoalsReply(Some(a)))) + ParseGoals(Some(GoalsReply(Some(b))))
  {
  }
}
