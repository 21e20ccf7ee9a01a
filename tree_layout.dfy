/**
 * The world tree of the webview: completion and colour of a world node, the set of unlocked
 * worlds, the overall totals, and the layered layout (longest-path layers with a cycle guard,
 * then one barycenter pass per layer). Pixel geometry is not part of the model.
 */
module TreeLayout {
  import opened Opt
  import opened Strings
  import opened GameTypes
  import opened Sorting
  import opened Seqs
  import LevelFile
  import Watcher

  // ─── Completion, colour and totals ────────────────────────────────────────

  /** `isComplete(world)`, where `None` is a world missing from the world map. */
  predicate IsComplete(world: Option<WorldProgress>) {
    world.Some? && world.value.total > 0 && world.value.completed == world.value.total
  }

  datatype Color = CompleteColor | UnlockedColor | LockedColor

  /** The colours of the webview. */
  function ColorCode(c: Color): string {
    match c
    case CompleteColor => "#388a34"
    case UnlockedColor => "#1976d2"
    case LockedColor => "#888888"
  }

  /** `nodeColor`: complete first, then unlocked (also for a node without world data), else locked. */
  function NodeColor(world: Option<WorldProgress>, unlocked: set<string>): (r: Color)
    ensures r == CompleteColor <==> IsComplete(world)
    ensures r == LockedColor <==> !IsComplete(world) && world.Some? && world.value.world !in unlocked
  {
    if IsComplete(world) then CompleteColor
    else if world.None? || world.value.world in unlocked then UnlockedColor
    else LockedColor
  }

  /** A summarised world is complete exactly when it has levels and all of them are complete. */
  lemma WorldCompleteIff(levels: seq<LevelData>, st: seq<Status>, next: Option<nat>, w: string)
    requires |st| == |levels|
    ensures var row := Watcher.WorldRow(levels, st, next, w);
      IsComplete(Some(row)) <==> |row.levels| > 0 && forall r :: r in row.levels ==> r.status == Complete
  {
    AllCompleteIff(Watcher.Rows(levels, st, next, w, |levels|));
  }

  lemma {:induction false} AllCompleteIff(rows: seq<LevelProgress>)
    ensures Watcher.CountComplete(rows) == |rows| <==> forall r :: r in rows ==> r.status == Complete
  {
    if |rows| > 0 {
      var init := rows[..|rows| - 1];
      AllCompleteIff(init);
      Watcher.CompleteAtMostAll(init);
      assert rows == init + [rows[|rows| - 1]];
    }
  }

  function SumTotal(worlds: seq<WorldProgress>): nat {
    if |worlds| == 0 then 0 else SumTotal(worlds[..|worlds| - 1]) + worlds[|worlds| - 1].total
  }

  function SumCompleted(worlds: seq<WorldProgress>): nat {
    if |worlds| == 0 then 0 else SumCompleted(worlds[..|worlds| - 1]) + worlds[|worlds| - 1].completed
  }

  /** The overall totals never show more completed levels than there are. */
  lemma {:induction false} TotalsBounded(worlds: seq<WorldProgress>)
    requires forall k :: 0 <= k < |worlds| ==> worlds[k].completed <= worlds[k].total
    ensures SumCompleted(worlds) <= SumTotal(worlds)
  {
    if |worlds| > 0 {
      TotalsBounded(worlds[..|worlds| - 1]);
    }
  }

  /** The progress line of the tree panel. */
  function ProgressText(worlds: seq<WorldProgress>): (r: string)
    ensures SumTotal(worlds) == 0 <==> r == "No game loaded"
  {
    if SumTotal(worlds) > 0 then
      var t := LevelFile.DecimalText(SumCompleted(worlds)) + (" / " + (LevelFile.DecimalText(SumTotal(worlds)) + " complete"));
      assert t[|t| - 1] == 'e' && "No game loaded"[13] == 'd';
      t
    else "No game loaded"
  }

  /** The "next" button is hidden when `nextFilePath` is missing or the empty string. */
  function NextButtonHidden(nextFilePath: Option<string>): (r: bool)
    ensures r <==> nextFilePath.None? || nextFilePath.value == ""
  {
    match nextFilePath
    case None => true
    case Some(p) => p == ""
  }

  // ─── Node ids and predecessors ────────────────────────────────────────────

  /** `new Map(worlds.map(w => [w.world, w]))`: a later world of the same name wins. */
  function WorldMapOf(worlds: seq<WorldProgress>): (m: map<string, WorldProgress>)
    ensures forall w :: w in m <==> exists k :: 0 <= k < |worlds| && worlds[k].world == w
    ensures forall w :: w in m ==> m[w].world == w
  {
    if |worlds| == 0 then map[]
    else
      var m := WorldMapOf(worlds[..|worlds| - 1]);
      var last := worlds[|worlds| - 1];
      assert forall k :: 0 <= k < |worlds| - 1 ==> worlds[..|worlds| - 1][k] == worlds[k];
      m[last.world := last]
  }

  function Lookup(m: map<string, WorldProgress>, id: string): Option<WorldProgress> {
    if id in m then Some(m[id]) else None
  }

  /** The edge endpoints in the order the id set receives them: `from`, then `to`. */
  function Endpoints(edges: seq<WorldEdge>): (r: seq<string>)
    ensures forall x :: x in r <==> exists j :: 0 <= j < |edges| && (edges[j].from == x || edges[j].to == x)
  {
    if |edges| == 0 then []
    else
      var e := edges[|edges| - 1];
      var r := Endpoints(edges[..|edges| - 1]) + [e.from, e.to];
      assert forall j :: 0 <= j < |edges| - 1 ==> edges[..|edges| - 1][j] == edges[j];
      r
  }

  /** The members of `xs` in first-seen order: what `Array.from` of a `Set` built from `xs` gives. */
  ghost function Dedup(xs: seq<string>): seq<string> {
    if |xs| == 0 then [] else
      var d := Dedup(xs[..|xs| - 1]);
      if xs[|xs| - 1] in d then d else d + [xs[|xs| - 1]]
  }

  lemma {:induction false} DedupMeaning(xs: seq<string>)
    ensures forall x :: x in Dedup(xs) <==> x in xs
    ensures NoDup(Dedup(xs))
  {
    if |xs| > 0 {
      DedupMeaning(xs[..|xs| - 1]);
      assert xs == xs[..|xs| - 1] + [xs[|xs| - 1]];
    }
  }

  /** `allIds`: the world names, then the edge endpoints, each once. */
  method CollectIds(names: seq<string>, edges: seq<WorldEdge>) returns (ids: seq<string>)
    ensures ids == Dedup(names + Endpoints(edges))
  {
    var all := names + Endpoints(edges);
    ids := [];
    var seen: set<string> := {};
    var i := 0;
    while i < |all|
      invariant 0 <= i <= |all|
      invariant ids == Dedup(all[..i])
      invariant forall x :: x in seen <==> x in ids
    {
      assert all[..i + 1][..i] == all[..i];
      if all[i] !in seen {
        seen := seen + {all[i]};
        ids := ids + [all[i]];
      }
      i := i + 1;
    }
    assert all[..i] == all;
  }

  /** The `from` ends of the edges among `edges[..n]` that lead to `id`, in edge order. */
  ghost function Froms(edges: seq<WorldEdge>, id: string, n: nat): seq<string>
    requires n <= |edges|
  {
    if n == 0 then []
    else Froms(edges, id, n - 1) + (if edges[n - 1].to == id then [edges[n - 1].from] else [])
  }

  lemma {:induction false} FromsMeaning(edges: seq<WorldEdge>, id: string, n: nat, p: string)
    requires n <= |edges|
    ensures p in Froms(edges, id, n) <==> exists j :: 0 <= j < n && edges[j].to == id && edges[j].from == p
  {
    if n > 0 {
      FromsMeaning(edges, id, n - 1, p);
    }
  }

  /** Every edge endpoint is an id. */
  ghost predicate EndpointsIn(edges: seq<WorldEdge>, ids: seq<string>) {
    forall j :: 0 <= j < |edges| ==> edges[j].from in ids && edges[j].to in ids
  }

  /** `preds`: each id with the `from` ends of its incoming edges. */
  method BuildPreds(ids: seq<string>, edges: seq<WorldEdge>) returns (preds: map<string, seq<string>>)
    requires EndpointsIn(edges, ids)
    ensures forall id :: id in preds <==> id in ids
    ensures forall id :: id in preds ==> preds[id] == Froms(edges, id, |edges|)
  {
    preds := map[];
    var i := 0;
    while i < |ids|
      invariant 0 <= i <= |ids|
      invariant forall id :: id in preds <==> id in ids[..i]
      invariant forall id :: id in preds ==> preds[id] == []
    {
      assert ids[..i + 1] == ids[..i] + [ids[i]];
      preds := preds[ids[i] := []];
      i := i + 1;
    }
    assert ids[..i] == ids;
    var j := 0;
    while j < |edges|
      invariant 0 <= j <= |edges|
      invariant forall id :: id in preds <==> id in ids
      invariant forall id :: id in preds ==> preds[id] == Froms(edges, id, j)
    {
      var e := edges[j];
      preds := preds[e.to := preds[e.to] + [e.from]];
      j := j + 1;
    }
  }

  /** The predecessors lists mention only nodes of the graph. */
  ghost predicate Closed(preds: map<string, seq<string>>) {
    forall k, p :: k in preds && p in preds[k] ==> p in preds
  }

  lemma PredsClosed(ids: seq<string>, edges: seq<WorldEdge>, preds: map<string, seq<string>>)
    requires EndpointsIn(edges, ids)
    requires forall id :: id in preds <==> id in ids
    requires forall id :: id in preds ==> preds[id] == Froms(edges, id, |edges|)
    ensures Closed(preds)
  {
    forall k, p | k in preds && p in preds[k]
      ensures p in preds
    {
      FromsMeaning(edges, k, |edges|, p);
    }
  }

  // ─── The unlocked set ─────────────────────────────────────────────────────

  /** Every predecessor of `id` along `edges` is a complete world. */
  ghost predicate Unlocked(worlds: seq<WorldProgress>, edges: seq<WorldEdge>, id: string) {
    forall j :: 0 <= j < |edges| && edges[j].to == id ==> IsComplete(Lookup(WorldMapOf(worlds), edges[j].from))
  }

  /** The unlocked-set computation of `render`. */
  method UnlockedSet(worlds: seq<WorldProgress>, edges: seq<WorldEdge>) returns (unlocked: set<string>)
    ensures forall id :: id in unlocked <==>
      id in Dedup(Watcher.WorldNames(worlds) + Endpoints(edges)) && Unlocked(worlds, edges, id)
  {
    var worldMap := WorldMapOf(worlds);
    var ids := CollectIds(Watcher.WorldNames(worlds), edges);
    DedupMeaning(Watcher.WorldNames(worlds) + Endpoints(edges));
    var preds := BuildPreds(ids, edges);
    unlocked := UnlockedAmong(worldMap, ids, preds);
    forall id | id in ids
      ensures id in unlocked <==> Unlocked(worlds, edges, id)
    {
      UnlockedIff(worlds, edges, id, preds[id]);
    }
  }

  /** The loop of `render` over the ids: an id whose predecessors are all complete is unlocked. */
  method UnlockedAmong(worldMap: map<string, WorldProgress>, ids: seq<string>, preds: map<string, seq<string>>)
    returns (unlocked: set<string>)
    requires forall id :: id in ids ==> id in preds
    ensures forall id :: id in unlocked <==>
      id in ids && forall p :: p in preds[id] ==> IsComplete(Lookup(worldMap, p))
  {
    unlocked := {};
    var i := 0;
    while i < |ids|
      invariant 0 <= i <= |ids|
      invariant forall id :: id in unlocked <==>
        id in ids[..i] && forall p :: p in preds[id] ==> IsComplete(Lookup(worldMap, p))
    {
      var id := ids[i];
      assert ids[..i + 1] == ids[..i] + [id];
      if forall p :: p in preds[id] ==> IsComplete(Lookup(worldMap, p)) {
        unlocked := unlocked + {id};
      }
      i := i + 1;
    }
    assert ids[..i] == ids;
  }

  /** The check of `render` on the predecessor list decides `Unlocked`. */
  lemma UnlockedIff(worlds: seq<WorldProgress>, edges: seq<WorldEdge>, id: string, ps: seq<string>)
    requires ps == Froms(edges, id, |edges|)
    ensures (forall p :: p in ps ==> IsComplete(Lookup(WorldMapOf(worlds), p))) <==> Unlocked(worlds, edges, id)
  {
    var m := WorldMapOf(worlds);
    if forall p :: p in ps ==> IsComplete(Lookup(m, p)) {
      forall j | 0 <= j < |edges| && edges[j].to == id
        ensures IsComplete(Lookup(m, edges[j].from))
      {
        FromsMeaning(edges, id, |edges|, edges[j].from);
      }
    } else {
      var p :| p in ps && !IsComplete(Lookup(m, p));
      FromsMeaning(edges, id, |edges|, p);
    }
  }

  /** A world without incoming edges is unlocked. */
  lemma NoIncomingUnlocked(worlds: seq<WorldProgress>, edges: seq<WorldEdge>, id: string)
    requires forall j :: 0 <= j < |edges| ==> edges[j].to != id
    ensures Unlocked(worlds, edges, id)
  {
  }

  /** A predecessor that is not in the world list counts as not complete, so it locks. */
  lemma MissingPredecessorLocks(worlds: seq<WorldProgress>, edges: seq<WorldEdge>, j: nat)
    requires j < |edges| && forall k :: 0 <= k < |worlds| ==> worlds[k].world != edges[j].from
    ensures !Unlocked(worlds, edges, edges[j].to)
  {
    assert Lookup(WorldMapOf(worlds), edges[j].from).None?;
  }

  // ─── Longest-path layers ──────────────────────────────────────────────────

  /** `preds.get(id) || []`. */
  function PredsOf(preds: map<string, seq<string>>, id: string): seq<string> {
    if id in preds then preds[id] else []
  }

  /** The largest layer among `ps`, or 0. */
  function MaxLayer(ps: seq<string>, layers: map<string, nat>): nat
    requires forall p :: p in ps ==> p in layers
  {
    if |ps| == 0 then 0
    else
      var m := MaxLayer(ps[..|ps| - 1], layers);
      var x := layers[ps[|ps| - 1]];
      if x > m then x else m
  }

  lemma {:induction false} MaxLayerBound(ps: seq<string>, layers: map<string, nat>, p: string)
    requires forall q :: q in ps ==> q in layers
    requires p in ps
    ensures layers[p] <= MaxLayer(ps, layers)
  {
    if ps[|ps| - 1] != p {
      MaxLayerBound(ps[..|ps| - 1], layers, p);
    }
  }

  lemma {:induction false} MaxLayerExtend(ps: seq<string>, layers: map<string, nat>, more: map<string, nat>)
    requires forall q :: q in ps ==> q in layers
    requires forall k :: k in layers ==> k in more && more[k] == layers[k]
    ensures MaxLayer(ps, more) == MaxLayer(ps, layers)
  {
    if |ps| > 0 {
      MaxLayerExtend(ps[..|ps| - 1], layers, more);
    }
  }

  /** A node's layer: 0 without predecessors, else one more than its deepest predecessor. */
  ghost function LayerFrom(ps: seq<string>, layers: map<string, nat>): nat
    requires forall p :: p in ps ==> p in layers
  {
    if |ps| == 0 then 0 else MaxLayer(ps, layers) + 1
  }

  ghost predicate Fix(preds: map<string, seq<string>>, layers: map<string, nat>, id: string) {
    && id in layers
    && (forall p :: p in PredsOf(preds, id) ==> p in layers)
    && layers[id] == LayerFrom(PredsOf(preds, id), layers)
  }

  /** Every memoised layer satisfies the longest-path equation. */
  ghost predicate Consistent(preds: map<string, seq<string>>, layers: map<string, nat>) {
    forall id :: id in layers ==> Fix(preds, layers, id)
  }

  /** `rank` is a topological numbering: predecessors have smaller ranks. */
  ghost predicate Ranked(preds: map<string, seq<string>>, rank: map<string, nat>) {
    forall k :: k in preds ==> k in rank && forall p :: p in preds[k] ==> p in rank && rank[p] < rank[k]
  }

  /** A graph is acyclic when it has a topological numbering. */
  ghost predicate Acyclic(preds: map<string, seq<string>>) {
    exists rank :: Ranked(preds, rank)
  }

  lemma ConsistentAdd(preds: map<string, seq<string>>, layers: map<string, nat>, id: string, L: nat)
    requires Consistent(preds, layers) && id !in layers
    requires forall p :: p in PredsOf(preds, id) ==> p in layers
    requires L == LayerFrom(PredsOf(preds, id), layers)
    ensures Consistent(preds, layers[id := L])
  {
    var more := layers[id := L];
    forall k | k in more
      ensures Fix(preds, more, k)
    {
      if k != id {
        MaxLayerExtend(PredsOf(preds, k), layers, more);
      } else {
        MaxLayerExtend(PredsOf(preds, id), layers, more);
      }
    }
  }

  /**
   * `layerOf(id)` with the memo `layers` and the set `visiting` of nodes being computed. A node
   * met again while it is being computed gives 0 for that call. On an acyclic graph the memo
   * only ever holds solutions of the longest-path equation.
   */
  method LayerOf(preds: map<string, seq<string>>, id: string, layers: map<string, nat>, visiting: set<string>,
                 ghost rank: map<string, nat>)
    returns (L: nat, layers': map<string, nat>)
    requires Closed(preds) && id in preds
    requires visiting <= preds.Keys && layers.Keys <= preds.Keys && visiting !! layers.Keys
    ensures layers'.Keys <= preds.Keys && visiting !! layers'.Keys
    ensures forall k :: k in layers ==> k in layers' && layers'[k] == layers[k]
    ensures id in layers ==> L == layers[id] && layers' == layers
    ensures id !in layers && id in visiting ==> L == 0 && layers' == layers
    ensures id !in visiting ==> id in layers' && L == layers'[id]
    ensures Ranked(preds, rank) && Consistent(preds, layers) && (forall v :: v in visiting ==> v in rank && rank[v] > rank[id]) ==>
      Consistent(preds, layers')
    decreases |preds.Keys - visiting|, 0
  {
    if id in layers {
      return layers[id], layers;
    }
    if id in visiting {
      return 0, layers;
    }
    ghost var acyclic := Ranked(preds, rank) && Consistent(preds, layers) && forall v :: v in visiting ==> v in rank && rank[v] > rank[id];
    var inner := visiting + {id};
    assert preds.Keys - inner < preds.Keys - visiting by {
      assert id in preds.Keys - visiting;
    }
    var m;
    m, layers' := DeepestPredecessor(preds, id, layers, inner, rank, acyclic);
    var ps := PredsOf(preds, id);
    L := if |ps| > 0 then m + 1 else 0;
    if acyclic {
      ConsistentAdd(preds, layers', id, L);
    }
    layers' := layers'[id := L];
  }

  /** The first `i` of `ps` have layers, and `m` is the largest of them. */
  ghost predicate DeepestSoFar(ps: seq<string>, i: nat, m: nat, layers: map<string, nat>)
    requires i <= |ps|
  {
    (forall p :: p in ps[..i] ==> p in layers) && m == MaxLayer(ps[..i], layers)
  }

  /** `Math.max(...ps.map(layerOf))` for the predecessors `ps` of `id`, with `id` being computed. */
  method DeepestPredecessor(preds: map<string, seq<string>>, id: string, layers: map<string, nat>, inner: set<string>,
                            ghost rank: map<string, nat>, ghost acyclic: bool)
    returns (m: nat, layers': map<string, nat>)
    requires Closed(preds) && id in preds && id in inner
    requires inner <= preds.Keys && layers.Keys <= preds.Keys && inner !! layers.Keys
    requires acyclic ==> Ranked(preds, rank) && Consistent(preds, layers)
    requires acyclic ==> forall v :: v in inner && v != id ==> v in rank && rank[v] > rank[id]
    ensures layers'.Keys <= preds.Keys && inner !! layers'.Keys
    ensures forall k :: k in layers ==> k in layers' && layers'[k] == layers[k]
    ensures acyclic ==>
      && Consistent(preds, layers')
      && (forall p :: p in PredsOf(preds, id) ==> p in layers')
      && m == MaxLayer(PredsOf(preds, id), layers')
    decreases |preds.Keys - inner|, 2
  {
    var ps := PredsOf(preds, id);
    layers' := layers;
    m := 0;
    var i := 0;
    while i < |ps|
      invariant 0 <= i <= |ps|
      invariant layers'.Keys <= preds.Keys && inner !! layers'.Keys
      invariant forall k :: k in layers ==> k in layers' && layers'[k] == layers[k]
      invariant acyclic ==> Consistent(preds, layers')
      invariant acyclic ==> DeepestSoFar(ps, i, m, layers')
    {
      m, layers' := PredecessorStep(preds, id, i, m, layers', inner, rank, acyclic);
      i := i + 1;
    }
    if acyclic {
      assert ps[..i] == ps;
    }
  }

  /** One step of `ps.map(layerOf)` and the running maximum. */
  method PredecessorStep(preds: map<string, seq<string>>, id: string, i: nat, m: nat, layers: map<string, nat>,
                         inner: set<string>, ghost rank: map<string, nat>, ghost acyclic: bool)
    returns (m': nat, layers': map<string, nat>)
    requires Closed(preds) && id in preds && id in inner && i < |PredsOf(preds, id)|
    requires inner <= preds.Keys && layers.Keys <= preds.Keys && inner !! layers.Keys
    requires acyclic ==> Ranked(preds, rank) && forall v :: v in inner && v != id ==> v in rank && rank[v] > rank[id]
    requires acyclic ==> Consistent(preds, layers)
    requires acyclic ==> DeepestSoFar(PredsOf(preds, id), i, m, layers)
    ensures layers'.Keys <= preds.Keys && inner !! layers'.Keys
    ensures forall k :: k in layers ==> k in layers' && layers'[k] == layers[k]
    ensures acyclic ==> Consistent(preds, layers')
    ensures acyclic ==> DeepestSoFar(PredsOf(preds, id), i + 1, m', layers')
    decreases |preds.Keys - inner|, 1
  {
    var ps := PredsOf(preds, id);
    if acyclic {
      RankStep(preds, rank, id, ps[i], inner);
    }
    var x;
    x, layers' := LayerOf(preds, ps[i], layers, inner, rank);
    if acyclic {
      MaxLayerStep(ps, i, layers, layers', m, x);
    }
    m' := if x > m then x else m;
  }

  /** On an acyclic graph a predecessor is never among the nodes being computed. */
  lemma RankStep(preds: map<string, seq<string>>, rank: map<string, nat>, id: string, p: string, inner: set<string>)
    requires Ranked(preds, rank) && id in preds && p in PredsOf(preds, id) && id in inner
    requires forall v :: v in inner && v != id ==> v in rank && rank[v] > rank[id]
    ensures p !in inner
    ensures forall v :: v in inner ==> v in rank && rank[v] > rank[p]
  {
  }

  lemma MaxLayerStep(ps: seq<string>, i: nat, before: map<string, nat>, after: map<string, nat>, m: nat, x: nat)
    requires i < |ps| && (forall p :: p in ps[..i] ==> p in before) && m == MaxLayer(ps[..i], before)
    requires forall k :: k in before ==> k in after && after[k] == before[k]
    requires ps[i] in after && x == after[ps[i]]
    ensures forall p :: p in ps[..i + 1] ==> p in after
    ensures (if x > m then x else m) == MaxLayer(ps[..i + 1], after)
  {
    MaxLayerExtend(ps[..i], before, after);
    assert ps[..i + 1] == ps[..i] + [ps[i]];
    assert ps[..i + 1][..i] == ps[..i];
  }

  /** `ids.forEach(layerOf)`: every id gets a layer, which solves the equation when acyclic. */
  method AssignLayers(preds: map<string, seq<string>>, ids: seq<string>) returns (layers: map<string, nat>)
    requires Closed(preds) && forall id :: id in ids ==> id in preds
    ensures layers.Keys <= preds.Keys
    ensures forall id :: id in ids ==> id in layers
    ensures Acyclic(preds) ==> Consistent(preds, layers)
  {
    ghost var rank: map<string, nat> := map[];
    if Acyclic(preds) {
      rank :| Ranked(preds, rank);
    }
    layers := map[];
    var i := 0;
    while i < |ids|
      invariant 0 <= i <= |ids|
      invariant layers.Keys <= preds.Keys
      invariant forall j :: 0 <= j < i ==> ids[j] in layers
      invariant Ranked(preds, rank) ==> Consistent(preds, layers)
    {
      var x;
      x, layers := LayerOf(preds, ids[i], layers, {}, rank);
      i := i + 1;
    }
  }

  /** Along every edge the layer grows. */
  lemma EdgeGoesDown(preds: map<string, seq<string>>, layers: map<string, nat>, from: string, to: string)
    requires Consistent(preds, layers) && to in layers && from in PredsOf(preds, to)
    ensures from in layers && layers[from] < layers[to]
  {
    MaxLayerBound(PredsOf(preds, to), layers, from);
  }

  /** A node without predecessors is in layer 0. */
  lemma SourceAtZero(preds: map<string, seq<string>>, layers: map<string, nat>, id: string)
    requires Consistent(preds, layers) && id in layers && PredsOf(preds, id) == []
    ensures layers[id] == 0
  {
  }

  /** `A → B`, `B → C`, `A → C` gives the layers `A: 0`, `B: 1`, `C: 2`. */
  lemma DiamondExample(layers: map<string, nat>)
    requires layers.Keys == {"A", "B", "C"}
    requires Consistent(map["A" := [], "B" := ["A"], "C" := ["B", "A"]], layers)
    ensures layers == map["A" := 0, "B" := 1, "C" := 2]
  {
    var preds := map["A" := [], "B" := ["A"], "C" := ["B", "A"]];
    assert Fix(preds, layers, "A") && Fix(preds, layers, "B") && Fix(preds, layers, "C");
    assert PredsOf(preds, "B") == ["A"] && PredsOf(preds, "C") == ["B", "A"];
    assert ["A"][..0] == [] && ["B", "A"][..1] == ["B"] && ["B"][..0] == [];
    assert layers["A"] == 0;
    assert MaxLayer(["A"], layers) == 0;
    assert layers["B"] == 1;
    assert MaxLayer(["B"], layers) == 1;
    assert MaxLayer(["B", "A"], layers) == 1;
  }

  /** The diamond is acyclic, so `AssignLayers` finds exactly these layers for it. */
  lemma DiamondAcyclic()
    ensures Acyclic(map["A" := [], "B" := ["A"], "C" := ["B", "A"]])
  {
    assert Ranked(map["A" := [], "B" := ["A"], "C" := ["B", "A"]], map["A" := 0, "B" := 1, "C" := 2]);
  }

  // ─── Layers as rows ───────────────────────────────────────────────────────

  /** `Math.max(...layers.values(), 0)` over the ids, which are exactly the memoised nodes. */
  method DeepestLayer(ids: seq<string>, layers: map<string, nat>) returns (maxL: nat)
    requires forall id :: id in ids ==> id in layers
    ensures forall id :: id in ids ==> layers[id] <= maxL
    ensures maxL == 0 || exists id :: id in ids && layers[id] == maxL
  {
    maxL := 0;
    var i := 0;
    while i < |ids|
      invariant 0 <= i <= |ids|
      invariant forall j :: 0 <= j < i ==> layers[ids[j]] <= maxL
      invariant maxL == 0 || exists j :: 0 <= j < i && layers[ids[j]] == maxL
    {
      if layers[ids[i]] > maxL {
        maxL := layers[ids[i]];
      }
      i := i + 1;
    }
  }

  /** The ids among `ids[..n]` whose layer is `l`, in id order. */
  ghost function OfLayer(ids: seq<string>, layers: map<string, nat>, l: nat, n: nat): seq<string>
    requires n <= |ids| && forall id :: id in ids ==> id in layers
  {
    if n == 0 then []
    else OfLayer(ids, layers, l, n - 1) + (if layers[ids[n - 1]] == l then [ids[n - 1]] else [])
  }

  lemma {:induction false} OfLayerMeaning(ids: seq<string>, layers: map<string, nat>, l: nat, n: nat)
    requires n <= |ids| && forall id :: id in ids ==> id in layers
    ensures forall x :: x in OfLayer(ids, layers, l, n) <==> x in ids[..n] && layers[x] == l
  {
    if n > 0 {
      OfLayerMeaning(ids, layers, l, n - 1);
      assert ids[..n] == ids[..n - 1] + [ids[n - 1]];
    }
  }

  lemma {:induction false} OfLayerNoDup(ids: seq<string>, layers: map<string, nat>, l: nat, n: nat)
    requires n <= |ids| && forall id :: id in ids ==> id in layers
    requires NoDup(ids)
    ensures NoDup(OfLayer(ids, layers, l, n))
  {
    if n > 0 {
      OfLayerNoDup(ids, layers, l, n - 1);
      OfLayerMeaning(ids, layers, l, n - 1);
      assert ids[n - 1] !in ids[..n - 1];
    }
  }

  /** `byLayer`: one row per layer `0..maxL`, each holding its ids in id order. */
  method GroupByLayer(ids: seq<string>, layers: map<string, nat>, maxL: nat) returns (byLayer: seq<seq<string>>)
    requires forall id :: id in ids ==> id in layers && layers[id] <= maxL
    ensures |byLayer| == maxL + 1
    ensures forall l :: 0 <= l <= maxL ==> byLayer[l] == OfLayer(ids, layers, l, |ids|)
  {
    byLayer := seq(maxL + 1, _ => []);
    var i := 0;
    while i < |ids|
      invariant 0 <= i <= |ids| && |byLayer| == maxL + 1
      invariant forall l :: 0 <= l <= maxL ==> byLayer[l] == OfLayer(ids, layers, l, i)
    {
      var l := layers[ids[i]];
      byLayer := byLayer[l := byLayer[l] + [ids[i]]];
      i := i + 1;
    }
  }

  // ─── Barycenter ordering ──────────────────────────────────────────────────

  /** `ps.reduce((s, p) => s + (xRank.get(p) ?? 0), 0)`. */
  function RankSum(ps: seq<string>, xRank: map<string, nat>): nat {
    if |ps| == 0 then 0
    else RankSum(ps[..|ps| - 1], xRank) + (if ps[|ps| - 1] in xRank then xRank[ps[|ps| - 1]] else 0)
  }

  /** `bar(n)`: the mean position of the predecessors of `n`, or 0 without predecessors. */
  function Bar(preds: map<string, seq<string>>, xRank: map<string, nat>, n: string): real {
    var ps := PredsOf(preds, n);
    if |ps| == 0 then 0.0 else (RankSum(ps, xRank) as real) / (|ps| as real)
  }

  /** The comparator `bar(a) - bar(b)`, as "a may come before b". */
  function BarLe(preds: map<string, seq<string>>, xRank: map<string, nat>): (string, string) -> bool {
    (a: string, b: string) => Bar(preds, xRank, a) <= Bar(preds, xRank, b)
  }

  lemma BarLeTotalPreorder(preds: map<string, seq<string>>, xRank: map<string, nat>)
    ensures TotalPreorder(BarLe(preds, xRank))
  {
    var le := BarLe(preds, xRank);
    forall x, y
      ensures le(x, y) || le(y, x)
    {
      assert le(x, y) == (Bar(preds, xRank, x) <= Bar(preds, xRank, y));
      assert le(y, x) == (Bar(preds, xRank, y) <= Bar(preds, xRank, x));
    }
    forall x, y, z | le(x, y) && le(y, z)
      ensures le(x, z)
    {
      assert le(x, y) == (Bar(preds, xRank, x) <= Bar(preds, xRank, y));
      assert le(y, z) == (Bar(preds, xRank, y) <= Bar(preds, xRank, z));
      assert le(x, z) == (Bar(preds, xRank, x) <= Bar(preds, xRank, z));
    }
  }

  /** A node with one predecessor sits at that predecessor's position. */
  lemma BarOfSingle(preds: map<string, seq<string>>, xRank: map<string, nat>, n: string, p: string)
    requires n in preds && preds[n] == [p] && p in xRank
    ensures Bar(preds, xRank, n) == xRank[p] as real
  {
    assert [p][..0] == [];
    assert RankSum([p], xRank) == xRank[p];
    assert PredsOf(preds, n) == [p];
  }

  /** `layer.forEach((id, i) => xRank.set(id, i))` as a value. */
  ghost function SetRanks(xRank: map<string, nat>, layer: seq<string>): map<string, nat> {
    if |layer| == 0 then xRank
    else SetRanks(xRank, layer[..|layer| - 1])[layer[|layer| - 1] := |layer| - 1]
  }

  /** The positions after the layers `ordered[..k]` have been ranked in turn. */
  ghost function Ranks(ordered: seq<seq<string>>, k: nat): map<string, nat>
    requires k <= |ordered|
  {
    if k == 0 then map[] else SetRanks(Ranks(ordered, k - 1), ordered[k - 1])
  }

  method AssignRanks(xRank: map<string, nat>, layer: seq<string>) returns (r: map<string, nat>)
    ensures r == SetRanks(xRank, layer)
  {
    r := xRank;
    var i := 0;
    while i < |layer|
      invariant 0 <= i <= |layer|
      invariant r == SetRanks(xRank, layer[..i])
    {
      assert layer[..i + 1][..i] == layer[..i];
      r := r[layer[i] := i];
      i := i + 1;
    }
    assert layer[..i] == layer;
  }

  /** Ranking a layer gives each of its members its position and leaves the others alone. */
  lemma {:induction false} SetRanksMeaning(xRank: map<string, nat>, layer: seq<string>, x: string)
    requires NoDup(layer)
    ensures x in layer ==>
      x in SetRanks(xRank, layer) && SetRanks(xRank, layer)[x] < |layer| && layer[SetRanks(xRank, layer)[x]] == x
    ensures x !in layer ==> (x in SetRanks(xRank, layer) <==> x in xRank)
    ensures x !in layer && x in xRank ==> SetRanks(xRank, layer)[x] == xRank[x]
  {
    if |layer| > 0 {
      var init := layer[..|layer| - 1];
      assert layer == init + [layer[|layer| - 1]];
      assert NoDup(init);
      SetRanksMeaning(xRank, init, x);
    }
  }

  lemma {:induction false} RanksAppend(ordered: seq<seq<string>>, layer: seq<string>, k: nat)
    requires k <= |ordered|
    ensures Ranks(ordered + [layer], k) == Ranks(ordered, k)
  {
    if k > 0 {
      RanksAppend(ordered, layer, k - 1);
      assert (ordered + [layer])[k - 1] == ordered[k - 1];
    }
  }

  /** Layers that are duplicate-free and pairwise disjoint, as `byLayer` is. */
  ghost predicate Partitioned(ordered: seq<seq<string>>) {
    && (forall l :: 0 <= l < |ordered| ==> NoDup(ordered[l]))
    && (forall l, m, x :: 0 <= l < m < |ordered| && x in ordered[l] ==> x !in ordered[m])
  }

  /** Once layers `..k` are ranked, a node of layer `l < k` holds its position in its layer. */
  lemma {:induction false} RanksPosition(ordered: seq<seq<string>>, k: nat, l: nat, i: nat)
    requires Partitioned(ordered) && l < k <= |ordered| && i < |ordered[l]|
    ensures ordered[l][i] in Ranks(ordered, k) && Ranks(ordered, k)[ordered[l][i]] == i
  {
    var x := ordered[l][i];
    SetRanksMeaning(Ranks(ordered, k - 1), ordered[k - 1], x);
    if l < k - 1 {
      RanksPosition(ordered, k - 1, l, i);
    } else {
      assert NoDup(ordered[l]);
    }
  }

  method SortStrings(s: seq<string>) returns (sorted: seq<string>)
    ensures multiset(sorted) == multiset(s)
    ensures SortedBy(sorted, StrLe)
  {
    var a := new string[|s|](i requires 0 <= i < |s| => s[i]);
    assert a[..] == s;
    forall x: string, y: string
      ensures StrLe(x, y) || StrLe(y, x)
    {
      StrLeTotal(x, y);
    }
    forall x: string, y: string, z: string | StrLe(x, y) && StrLe(y, z)
      ensures StrLe(x, z)
    {
      StrLeTrans(x, y, z);
    }
    SortInPlace(a, StrLe);
    sorted := a[..];
  }

  method SortByBar(s: seq<string>, preds: map<string, seq<string>>, xRank: map<string, nat>) returns (sorted: seq<string>)
    ensures multiset(sorted) == multiset(s)
    ensures SortedBy(sorted, BarLe(preds, xRank))
  {
    var a := new string[|s|](i requires 0 <= i < |s| => s[i]);
    assert a[..] == s;
    BarLeTotalPreorder(preds, xRank);
    SortInPlace(a, BarLe(preds, xRank));
    sorted := a[..];
  }

  /** Layer `k` is in the order the pass gives it: string order for 0, barycenter order below. */
  ghost predicate LayerSorted(preds: map<string, seq<string>>, ordered: seq<seq<string>>, k: nat)
    requires k < |ordered|
  {
    if k == 0 then SortedBy(ordered[0], StrLe) else SortedBy(ordered[k], BarLe(preds, Ranks(ordered, k)))
  }

  /** Layers `..n` are each in order. */
  ghost predicate SortedUpTo(preds: map<string, seq<string>>, ordered: seq<seq<string>>, n: nat)
    requires n <= |ordered|
  {
    n == 0 || (SortedUpTo(preds, ordered, n - 1) && LayerSorted(preds, ordered, n - 1))
  }

  lemma {:induction false} SortedUpToMeaning(preds: map<string, seq<string>>, ordered: seq<seq<string>>, n: nat, k: nat)
    requires n <= |ordered| && SortedUpTo(preds, ordered, n) && k < n
    ensures LayerSorted(preds, ordered, k)
  {
    if k < n - 1 {
      SortedUpToMeaning(preds, ordered, n - 1, k);
    }
  }

  lemma {:induction false} SortedUpToAppend(preds: map<string, seq<string>>, ordered: seq<seq<string>>,
                                            layer: seq<string>, n: nat)
    requires n <= |ordered| && SortedUpTo(preds, ordered, n)
    ensures SortedUpTo(preds, ordered + [layer], n)
  {
    if n > 0 {
      SortedUpToAppend(preds, ordered, layer, n - 1);
      RanksAppend(ordered, layer, n - 1);
      assert (ordered + [layer])[n - 1] == ordered[n - 1];
    }
  }

  /** A layer sorted against the positions of all layers above it extends the sorted pass. */
  lemma SortedNext(preds: map<string, seq<string>>, ordered: seq<seq<string>>, layer: seq<string>)
    requires |ordered| > 0 && SortedUpTo(preds, ordered, |ordered|)
    requires SortedBy(layer, BarLe(preds, Ranks(ordered, |ordered|)))
    ensures SortedUpTo(preds, ordered + [layer], |ordered| + 1)
    ensures Ranks(ordered + [layer], |ordered|) == Ranks(ordered, |ordered|)
  {
    SortedUpToAppend(preds, ordered, layer, |ordered|);
    RanksAppend(ordered, layer, |ordered|);
    assert (ordered + [layer])[|ordered|] == layer;
  }

  /** Rows `..n` of `ordered` are permutations of those of `byLayer`. */
  ghost predicate Permuted(ordered: seq<seq<string>>, byLayer: seq<seq<string>>, n: nat)
    requires n <= |ordered| && n <= |byLayer|
  {
    n == 0 || (Permuted(ordered, byLayer, n - 1) && multiset(ordered[n - 1]) == multiset(byLayer[n - 1]))
  }

  lemma {:induction false} PermutedMeaning(ordered: seq<seq<string>>, byLayer: seq<seq<string>>, n: nat, k: nat)
    requires n <= |ordered| && n <= |byLayer| && Permuted(ordered, byLayer, n) && k < n
    ensures multiset(ordered[k]) == multiset(byLayer[k])
  {
    if k < n - 1 {
      PermutedMeaning(ordered, byLayer, n - 1, k);
    }
  }

  lemma {:induction false} PermutedAppend(ordered: seq<seq<string>>, byLayer: seq<seq<string>>, layer: seq<string>, n: nat)
    requires n <= |ordered| && n <= |byLayer| && Permuted(ordered, byLayer, n)
    ensures Permuted(ordered + [layer], byLayer, n)
  {
    if n > 0 {
      PermutedAppend(ordered, byLayer, layer, n - 1);
      assert (ordered + [layer])[n - 1] == ordered[n - 1];
    }
  }

  lemma PermutedNext(ordered: seq<seq<string>>, byLayer: seq<seq<string>>, layer: seq<string>)
    requires |ordered| < |byLayer| && Permuted(ordered, byLayer, |ordered|)
    requires multiset(layer) == multiset(byLayer[|ordered|])
    ensures Permuted(ordered + [layer], byLayer, |ordered| + 1)
  {
    PermutedAppend(ordered, byLayer, layer, |ordered|);
    assert (ordered + [layer])[|ordered|] == layer;
  }

  /**
   * The top-down pass: layer 0 in string order, every later layer by barycenter against the
   * positions of the layers above it, each layer ranked once it is sorted.
   */
  method OrderLayers(preds: map<string, seq<string>>, byLayer: seq<seq<string>>)
    returns (ordered: seq<seq<string>>, xRank: map<string, nat>)
    requires |byLayer| > 0
    ensures |ordered| == |byLayer|
    ensures forall l :: 0 <= l < |byLayer| ==> multiset(ordered[l]) == multiset(byLayer[l])
    ensures SortedUpTo(preds, ordered, |ordered|)
    ensures xRank == Ranks(ordered, |ordered|)
  {
    var first := SortStrings(byLayer[0]);
    ordered := [first];
    assert LayerSorted(preds, ordered, 0);
    assert Permuted(ordered, byLayer, 1);
    xRank := AssignRanks(map[], first);
    var l := 1;
    while l < |byLayer|
      invariant 1 <= l <= |byLayer| && |ordered| == l
      invariant Permuted(ordered, byLayer, l)
      invariant SortedUpTo(preds, ordered, l)
      invariant xRank == Ranks(ordered, l)
    {
      var layer := SortByBar(byLayer[l], preds, xRank);
      SortedNext(preds, ordered, layer);
      PermutedNext(ordered, byLayer, layer);
      var next := ordered + [layer];
      assert forall k :: 0 <= k < l ==> next[k] == ordered[k];
      assert next[l] == layer;
      ordered := next;
      xRank := AssignRanks(xRank, layer);
      l := l + 1;
    }
    forall k | 0 <= k < |byLayer|
      ensures multiset(ordered[k]) == multiset(byLayer[k])
    {
      PermutedMeaning(ordered, byLayer, l, k);
    }
  }

  // ─── The whole layout ─────────────────────────────────────────────────────

  /** `computeLayout` up to pixel geometry: the ids, their layers and the order within each layer. */
  method ComputeLayout(worlds: seq<WorldProgress>, edges: seq<WorldEdge>)
    returns (ids: seq<string>, preds: map<string, seq<string>>, layers: map<string, nat>,
             ordered: seq<seq<string>>, xRank: map<string, nat>)
    ensures ids == Dedup(Watcher.WorldNames(worlds) + Endpoints(edges)) && NoDup(ids)
    ensures forall id :: id in preds <==> id in ids
    ensures forall id :: id in preds ==> preds[id] == Froms(edges, id, |edges|)
    ensures forall id :: id in layers <==> id in ids
    ensures Acyclic(preds) ==> Consistent(preds, layers)
    ensures forall id :: id in ids ==> layers[id] < |ordered|
    ensures forall l, x :: 0 <= l < |ordered| ==> (x in ordered[l] <==> x in ids && layers[x] == l)
    ensures Partitioned(ordered)
    ensures SortedUpTo(preds, ordered, |ordered|)
    ensures xRank == Ranks(ordered, |ordered|)
  {
    ids, preds := NodesAndPreds(worlds, edges);
    layers, ordered, xRank := LayerAndOrder(ids, preds);
  }

  /** `allIds` and `preds`. */
  method NodesAndPreds(worlds: seq<WorldProgress>, edges: seq<WorldEdge>)
    returns (ids: seq<string>, preds: map<string, seq<string>>)
    ensures ids == Dedup(Watcher.WorldNames(worlds) + Endpoints(edges)) && NoDup(ids)
    ensures forall id :: id in preds <==> id in ids
    ensures forall id :: id in preds ==> preds[id] == Froms(edges, id, |edges|)
    ensures Closed(preds)
  {
    var names := Watcher.WorldNames(worlds);
    ids := CollectIds(names, edges);
    DedupMeaning(names + Endpoints(edges));
    assert EndpointsIn(edges, ids) by {
      forall j | 0 <= j < |edges|
        ensures edges[j].from in ids && edges[j].to in ids
      {
        assert edges[j].from in Endpoints(edges) && edges[j].to in Endpoints(edges);
      }
    }
    preds := BuildPreds(ids, edges);
    PredsClosed(ids, edges, preds);
  }

  /** The layers, `byLayer` and the barycenter pass over it. */
  method LayerAndOrder(ids: seq<string>, preds: map<string, seq<string>>)
    returns (layers: map<string, nat>, ordered: seq<seq<string>>, xRank: map<string, nat>)
    requires NoDup(ids) && Closed(preds) && forall id :: id in preds <==> id in ids
    ensures forall id :: id in layers <==> id in ids
    ensures Acyclic(preds) ==> Consistent(preds, layers)
    ensures forall id :: id in ids ==> layers[id] < |ordered|
    ensures forall l, x :: 0 <= l < |ordered| ==> (x in ordered[l] <==> x in ids && layers[x] == l)
    ensures Partitioned(ordered)
    ensures SortedUpTo(preds, ordered, |ordered|)
    ensures xRank == Ranks(ordered, |ordered|)
  {
    layers := AssignLayers(preds, ids);
    var maxL := DeepestLayer(ids, layers);
    var byLayer := GroupByLayer(ids, layers, maxL);
    ordered, xRank := OrderLayers(preds, byLayer);
    LayerRows(ids, layers, byLayer, ordered);
  }

  /** The sorted rows hold exactly the ids of their layer, each once. */
  lemma LayerRows(ids: seq<string>, layers: map<string, nat>, byLayer: seq<seq<string>>, ordered: seq<seq<string>>)
    requires NoDup(ids) && forall id :: id in ids ==> id in layers && layers[id] < |byLayer|
    requires |ordered| == |byLayer|
    requires forall l :: 0 <= l < |byLayer| ==> byLayer[l] == OfLayer(ids, layers, l, |ids|)
    requires forall l :: 0 <= l < |byLayer| ==> multiset(ordered[l]) == multiset(byLayer[l])
    ensures forall l, x :: 0 <= l < |ordered| ==> (x in ordered[l] <==> x in ids && layers[x] == l)
    ensures Partitioned(ordered)
  {
    forall l | 0 <= l < |ordered|
      ensures forall x :: x in ordered[l] <==> x in ids && layers[x] == l
      ensures NoDup(ordered[l])
    {
      OfLayerMeaning(ids, layers, l, |ids|);
      OfLayerNoDup(ids, layers, l, |ids|);
      PermutationMembers(ordered[l], byLayer[l]);
      PermutationNoDup(byLayer[l], ordered[l]);
      assert ids[..|ids|] == ids;
    }
  }

  /**
   * After the pass every node holds its position in its layer; in particular the positions a
   * layer's barycenters read are the final positions of the layers above it.
   */
  lemma FinalPositions(ordered: seq<seq<string>>, l: nat, i: nat)
    requires Partitioned(ordered) && l < |ordered| && i < |ordered[l]|
    ensures ordered[l][i] in Ranks(ordered, |ordered|) && Ranks(ordered, |ordered|)[ordered[l][i]] == i
  {
    RanksPosition(ordered, |ordered|, l, i);
  }
}
