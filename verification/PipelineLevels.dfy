/** Layering the nodes: repeated waves of ready nodes, then the leftovers one by one. */
module PipelineLevels {
  import opened PipelineModel
  import opened Sequences

  // ---------- specification ----------

  function Deps(edges: seq<Edge>, n: string): set<string> {
    set e | e in edges && e.to == n :: e.from
  }

  predicate Ready(edges: seq<Edge>, placed: set<string>, n: string) {
    n !in placed && Deps(edges, n) <= placed
  }

  /** The nodes that the next wave places, in input order. */
  function Wave(names: seq<string>, edges: seq<Edge>, placed: set<string>): seq<string> {
    if names == [] then []
    else
      var init, n := names[..|names| - 1], names[|names| - 1];
      Wave(init, edges, placed) + if Ready(edges, placed, n) then [n] else []
  }

  /** What is placed once k waves have run. */
  function Placed(names: seq<string>, edges: seq<Edge>, k: nat): set<string> {
    if k == 0 then {}
    else
      var p := Placed(names, edges, k - 1);
      p + SetOf(Wave(names, edges, p))
  }

  function WaveAt(names: seq<string>, edges: seq<Edge>, k: nat): seq<string> {
    Wave(names, edges, Placed(names, edges, k))
  }

  /** The number of the first empty wave from number k on. */
  function FirstEmpty(names: seq<string>, edges: seq<Edge>, k: nat): (l: nat)
    ensures l >= k && WaveAt(names, edges, l) == []
    decreases |SetOf(names) - Placed(names, edges, k)|
  {
    if WaveAt(names, edges, k) == [] then k
    else
      WaveShrinks(names, edges, k);
      FirstEmpty(names, edges, k + 1)
  }

  /** The waves before the first empty one. */
  function Waves(names: seq<string>, edges: seq<Edge>): (ws: seq<seq<string>>)
    ensures forall i :: 0 <= i < |ws| ==> ws[i] == WaveAt(names, edges, i)
    ensures WaveAt(names, edges, |ws|) == []
  {
    seq(FirstEmpty(names, edges, 0), i requires 0 <= i => WaveAt(names, edges, i))
  }

  /** The unplaced names, each once, in input order. */
  function Unplaced(names: seq<string>, placed: set<string>): seq<string> {
    if names == [] then []
    else
      var rest, n := Unplaced(names[..|names| - 1], placed), names[|names| - 1];
      if n in placed || n in rest then rest else rest + [n]
  }

  /** Each name as a level of its own. */
  function Singletons(s: seq<string>): (r: seq<seq<string>>)
    ensures |r| == |s| && forall i :: 0 <= i < |s| ==> r[i] == [s[i]]
  {
    seq(|s|, i requires 0 <= i < |s| => [s[i]])
  }

  /** What the waves leave over. */
  function Leftovers(names: seq<string>, edges: seq<Edge>): seq<string> {
    Unplaced(names, Placed(names, edges, |Waves(names, edges)|))
  }

  function Levels(names: seq<string>, edges: seq<Edge>): seq<seq<string>> {
    Waves(names, edges) + Singletons(Leftovers(names, edges))
  }

  /** A backward walk: every entry is a direct dependency of the one before it. */
  ghost predicate Walk(edges: seq<Edge>, p: seq<string>) {
    |p| > 0 && forall i :: 0 <= i < |p| - 1 ==> p[i + 1] in Deps(edges, p[i])
  }

  ghost predicate Revisits(p: seq<string>) {
    exists i, j :: 0 <= i < j < |p| && p[i] == p[j]
  }

  /** A cycle passes through n or through one of its transitive dependencies. */
  ghost predicate DependsOnCycle(edges: seq<Edge>, n: string) {
    exists p :: Walk(edges, p) && p[0] == n && Revisits(p)
  }

  ghost predicate Acyclic(names: seq<string>, edges: seq<Edge>) {
    forall n :: n in names ==> !DependsOnCycle(edges, n)
  }

  // ---------- the algorithm ----------

  /** The dependency sets and in-degrees agree with the edges. */
  ghost predicate Counted(edges: seq<Edge>, inDegree: map<string, nat>, dependsOn: map<string, set<string>>) {
    && dependsOn.Keys <= inDegree.Keys
    && (forall n :: n in inDegree ==> inDegree[n] == |Deps(edges, n)|)
    && Indexed(edges, dependsOn)
  }

  ghost predicate Indexed(edges: seq<Edge>, dependsOn: map<string, set<string>>) {
    forall n :: Deps(edges, n) == if n in dependsOn then dependsOn[n] else {}
  }

  method ZeroDegrees(nodes: seq<Node>) returns (inDegree: map<string, nat>)
    ensures forall i :: 0 <= i < |nodes| ==> nodes[i].name in inDegree
    ensures forall n :: n in inDegree ==> inDegree[n] == 0
  {
    inDegree := map[];
    for i := 0 to |nodes|
      invariant forall j :: 0 <= j < i ==> nodes[j].name in inDegree
      invariant forall n :: n in inDegree ==> inDegree[n] == 0
    {
      if nodes[i].name !in inDegree {
        inDegree := inDegree[nodes[i].name := 0];
      }
    }
  }

  /** One edge: a repeated dependency does not raise the in-degree again. */
  method AddDependency(e: Edge, ghost sofar: seq<Edge>, degrees: map<string, nat>, deps: map<string, set<string>>)
    returns (inDegree: map<string, nat>, dependsOn: map<string, set<string>>)
    requires Counted(sofar, degrees, deps)
    ensures Counted(sofar + [e], inDegree, dependsOn) && degrees.Keys <= inDegree.Keys
  {
    hide Deps;
    inDegree, dependsOn := degrees, deps;
    var known := if e.to in dependsOn then dependsOn[e.to] else {};
    assert known == Deps(sofar, e.to);
    if e.from !in known {
      dependsOn := dependsOn[e.to := known + {e.from}];
      inDegree := inDegree[e.to := (if e.to in inDegree then inDegree[e.to] else 0) + 1];
      assert inDegree[e.to] == |known + {e.from}|;
    } else {
      assert known + {e.from} == known;
    }
    forall n ensures Deps(sofar + [e], n) == if n == e.to then known + {e.from} else Deps(sofar, n) {
      DepsSnoc(sofar, e, n);
    }
  }

  /** In-degrees and dependency sets, one edge at a time. */
  method CountDependencies(nodes: seq<Node>, edges: seq<Edge>)
    returns (inDegree: map<string, nat>, dependsOn: map<string, set<string>>)
    ensures forall i :: 0 <= i < |nodes| ==> nodes[i].name in inDegree
    ensures Counted(edges, inDegree, dependsOn)
  {
    inDegree := ZeroDegrees(nodes);
    dependsOn := map[];
    ghost var known := inDegree.Keys;
    for i := 0 to |edges|
      invariant known <= inDegree.Keys && Counted(edges[..i], inDegree, dependsOn)
    {
      inDegree, dependsOn := AddDependency(edges[i], edges[..i], inDegree, dependsOn);
      assert edges[..i] + [edges[i]] == edges[..i + 1];
    }
    assert edges[..|edges|] == edges;
  }

  /** The inner loop over one dependency set, which stops at the first unplaced entry. */
  method AllPlaced(deps: set<string>, placed: set<string>) returns (ready: bool)
    ensures ready <==> deps <= placed
  {
    ready := true;
    var rest := deps;
    while rest != {}
      invariant rest <= deps && deps - rest <= placed
    {
      var d :| d in rest;
      rest := rest - {d};
      if d !in placed {
        return false;
      }
    }
  }

  method NextWave(names: seq<string>, edges: seq<Edge>, dependsOn: map<string, set<string>>, placed: set<string>)
    returns (next: seq<string>)
    requires Indexed(edges, dependsOn)
    ensures next == Wave(names, edges, placed)
  {
    next := [];
    for i := 0 to |names|
      invariant next == Wave(names[..i], edges, placed)
    {
      var n := names[i];
      assert names[..i + 1][..i] == names[..i];
      if n in placed {
        continue;
      }
      var ready := true;
      if n in dependsOn {
        ready := AllPlaced(dependsOn[n], placed);
      }
      if ready {
        next := next + [n];
      }
    }
    assert names[..|names|] == names;
  }

  /** The nodes of in-degree zero. */
  method Seed(nodes: seq<Node>, ghost edges: seq<Edge>, inDegree: map<string, nat>) returns (queue: seq<string>)
    requires forall i :: 0 <= i < |nodes| ==> nodes[i].name in inDegree
    requires forall n :: n in inDegree ==> inDegree[n] == |Deps(edges, n)|
    ensures queue == Wave(Names(nodes), edges, {})
  {
    ghost var names := Names(nodes);
    queue := [];
    for i := 0 to |nodes|
      invariant queue == Wave(names[..i], edges, {})
    {
      assert names[..i + 1][..i] == names[..i];
      if inDegree[nodes[i].name] == 0 {
        queue := queue + [nodes[i].name];
      }
    }
    assert names[..|names|] == names;
  }

  /** The state of the wave loop after k waves. */
  ghost predicate AfterWaves(names: seq<string>, edges: seq<Edge>, k: nat, levels: seq<seq<string>>,
                             placed: set<string>, queue: seq<string>) {
    && placed == Placed(names, edges, k) && queue == WaveAt(names, edges, k)
    && |levels| == k && (forall i :: 0 <= i < k ==> levels[i] == WaveAt(names, edges, i))
    && FirstEmpty(names, edges, k) == FirstEmpty(names, edges, 0)
  }

  lemma AfterNextWave(names: seq<string>, edges: seq<Edge>, k: nat, levels: seq<seq<string>>,
                      placed: set<string>, queue: seq<string>, next: seq<string>)
    requires AfterWaves(names, edges, k, levels, placed, queue) && queue != []
    requires next == Wave(names, edges, placed + SetOf(queue))
    ensures AfterWaves(names, edges, k + 1, levels + [queue], placed + SetOf(queue), next)
    ensures |SetOf(names) - (placed + SetOf(queue))| < |SetOf(names) - placed|
  {
    hide FirstEmpty, Placed, Wave, SetOf;
    WaveShrinks(names, edges, k);
    FirstEmptyNext(names, edges, k);
    PlacedNext(names, edges, k);
  }

  lemma FirstEmptyNext(names: seq<string>, edges: seq<Edge>, k: nat)
    requires WaveAt(names, edges, k) != []
    ensures FirstEmpty(names, edges, k) == FirstEmpty(names, edges, k + 1)
  {
  }

  lemma PlacedNext(names: seq<string>, edges: seq<Edge>, k: nat)
    ensures Placed(names, edges, k + 1) == Placed(names, edges, k) + SetOf(WaveAt(names, edges, k))
  {
  }

  /** The wave loop. Its measure is the number of nodes not yet placed. */
  method RunWaves(names: seq<string>, edges: seq<Edge>, dependsOn: map<string, set<string>>, seed: seq<string>)
    returns (levels: seq<seq<string>>, placed: set<string>)
    requires Indexed(edges, dependsOn) && seed == Wave(names, edges, {})
    ensures levels == Waves(names, edges) && placed == Placed(names, edges, |levels|)
  {
    var queue := seed;
    placed, levels := {}, [];
    ghost var k := 0;
    assert AfterWaves(names, edges, 0, levels, placed, queue);
    while queue != []
      invariant AfterWaves(names, edges, k, levels, placed, queue)
      decreases |SetOf(names) - placed|
    {
      hide AfterWaves, Wave, SetOf;
      var next := NextWave(names, edges, dependsOn, placed + SetOf(queue));
      AfterNextWave(names, edges, k, levels, placed, queue, next);
      levels := levels + [queue];
      placed := placed + SetOf(queue);
      k := k + 1;
      queue := next;
    }
    assert levels == Waves(names, edges);
  }

  /** Appends each unplaced node as a level of its own. */
  method AppendLeftovers(names: seq<string>, waves: seq<seq<string>>, wavePlaced: set<string>)
    returns (levels: seq<seq<string>>)
    ensures levels == waves + Singletons(Unplaced(names, wavePlaced))
  {
    levels := waves;
    var placed := wavePlaced;
    for i := 0 to |names|
      invariant levels == waves + Singletons(Unplaced(names[..i], wavePlaced))
      invariant placed == wavePlaced + SetOf(Unplaced(names[..i], wavePlaced))
    {
      assert names[..i + 1][..i] == names[..i];
      if names[i] !in placed {
        SingletonsSnoc(Unplaced(names[..i], wavePlaced), names[i]);
        levels := levels + [[names[i]]];
        placed := placed + {names[i]};
      }
    }
    assert names[..|names|] == names;
  }

  lemma SingletonsSnoc(s: seq<string>, n: string)
    ensures Singletons(s + [n]) == Singletons(s) + [[n]]
    ensures SetOf(s + [n]) == SetOf(s) + {n}
  {
    assert forall x :: x in s + [n] <==> x in s || x == n;
  }

  method BuildLevels(nodes: seq<Node>, edges: seq<Edge>) returns (levels: seq<seq<string>>)
    ensures levels == Levels(Names(nodes), edges)
  {
    var inDegree, dependsOn := CountDependencies(nodes, edges);
    var queue := Seed(nodes, edges, inDegree);
    var waves, placed := RunWaves(Names(nodes), edges, dependsOn, queue);
    levels := AppendLeftovers(Names(nodes), waves, placed);
  }

  // ---------- waves ----------

  lemma DepsSnoc(es: seq<Edge>, e: Edge, n: string)
    ensures Deps(es + [e], n) == if n == e.to then Deps(es, n) + {e.from} else Deps(es, n)
  {
    assert forall d :: d in es + [e] <==> d in es || d == e;
  }

  lemma {:induction false} WaveMember(names: seq<string>, edges: seq<Edge>, placed: set<string>, n: string)
    ensures n in Wave(names, edges, placed) <==> n in names && Ready(edges, placed, n)
  {
    if names != [] {
      WaveMember(names[..|names| - 1], edges, placed, n);
      assert names == names[..|names| - 1] + [names[|names| - 1]];
    }
  }

  /** A nonempty wave places a node that was not placed, which is why the loop ends. */
  lemma WaveShrinks(names: seq<string>, edges: seq<Edge>, k: nat)
    requires WaveAt(names, edges, k) != []
    ensures |SetOf(names) - Placed(names, edges, k + 1)| < |SetOf(names) - Placed(names, edges, k)|
  {
    var n := WaveAt(names, edges, k)[0];
    WaveMember(names, edges, Placed(names, edges, k), n);
    SubsetSize(SetOf(names) - Placed(names, edges, k + 1), SetOf(names) - Placed(names, edges, k));
    assert n in SetOf(names) - Placed(names, edges, k);
    assert n !in SetOf(names) - Placed(names, edges, k + 1);
  }

  lemma {:induction false} PlacedMember(names: seq<string>, edges: seq<Edge>, k: nat, n: string)
    ensures n in Placed(names, edges, k) <==> exists j: nat :: j < k && n in WaveAt(names, edges, j)
  {
    if k > 0 {
      PlacedMember(names, edges, k - 1, n);
      assert n in Placed(names, edges, k) <==> n in Placed(names, edges, k - 1) || n in WaveAt(names, edges, k - 1);
    }
  }

  lemma {:induction false} PlacedGrows(names: seq<string>, edges: seq<Edge>, j: nat, k: nat)
    requires j <= k
    ensures Placed(names, edges, j) <= Placed(names, edges, k)
    decreases k
  {
    if j < k {
      PlacedGrows(names, edges, j, k - 1);
    }
  }

  /** No node is in two waves. */
  lemma WaveUnique(names: seq<string>, edges: seq<Edge>, j: nat, k: nat, n: string)
    requires n in WaveAt(names, edges, j) && n in WaveAt(names, edges, k)
    ensures j == k
  {
    WaveMember(names, edges, Placed(names, edges, j), n);
    WaveMember(names, edges, Placed(names, edges, k), n);
    PlacedMember(names, edges, j, n);
    PlacedMember(names, edges, k, n);
  }

  /** Every dependency of a node of wave k lies in an earlier wave. */
  lemma DependencyEarlier(names: seq<string>, edges: seq<Edge>, k: nat, n: string, d: string) returns (j: nat)
    requires n in WaveAt(names, edges, k) && d in Deps(edges, n)
    ensures j < k && d in WaveAt(names, edges, j)
  {
    WaveMember(names, edges, Placed(names, edges, k), n);
    PlacedMember(names, edges, k, d);
    j :| j < k && d in WaveAt(names, edges, j);
  }

  /** Past wave 0, a node waits for a dependency of the wave just before its own. */
  lemma DependencyJustBefore(names: seq<string>, edges: seq<Edge>, k: nat, n: string) returns (d: string)
    requires k > 0 && n in WaveAt(names, edges, k)
    ensures d in Deps(edges, n) && d in WaveAt(names, edges, k - 1)
  {
    var p, q := Placed(names, edges, k - 1), Placed(names, edges, k);
    WaveMember(names, edges, q, n);
    WaveMember(names, edges, p, n);
    PlacedGrows(names, edges, k - 1, k);
    d :| d in Deps(edges, n) && d !in p;
    assert d in q;
  }

  // ---------- the level of a node is its longest dependency chain ----------

  lemma {:induction false} WalkNoLongerThanLevel(names: seq<string>, edges: seq<Edge>, k: nat, p: seq<string>)
    requires Walk(edges, p) && p[0] in WaveAt(names, edges, k)
    ensures |p| <= k + 1
    decreases |p|
  {
    if |p| > 1 {
      var j := DependencyEarlier(names, edges, k, p[0], p[1]);
      forall i | 0 <= i < |p[1..]| - 1 ensures p[1..][i + 1] in Deps(edges, p[1..][i]) {
        assert p[i + 2] in Deps(edges, p[i + 1]);
      }
      WalkNoLongerThanLevel(names, edges, j, p[1..]);
    }
  }

  lemma {:induction false} WalkAsLongAsLevel(names: seq<string>, edges: seq<Edge>, k: nat, n: string)
    returns (p: seq<string>)
    requires n in WaveAt(names, edges, k)
    ensures Walk(edges, p) && p[0] == n && |p| == k + 1
    decreases k
  {
    if k == 0 {
      p := [n];
    } else {
      var d := DependencyJustBefore(names, edges, k, n);
      var q := WalkAsLongAsLevel(names, edges, k - 1, d);
      p := [n] + q;
    }
  }

  /** The number of a node's wave is the length, in edges, of the longest chain that ends at it. */
  lemma LevelIsLongestChain(names: seq<string>, edges: seq<Edge>, k: nat, n: string)
    requires k < |Waves(names, edges)| && n in Waves(names, edges)[k]
    ensures forall p :: Walk(edges, p) && p[0] == n ==> |p| - 1 <= k
    ensures exists p :: Walk(edges, p) && p[0] == n && |p| - 1 == k
  {
    forall p | Walk(edges, p) && p[0] == n ensures |p| - 1 <= k {
      WalkNoLongerThanLevel(names, edges, k, p);
    }
    var p := WalkAsLongAsLevel(names, edges, k, n);
  }

  // ---------- placed by a wave exactly when no cycle is upstream ----------

  /** A walk that revisits a node can be prolonged for ever: this one gets longer by a full turn. */
  lemma RevisitPumps(edges: seq<Edge>, p: seq<string>) returns (q: seq<string>)
    requires Walk(edges, p) && Revisits(p)
    ensures Walk(edges, q) && q[0] == p[0] && |q| > |p| && Revisits(q)
  {
    var i, j :| 0 <= i < j < |p| && p[i] == p[j];
    q := p[..j + 1] + p[i + 1..];
    forall m | 0 <= m < |q| - 1 ensures q[m + 1] in Deps(edges, q[m]) {
      if m < j {
        assert q[m] == p[m] && q[m + 1] == p[m + 1];
      } else {
        assert q[m] == p[m - j + i];
        assert q[m + 1] == p[m - j + i + 1];
      }
    }
    assert q[i] == q[j];
  }

  lemma {:induction false} RevisitingWalkOfLength(edges: seq<Edge>, p: seq<string>, l: nat) returns (q: seq<string>)
    requires Walk(edges, p) && Revisits(p)
    ensures Walk(edges, q) && q[0] == p[0] && |q| > l
    decreases l - |p|
  {
    if |p| > l {
      q := p;
    } else {
      var r := RevisitPumps(edges, p);
      q := RevisitingWalkOfLength(edges, r, l);
    }
  }

  lemma PlacedHasNoCycle(names: seq<string>, edges: seq<Edge>, k: nat, n: string)
    requires n in WaveAt(names, edges, k)
    ensures !DependsOnCycle(edges, n)
  {
    if DependsOnCycle(edges, n) {
      var p :| Walk(edges, p) && p[0] == n && Revisits(p);
      var q := RevisitingWalkOfLength(edges, p, k + 1);
      WalkNoLongerThanLevel(names, edges, k, q);
    }
  }

  /** When the waves stop, an unplaced node still waits for an unplaced node, and so on for ever. */
  lemma {:induction false} UnplacedWalk(names: seq<string>, edges: seq<Edge>, k: nat, n: string, l: nat)
    returns (p: seq<string>)
    requires Closed(names, edges) && WaveAt(names, edges, k) == []
    requires n in names && n !in Placed(names, edges, k)
    ensures Walk(edges, p) && p[0] == n && |p| == l + 1 && forall x :: x in p ==> x in names
    decreases l
  {
    if l == 0 {
      p := [n];
    } else {
      var placed := Placed(names, edges, k);
      WaveMember(names, edges, placed, n);
      var d :| d in Deps(edges, n) && d !in placed;
      var q := UnplacedWalk(names, edges, k, d, l - 1);
      p := [n] + q;
    }
  }

  lemma UnplacedHasCycle(names: seq<string>, edges: seq<Edge>, k: nat, n: string)
    requires Closed(names, edges) && WaveAt(names, edges, k) == []
    requires n in names && n !in Placed(names, edges, k)
    ensures DependsOnCycle(edges, n)
  {
    var p := UnplacedWalk(names, edges, k, n, |SetOf(names)|);
    Pigeonhole(p, SetOf(names));
    assert Revisits(p);
  }

  /** A wave places a node exactly when no cycle is on it or upstream of it. */
  lemma WavePlacesIffNoCycle(names: seq<string>, edges: seq<Edge>, n: string)
    requires Closed(names, edges) && n in names
    ensures n in Flatten(Waves(names, edges)) <==> !DependsOnCycle(edges, n)
  {
    var ws := Waves(names, edges);
    FlattenMember(ws, n);
    PlacedMember(names, edges, |ws|, n);
    if i :| 0 <= i < |ws| && n in ws[i] {
      PlacedHasNoCycle(names, edges, i, n);
    } else {
      forall j: nat | j < |ws| ensures n !in WaveAt(names, edges, j) {
        assert ws[j] == WaveAt(names, edges, j);
      }
      UnplacedHasCycle(names, edges, |ws|, n);
    }
  }

  // ---------- the leftovers ----------

  lemma {:induction false} UnplacedMember(names: seq<string>, placed: set<string>, n: string)
    ensures n in Unplaced(names, placed) <==> n in names && n !in placed
  {
    if names != [] {
      var init, x := names[..|names| - 1], names[|names| - 1];
      assert names == init + [x];
      UnplacedMember(init, placed, n);
    }
  }

  lemma {:induction false} UnplacedDistinct(names: seq<string>, placed: set<string>)
    ensures Distinct(Unplaced(names, placed))
  {
    if names != [] {
      UnplacedDistinct(names[..|names| - 1], placed);
    }
  }

  /**
   * Past the waves come exactly the nodes on or downstream of a cycle, each once and alone on its level.
   */
  lemma LeftoversAreCyclic(names: seq<string>, edges: seq<Edge>)
    requires Closed(names, edges)
    ensures forall n :: n in Leftovers(names, edges) <==> n in names && DependsOnCycle(edges, n)
    ensures Distinct(Leftovers(names, edges))
    ensures forall l :: |Waves(names, edges)| <= l < |Levels(names, edges)| ==>
              |Levels(names, edges)[l]| == 1 && DependsOnCycle(edges, Levels(names, edges)[l][0])
  {
    var placed := Placed(names, edges, |Waves(names, edges)|);
    UnplacedDistinct(names, placed);
    forall n ensures n in Leftovers(names, edges) <==> n in names && DependsOnCycle(edges, n) {
      UnplacedMember(names, placed, n);
      PlacedIsFlatten(names, edges, n);
      if n in names {
        WavePlacesIffNoCycle(names, edges, n);
      }
    }
  }

  lemma PlacedIsFlatten(names: seq<string>, edges: seq<Edge>, n: string)
    ensures n in Placed(names, edges, |Waves(names, edges)|) <==> n in Flatten(Waves(names, edges))
  {
    var ws := Waves(names, edges);
    FlattenMember(ws, n);
    PlacedMember(names, edges, |ws|, n);
    forall j: nat | j < |ws| ensures ws[j] == WaveAt(names, edges, j) {}
  }

  // ---------- levels and edges ----------

  /** A level is a wave of placed nodes, or one leftover. */
  lemma LevelKind(names: seq<string>, edges: seq<Edge>, i: nat, n: string)
    ensures i < |Levels(names, edges)| && n in Levels(names, edges)[i] ==>
              var w := |Waves(names, edges)|;
              if i < w then n in WaveAt(names, edges, i) && n in Placed(names, edges, w)
              else i - w < |Leftovers(names, edges)| && Leftovers(names, edges)[i - w] == n
                   && n in names && n !in Placed(names, edges, w)
  {
    var w := |Waves(names, edges)|;
    LevelAt(names, edges, i);
    if i < w {
      PlacedMember(names, edges, w, n);
    } else if i < |Levels(names, edges)| && n in Levels(names, edges)[i] {
      assert Leftovers(names, edges)[i - w] == n;
      UnplacedMember(names, Placed(names, edges, w), n);
    }
  }

  /** Every node lies on exactly one level. */
  lemma LevelUnique(names: seq<string>, edges: seq<Edge>, i: nat, j: nat, n: string)
    requires i < |Levels(names, edges)| && j < |Levels(names, edges)|
    requires n in Levels(names, edges)[i] && n in Levels(names, edges)[j]
    ensures i == j
  {
    LevelKind(names, edges, i, n);
    LevelKind(names, edges, j, n);
    var w := |Waves(names, edges)|;
    if i < w {
      WaveUnique(names, edges, i, j, n);
    } else {
      UnplacedDistinct(names, Placed(names, edges, w));
    }
  }

  /** Level i is wave i, or leftover number i minus the number of waves. */
  lemma LevelAt(names: seq<string>, edges: seq<Edge>, i: nat)
    ensures |Levels(names, edges)| == |Waves(names, edges)| + |Leftovers(names, edges)|
    ensures i < |Waves(names, edges)| ==> Levels(names, edges)[i] == WaveAt(names, edges, i)
    ensures i < |Leftovers(names, edges)| ==>
              Levels(names, edges)[|Waves(names, edges)| + i] == [Leftovers(names, edges)[i]]
  {
    hide WaveAt, Leftovers;
  }

  lemma LevelExists(names: seq<string>, edges: seq<Edge>, n: string) returns (i: nat)
    requires n in names
    ensures i < |Levels(names, edges)| && n in Levels(names, edges)[i]
  {
    var w := |Waves(names, edges)|;
    hide Placed, Wave, WaveAt, Unplaced, Waves, Levels;
    PlacedMember(names, edges, w, n);
    UnplacedMember(names, Placed(names, edges, w), n);
    assert Leftovers(names, edges) == Unplaced(names, Placed(names, edges, w));
    hide Leftovers;
    if n in Placed(names, edges, w) {
      var j: nat :| j < w && n in WaveAt(names, edges, j);
      LevelAt(names, edges, j);
      i := j;
    } else {
      var j :| 0 <= j < |Leftovers(names, edges)| && Leftovers(names, edges)[j] == n;
      LevelAt(names, edges, j);
      i := w + j;
    }
  }

  /** An edge into a wave-placed node comes from a strictly earlier level: none from a leftover. */
  lemma EdgeIntoWaveAscends(names: seq<string>, edges: seq<Edge>, e: Edge, k: nat)
    requires e in edges && k < |Waves(names, edges)| && e.to in Waves(names, edges)[k]
    ensures forall i :: 0 <= i < |Levels(names, edges)| && e.from in Levels(names, edges)[i] ==> i < k
  {
    var j := DependencyEarlier(names, edges, k, e.to, e.from);
    forall i | 0 <= i < |Levels(names, edges)| && e.from in Levels(names, edges)[i] ensures i < k {
      assert Levels(names, edges)[j] == Waves(names, edges)[j];
      LevelUnique(names, edges, i, j, e.from);
    }
  }
}
