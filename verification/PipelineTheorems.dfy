/** What the stage list as a whole guarantees. */
module PipelineTheorems {
  import opened PipelineModel
  import opened PipelineEdges
  import opened PipelineLevels
  import opened PipelineStages
  import opened Sequences

  /** Every edge leads to a strictly later stage. */
  ghost predicate LinearExtension(edges: seq<Edge>, stages: seq<Stage>) {
    forall e, i, j | e in edges && 0 <= i < |stages| && 0 <= j < |stages|
                     && e.from in stages[i].nodes && e.to in stages[j].nodes :: i < j
  }

  function AllNodes(stages: seq<Stage>): seq<string> {
    if stages == [] then [] else AllNodes(stages[..|stages| - 1]) + stages[|stages| - 1].nodes
  }

  // ---------- stages and their tags ----------

  lemma {:induction false} MembersMember(nodes: seq<Node>, level: seq<string>, k: GroupKey, x: string)
    ensures x in Members(nodes, level, k) <==> x in level && InGroup(nodes, x, k)
  {
    if level != [] {
      MembersMember(nodes, level[..|level| - 1], k, x);
      assert level == level[..|level| - 1] + [level[|level| - 1]];
    }
  }

  /** Of nodes that share a name the last one decides. */
  lemma {:induction false} LookupIsLast(nodes: seq<Node>, i: nat)
    requires i < |nodes| && forall j :: i < j < |nodes| ==> nodes[j].name != nodes[i].name
    ensures Lookup(nodes, nodes[i].name) == Some(nodes[i])
  {
    var k := |nodes| - 1;
    if i < k {
      assert nodes[k].name != nodes[i].name;
      LookupIsLast(nodes[..k], i);
    }
  }

  lemma {:induction false} LookupFinds(nodes: seq<Node>, i: nat)
    requires i < |nodes|
    ensures Lookup(nodes, nodes[i].name).Some?
  {
    if nodes[|nodes| - 1].name != nodes[i].name {
      LookupFinds(nodes[..|nodes| - 1], i);
    }
  }

  /** Stage i holds the members of its tag's group on its tag's level; tags are sorted by level. */
  lemma {:induction false} TagOfStage(nodes: seq<Node>, levels: seq<seq<string>>, plan: seq<seq<GroupKey>>, i: nat)
    requires |plan| <= |levels| && i < |StagesOfPlan(nodes, levels, plan)|
    ensures |Tags(plan)| == |StagesOfPlan(nodes, levels, plan)|
    ensures var t := Tags(plan)[i];
            && t.level < |plan| && t.key in plan[t.level]
            && StagesOfPlan(nodes, levels, plan)[i] == StageOf(nodes, levels[t.level], t.key)
  {
    var l := |plan| - 1;
    var before := StagesOfPlan(nodes, levels, plan[..l]);
    TagsPerStage(nodes, levels, plan[..l]);
    if i < |before| {
      TagOfStage(nodes, levels, plan[..l], i);
    }
  }

  lemma {:induction false} TagsPerStage(nodes: seq<Node>, levels: seq<seq<string>>, plan: seq<seq<GroupKey>>)
    requires |plan| <= |levels|
    ensures |Tags(plan)| == |StagesOfPlan(nodes, levels, plan)|
  {
    if plan != [] {
      TagsPerStage(nodes, levels, plan[..|plan| - 1]);
    }
  }

  lemma {:induction false} TagsSorted(plan: seq<seq<GroupKey>>, i: nat, j: nat)
    requires i < j < |Tags(plan)|
    requires forall l :: 0 <= l < |plan| ==> Distinct(plan[l])
    ensures Tags(plan)[i].level <= Tags(plan)[j].level < |plan|
    ensures Tags(plan)[i] != Tags(plan)[j]
  {
    var l := |plan| - 1;
    var before := Tags(plan[..l]);
    if j < |before| {
      TagsSorted(plan[..l], i, j);
    } else if i < |before| {
      TagLevelBound(plan[..l], i);
    }
  }

  lemma {:induction false} TagLevelBound(plan: seq<seq<GroupKey>>, i: nat)
    requires i < |Tags(plan)|
    ensures Tags(plan)[i].level < |plan|
  {
    var before := Tags(plan[..|plan| - 1]);
    if i < |before| {
      TagLevelBound(plan[..|plan| - 1], i);
    }
  }

  /** Every group of every level has its tag. */
  lemma {:induction false} TagExists(plan: seq<seq<GroupKey>>, l: nat, k: GroupKey) returns (i: nat)
    requires l < |plan| && k in plan[l]
    ensures i < |Tags(plan)| && Tags(plan)[i] == Tag(l, k)
  {
    var m := |plan| - 1;
    if l < m {
      i := TagExists(plan[..m], l, k);
    } else {
      var j :| 0 <= j < |plan[l]| && plan[l][j] == k;
      i := |Tags(plan[..m])| + j;
    }
  }

  /** All members of a stage lie on one level and share one (environment, e2e) pair, and no other stage has both. */
  lemma StageIsOneGroup(nodes: seq<Node>, edges: seq<Edge>, plan: seq<seq<GroupKey>>, stages: seq<Stage>, i: nat)
    requires Staged(nodes, edges, plan, stages) && i < |stages|
    ensures |Tags(plan)| == |stages| && Tags(plan)[i].level < |Levels(Names(nodes), edges)|
    ensures forall x :: x in stages[i].nodes <==>
              x in Levels(Names(nodes), edges)[Tags(plan)[i].level] && InGroup(nodes, x, Tags(plan)[i].key)
    ensures stages[i].nodes != []
    ensures forall j :: i < j < |stages| ==>
              Tags(plan)[i] != Tags(plan)[j] && Tags(plan)[i].level <= Tags(plan)[j].level
  {
    var levels := Levels(Names(nodes), edges);
    TagOfStage(nodes, levels, plan, i);
    var t := Tags(plan)[i];
    assert stages[i].nodes == Members(nodes, levels[t.level], t.key);
    assert GroupOrder(nodes, levels[t.level], plan[t.level]);
    forall x ensures x in stages[i].nodes <==> x in levels[t.level] && InGroup(nodes, x, t.key) {
      MembersMember(nodes, levels[t.level], t.key, x);
    }
    forall j | i < j < |stages| ensures t != Tags(plan)[j] && t.level <= Tags(plan)[j].level {
      forall l | 0 <= l < |plan| ensures Distinct(plan[l]) {
        assert GroupOrder(nodes, levels[l], plan[l]);
      }
      TagsSorted(plan, i, j);
    }
  }

  lemma StageExists(nodes: seq<Node>, edges: seq<Edge>, plan: seq<seq<GroupKey>>, stages: seq<Stage>, x: string)
    returns (i: nat)
    requires Staged(nodes, edges, plan, stages) && x in Names(nodes)
    ensures i < |stages| && x in stages[i].nodes
  {
    var levels := Levels(Names(nodes), edges);
    var l := LevelExists(Names(nodes), edges, x);
    var n :| 0 <= n < |nodes| && nodes[n].name == x;
    LookupFinds(nodes, n);
    var k := KeyOf(Lookup(nodes, x).value);
    MembersMember(nodes, levels[l], k, x);
    assert GroupOrder(nodes, levels[l], plan[l]);
    i := TagExists(plan, l, k);
    TagsPerStage(nodes, levels, plan);
    StageIsOneGroup(nodes, edges, plan, stages, i);
  }

  // ---------- the stages of one level come in the order of promotion ----------

  lemma {:induction false} TagsRanked(plan: seq<seq<GroupKey>>, i: nat, j: nat)
    requires i < j < |Tags(plan)| && Tags(plan)[i].level == Tags(plan)[j].level
    requires forall l :: 0 <= l < |plan| ==>
               forall a, b :: 0 <= a < b < |plan[l]| ==> Rank(plan[l][a]) <= Rank(plan[l][b])
    ensures Rank(Tags(plan)[i].key) <= Rank(Tags(plan)[j].key)
  {
    hide Rank;
    var l := |plan| - 1;
    var before := Tags(plan[..l]);
    if j < |before| {
      TagsRanked(plan[..l], i, j);
    } else if i < |before| {
      TagLevelBound(plan[..l], i);
    } else {
      assert Tags(plan)[i].key == plan[l][i - |before|] && Tags(plan)[j].key == plan[l][j - |before|];
    }
  }

  lemma RanksAlongLevel(nodes: seq<Node>, edges: seq<Edge>, plan: seq<seq<GroupKey>>, stages: seq<Stage>,
                        i: nat, j: nat)
    requires Staged(nodes, edges, plan, stages) && i < j < |stages| && |Tags(plan)| == |stages|
    requires Tags(plan)[i].level == Tags(plan)[j].level
    ensures Rank(Tags(plan)[i].key) <= Rank(Tags(plan)[j].key)
  {
    var levels := Levels(Names(nodes), edges);
    forall l | 0 <= l < |plan|
      ensures forall a, b :: 0 <= a < b < |plan[l]| ==> Rank(plan[l][a]) <= Rank(plan[l][b])
    {
      assert GroupOrder(nodes, levels[l], plan[l]);
    }
    hide Staged, Levels, Tags, Rank, GroupOrder;
    TagsRanked(plan, i, j);
  }

  /**
   * Of two stages on one level, the one of an earlier environment comes first: integration, stage, production,
   * and only then any other. Within one of the three, the e2e nodes come after the others.
   */
  lemma LevelInPromotionOrder(nodes: seq<Node>, edges: seq<Edge>, plan: seq<seq<GroupKey>>, stages: seq<Stage>,
                              i: nat, j: nat, m: Node, n: Node)
    requires Staged(nodes, edges, plan, stages) && i < |stages| && j < |stages| && |Tags(plan)| == |stages|
    requires Tags(plan)[i].level == Tags(plan)[j].level
    requires m.name in stages[i].nodes && Lookup(nodes, m.name) == Some(m)
    requires n.name in stages[j].nodes && Lookup(nodes, n.name) == Some(n)
    ensures m.env == "integration" && n.env != "integration" ==> i < j
    ensures m.env == "stage" && n.env != "integration" && n.env != "stage" ==> i < j
    ensures m.env == "production" && n.env != "integration" && n.env != "stage" && n.env != "production" ==> i < j
    ensures m.env == n.env && (m.env == "integration" || m.env == "stage" || m.env == "production") ==>
              m.kind != "e2e" && n.kind == "e2e" ==> i < j
  {
    hide Staged, Levels, Tags, Lookup, Rank;
    StageOfNode(nodes, edges, plan, stages, i, m);
    StageOfNode(nodes, edges, plan, stages, j, n);
    if j < i {
      RanksAlongLevel(nodes, edges, plan, stages, j, i);
    }
    RankOrder(m, n);
  }

  /** What an equal or lower rank rules out. */
  lemma RankOrder(m: Node, n: Node)
    ensures Rank(KeyOf(n)) <= Rank(KeyOf(m)) ==>
              && (m.env == "integration" ==> n.env == "integration")
              && (m.env == "stage" ==> n.env == "integration" || n.env == "stage")
              && (m.env == "production" ==> n.env == "integration" || n.env == "stage" || n.env == "production")
              && (m.env == n.env && (m.env == "integration" || m.env == "stage" || m.env == "production") ==>
                    n.kind == "e2e" ==> m.kind == "e2e")
  {
    assert |"integration"| == 11 && |"stage"| == 5 && |"production"| == 10;
  }

  lemma StageOfNode(nodes: seq<Node>, edges: seq<Edge>, plan: seq<seq<GroupKey>>, stages: seq<Stage>, i: nat, n: Node)
    requires Staged(nodes, edges, plan, stages) && i < |stages|
    requires n.name in stages[i].nodes && Lookup(nodes, n.name) == Some(n)
    ensures |Tags(plan)| == |stages| && Tags(plan)[i].key == KeyOf(n)
  {
    hide Staged, Levels, Tags, Lookup;
    StageIsOneGroup(nodes, edges, plan, stages, i);
    assert InGroup(nodes, n.name, Tags(plan)[i].key);
  }

  // ---------- stages list their members in input order ----------

  lemma {:induction false} WaveInOrder(names: seq<string>, edges: seq<Edge>, placed: set<string>)
    ensures Subsequence(Wave(names, edges, placed), names)
  {
    if names == [] {
      assert Picks(Wave(names, edges, placed), names, []);
    } else {
      var init, n := names[..|names| - 1], names[|names| - 1];
      WaveInOrder(init, edges, placed);
      SubsequenceGrows(Wave(init, edges, placed), init, n);
      assert names == init + [n];
      assert Wave(names, edges, placed)
        == if Ready(edges, placed, n) then Wave(init, edges, placed) + [n] else Wave(init, edges, placed);
    }
  }

  lemma {:induction false} MembersInOrder(nodes: seq<Node>, level: seq<string>, k: GroupKey)
    ensures Subsequence(Members(nodes, level, k), level)
  {
    if level == [] {
      assert Picks(Members(nodes, level, k), level, []);
    } else {
      var init, n := level[..|level| - 1], level[|level| - 1];
      MembersInOrder(nodes, init, k);
      SubsequenceGrows(Members(nodes, init, k), init, n);
      assert level == init + [n];
      assert Members(nodes, level, k)
        == if InGroup(nodes, n, k) then Members(nodes, init, k) + [n] else Members(nodes, init, k);
    }
  }

  lemma SingletonInOrder<T>(x: T, t: seq<T>)
    requires x in t
    ensures Subsequence([x], t)
  {
    var i: nat :| i < |t| && t[i] == x;
    assert Picks([x], t, [i]);
  }

  lemma LeftoverNamed(names: seq<string>, edges: seq<Edge>, n: string)
    requires n in Leftovers(names, edges)
    ensures n in names
  {
    var placed := Placed(names, edges, |Waves(names, edges)|);
    hide Waves, Placed, Unplaced;
    UnplacedMember(names, placed, n);
  }

  lemma WaveAtInOrder(names: seq<string>, edges: seq<Edge>, k: nat)
    ensures Subsequence(WaveAt(names, edges, k), names)
  {
    hide Wave, Placed, Subsequence;
    WaveInOrder(names, edges, Placed(names, edges, k));
  }

  lemma LevelInOrder(names: seq<string>, edges: seq<Edge>, l: nat)
    ensures l < |Levels(names, edges)| ==> Subsequence(Levels(names, edges)[l], names)
  {
    hide Waves, Levels, Leftovers, WaveAt, Subsequence;
    var w := |Waves(names, edges)|;
    LevelAt(names, edges, l);
    if l < w {
      WaveAtInOrder(names, edges, l);
    } else if l < |Levels(names, edges)| {
      LevelAt(names, edges, l - w);
      var n := Leftovers(names, edges)[l - w];
      LeftoverNamed(names, edges, n);
      SingletonInOrder(n, names);
    }
  }

  /** Leftovers come in the order in which the input first names them. */
  lemma {:induction false} UnplacedInOrder(names: seq<string>, placed: set<string>)
    ensures Subsequence(Unplaced(names, placed), names)
    ensures forall i, j :: 0 <= i < j < |Unplaced(names, placed)| ==>
              FirstIndex(names, Unplaced(names, placed)[i]) < FirstIndex(names, Unplaced(names, placed)[j])
  {
    if names == [] {
      assert Picks(Unplaced(names, placed), names, []);
    } else {
      var init, n := names[..|names| - 1], names[|names| - 1];
      UnplacedInOrder(init, placed);
      SubsequenceGrows(Unplaced(init, placed), init, n);
      assert names == init + [n];
      forall x ensures x in init ==> FirstIndex(names, x) == FirstIndex(init, x) < |init| {
        FirstIndexKept(init, n, x);
      }
      var rest := Unplaced(init, placed);
      forall i | 0 <= i < |rest| ensures rest[i] in init {
        UnplacedMember(init, placed, rest[i]);
      }
      if n !in placed && n !in rest {
        UnplacedMember(init, placed, n);
        FirstIndexKept(init, n, n);
      }
    }
  }

  lemma LeftoversInOrder(names: seq<string>, edges: seq<Edge>)
    ensures Subsequence(Leftovers(names, edges), names)
    ensures forall i, j :: 0 <= i < j < |Leftovers(names, edges)| ==>
              FirstIndex(names, Leftovers(names, edges)[i]) < FirstIndex(names, Leftovers(names, edges)[j])
  {
    hide Unplaced, Placed, Waves, FirstIndex, Subsequence;
    UnplacedInOrder(names, Placed(names, edges, |Waves(names, edges)|));
  }

  /** Each stage lists its members in the order of the input. */
  lemma StageInInputOrder(nodes: seq<Node>, edges: seq<Edge>, plan: seq<seq<GroupKey>>, stages: seq<Stage>, i: nat)
    requires Staged(nodes, edges, plan, stages) && i < |stages|
    ensures Subsequence(stages[i].nodes, Names(nodes))
  {
    var levels := Levels(Names(nodes), edges);
    TagOfStage(nodes, levels, plan, i);
    var t := Tags(plan)[i];
    MembersInOrder(nodes, levels[t.level], t.key);
    LevelInOrder(Names(nodes), edges, t.level);
    hide Levels, Members, Subsequence;
    SubsequenceTransitive(stages[i].nodes, levels[t.level], Names(nodes));
  }

  // ---------- the stage list linearly extends the graph exactly when there is no cycle ----------

  /** A member of stage i is on the level of its tag. */
  lemma MemberOnLevel(nodes: seq<Node>, edges: seq<Edge>, plan: seq<seq<GroupKey>>, stages: seq<Stage>,
                      i: nat, x: string)
    requires Staged(nodes, edges, plan, stages) && i < |stages| && x in stages[i].nodes
    ensures |Tags(plan)| == |stages| && Tags(plan)[i].level < |Levels(Names(nodes), edges)|
    ensures x in Levels(Names(nodes), edges)[Tags(plan)[i].level]
  {
    hide Staged, Levels, Tags, InGroup;
    StageIsOneGroup(nodes, edges, plan, stages, i);
  }

  /** Earlier levels come in earlier stages. */
  lemma LowerLevelFirst(nodes: seq<Node>, edges: seq<Edge>, plan: seq<seq<GroupKey>>, stages: seq<Stage>,
                        i: nat, j: nat)
    requires Staged(nodes, edges, plan, stages) && i < |stages| && j < |stages| && |Tags(plan)| == |stages|
    requires Tags(plan)[i].level < Tags(plan)[j].level
    ensures i < j
  {
    hide Staged, Levels, Tags, InGroup;
    StageIsOneGroup(nodes, edges, plan, stages, j);
  }

  lemma EdgeAscends(nodes: seq<Node>, edges: seq<Edge>, plan: seq<seq<GroupKey>>, stages: seq<Stage>,
                    e: Edge, i: nat, j: nat)
    requires Closed(Names(nodes), edges) && Staged(nodes, edges, plan, stages)
    requires e in edges && i < |stages| && j < |stages| && e.from in stages[i].nodes && e.to in stages[j].nodes
    requires !DependsOnCycle(edges, e.to)
    ensures i < j
  {
    var names := Names(nodes);
    assert e.to in names;
    hide Staged, Closed, Waves, Levels, Tags, DependsOnCycle;
    var k := WaveOf(names, edges, e.to);
    LevelAt(names, edges, k);
    EdgeIntoWaveAscends(names, edges, e, k);
    MemberOnLevel(nodes, edges, plan, stages, i, e.from);
    MemberOnLevel(nodes, edges, plan, stages, j, e.to);
    LevelUnique(names, edges, Tags(plan)[j].level, k, e.to);
    LowerLevelFirst(nodes, edges, plan, stages, i, j);
  }

  lemma WaveOf(names: seq<string>, edges: seq<Edge>, n: string) returns (k: nat)
    requires Closed(names, edges) && n in names && !DependsOnCycle(edges, n)
    ensures k < |Waves(names, edges)| && n in Waves(names, edges)[k]
  {
    hide Waves, DependsOnCycle;
    WavePlacesIffNoCycle(names, edges, n);
    FlattenMember(Waves(names, edges), n);
    k :| 0 <= k < |Waves(names, edges)| && n in Waves(names, edges)[k];
  }

  lemma {:induction false} WalkDescends(nodes: seq<Node>, edges: seq<Edge>, plan: seq<seq<GroupKey>>,
                                        stages: seq<Stage>, p: seq<string>, a: nat, b: nat, i: nat, j: nat)
    requires Closed(Names(nodes), edges) && Staged(nodes, edges, plan, stages) && LinearExtension(edges, stages)
    requires Walk(edges, p) && a < b < |p|
    requires i < |stages| && j < |stages| && p[a] in stages[i].nodes && p[b] in stages[j].nodes
    ensures j < i
    decreases b
  {
    hide Staged;
    assert p[b - 1 + 1] in Deps(edges, p[b - 1]);
    var e :| e in edges && e.to == p[b - 1] && e.from == p[b];
    hide Deps, Walk;
    if b - 1 > a {
      var m := StageExists(nodes, edges, plan, stages, p[b - 1]);
      WalkDescends(nodes, edges, plan, stages, p, a, b - 1, i, m);
    }
  }

  /** Every edge leads to a later stage if and only if the graph has no cycle. */
  lemma LinearExtensionIffAcyclic(nodes: seq<Node>, edges: seq<Edge>, plan: seq<seq<GroupKey>>, stages: seq<Stage>)
    requires Closed(Names(nodes), edges) && Staged(nodes, edges, plan, stages)
    ensures LinearExtension(edges, stages) <==> Acyclic(Names(nodes), edges)
  {
    if Acyclic(Names(nodes), edges) {
      forall e, i, j | e in edges && 0 <= i < |stages| && 0 <= j < |stages|
                       && e.from in stages[i].nodes && e.to in stages[j].nodes ensures i < j {
        EdgeAscends(nodes, edges, plan, stages, e, i, j);
      }
    } else if LinearExtension(edges, stages) {
      var n :| n in Names(nodes) && DependsOnCycle(edges, n);
      var p :| Walk(edges, p) && p[0] == n && Revisits(p);
      var a, b :| 0 <= a < b < |p| && p[a] == p[b];
      assert p[b - 1 + 1] in Deps(edges, p[b - 1]);
      assert p[b] in Names(nodes);
      var i := StageExists(nodes, edges, plan, stages, p[b]);
      WalkDescends(nodes, edges, plan, stages, p, a, b, i, i);
    }
  }

  // ---------- no node is lost, and which repeated names are ----------

  lemma AllNodesSnoc(s: seq<Stage>, x: Stage)
    ensures AllNodes(s + [x]) == AllNodes(s) + x.nodes
  {
    assert (s + [x])[..|s|] == s;
  }

  lemma {:induction false} AllNodesAppend(s: seq<Stage>, t: seq<Stage>)
    ensures AllNodes(s + t) == AllNodes(s) + AllNodes(t)
  {
    if t == [] {
      assert s + t == s && AllNodes(t) == [];
    } else {
      hide AllNodes;
      var init, x := t[..|t| - 1], t[|t| - 1];
      AllNodesAppend(s, init);
      assert t == init + [x] && s + t == (s + init) + [x];
      AllNodesSnoc(init, x);
      AllNodesSnoc(s + init, x);
      Associative(AllNodes(s), AllNodes(init), x.nodes);
    }
  }

  lemma {:induction false} CountMembers(nodes: seq<Node>, level: seq<string>, k: GroupKey, x: string)
    ensures Count(Members(nodes, level, k), x) == if InGroup(nodes, x, k) then Count(level, x) else 0
  {
    if level != [] {
      var init, n := level[..|level| - 1], level[|level| - 1];
      CountMembers(nodes, init, k, x);
      CountSnoc(Members(nodes, init, k), n, x);
      assert Members(nodes, level, k)
        == if InGroup(nodes, n, k) then Members(nodes, init, k) + [n] else Members(nodes, init, k);
    }
  }

  lemma {:induction false} CountOneLevel(nodes: seq<Node>, level: seq<string>, keys: seq<GroupKey>, x: string)
    requires Distinct(keys) && Lookup(nodes, x).Some?
    ensures Count(AllNodes(StagesOfLevel(nodes, level, keys)), x)
         == if KeyOf(Lookup(nodes, x).value) in keys then Count(level, x) else 0
  {
    var stages := StagesOfLevel(nodes, level, keys);
    if keys != [] {
      var init, k := keys[..|keys| - 1], keys[|keys| - 1];
      CountOneLevel(nodes, level, init, x);
      assert stages[..|stages| - 1] == StagesOfLevel(nodes, level, init);
      hide Count, Members, Lookup;
      CountAppend(AllNodes(stages[..|stages| - 1]), Members(nodes, level, k), x);
      CountMembers(nodes, level, k, x);
      assert keys == init + [k];
    }
  }

  /** Cutting a level into its groups keeps every node as often as the level has it. */
  lemma CountWholeLevel(nodes: seq<Node>, level: seq<string>, keys: seq<GroupKey>, x: string)
    requires GroupOrder(nodes, level, keys) && Lookup(nodes, x).Some?
    ensures Count(AllNodes(StagesOfLevel(nodes, level, keys)), x) == Count(level, x)
  {
    var k := KeyOf(Lookup(nodes, x).value);
    CountOneLevel(nodes, level, keys, x);
    MembersMember(nodes, level, k, x);
    CountPositive(level, x);
  }

  lemma {:induction false} CountPlan(nodes: seq<Node>, levels: seq<seq<string>>, plan: seq<seq<GroupKey>>, x: string)
    requires |plan| <= |levels| && forall l :: 0 <= l < |plan| ==> GroupOrder(nodes, levels[l], plan[l])
    requires Lookup(nodes, x).Some?
    ensures Count(AllNodes(StagesOfPlan(nodes, levels, plan)), x) == Count(Flatten(levels[..|plan|]), x)
  {
    if plan != [] {
      var l := |plan| - 1;
      CountPlan(nodes, levels, plan[..l], x);
      var before, here := StagesOfPlan(nodes, levels, plan[..l]), StagesOfLevel(nodes, levels[l], plan[l]);
      AllNodesAppend(before, here);
      CountAppend(AllNodes(before), AllNodes(here), x);
      CountWholeLevel(nodes, levels[l], plan[l], x);
      CountFlattenNext(levels, l, x);
    }
  }

  lemma CountFlattenNext(levels: seq<seq<string>>, l: nat, x: string)
    requires l < |levels|
    ensures Count(Flatten(levels[..l + 1]), x) == Count(Flatten(levels[..l]), x) + Count(levels[l], x)
  {
    assert levels[..l + 1] == levels[..l] + [levels[l]];
    FlattenSnoc(levels[..l], levels[l]);
    CountAppend(Flatten(levels[..l]), levels[l], x);
  }

  lemma {:induction false} CountWave(names: seq<string>, edges: seq<Edge>, placed: set<string>, x: string)
    ensures Count(Wave(names, edges, placed), x) == if Ready(edges, placed, x) then Count(names, x) else 0
  {
    if names != [] {
      var init, n := names[..|names| - 1], names[|names| - 1];
      CountWave(init, edges, placed, x);
      CountSnoc(Wave(init, edges, placed), n, x);
      assert Wave(names, edges, placed)
        == if Ready(edges, placed, n) then Wave(init, edges, placed) + [n] else Wave(init, edges, placed);
    }
  }

  /** A name occurs in the waves run so far as often as in the input once it is placed, and not before. */
  lemma {:induction false} CountWaves(names: seq<string>, edges: seq<Edge>, k: nat, x: string)
    requires k <= |Waves(names, edges)|
    ensures Count(Flatten(Waves(names, edges)[..k]), x)
         == if x in Placed(names, edges, k) then Count(names, x) else 0
  {
    hide Waves, Flatten, Placed, Count;
    if k == 0 {
      assert Waves(names, edges)[..0] == [];
      NothingPlaced(names, edges, x);
    } else {
      CountWaves(names, edges, k - 1, x);
      CountFlattenNext(Waves(names, edges), k - 1, x);
      NextPlacement(names, edges, k - 1, x);
    }
  }

  lemma NothingPlaced(names: seq<string>, edges: seq<Edge>, x: string)
    ensures Count(Flatten([]), x) == 0 && Placed(names, edges, 0) == {}
  {
  }

  lemma NextPlacement(names: seq<string>, edges: seq<Edge>, k: nat, x: string)
    requires k < |Waves(names, edges)|
    ensures Count(Waves(names, edges)[k], x)
         == (if x in Placed(names, edges, k + 1) then Count(names, x) else 0)
            - (if x in Placed(names, edges, k) then Count(names, x) else 0)
  {
    CountWave(names, edges, Placed(names, edges, k), x);
    CountPositive(WaveAt(names, edges, k), x);
  }

  lemma CountUnplaced(names: seq<string>, placed: set<string>, x: string)
    ensures Count(Unplaced(names, placed), x) == if x in names && x !in placed then 1 else 0
  {
    UnplacedMember(names, placed, x);
    UnplacedDistinct(names, placed);
    CountPositive(Unplaced(names, placed), x);
    DistinctCount(Unplaced(names, placed), x);
  }

  lemma {:induction false} FlattenSingletons(s: seq<string>)
    ensures Flatten(Singletons(s)) == s
  {
    if s != [] {
      var init, n := s[..|s| - 1], s[|s| - 1];
      FlattenSingletons(init);
      SingletonsSnoc(init, n);
      assert s == init + [n];
      FlattenSnoc(Singletons(init), [n]);
    }
  }

  /** How often a name is staged: as often as it was given, but only once if it depends on a cycle. */
  lemma StagedCount(nodes: seq<Node>, edges: seq<Edge>, plan: seq<seq<GroupKey>>, stages: seq<Stage>, x: string)
    requires Closed(Names(nodes), edges) && Staged(nodes, edges, plan, stages)
    ensures Count(AllNodes(stages), x)
         == if x in Names(nodes) && DependsOnCycle(edges, x) then 1 else Count(Names(nodes), x)
  {
    CountPositive(Names(nodes), x);
    hide Staged, Closed, AllNodes, Count, DependsOnCycle;
    if x in Names(nodes) {
      NamedCount(nodes, edges, plan, stages, x);
    } else {
      UnnamedCount(nodes, edges, plan, stages, x);
    }
  }

  lemma UnnamedCount(nodes: seq<Node>, edges: seq<Edge>, plan: seq<seq<GroupKey>>, stages: seq<Stage>, x: string)
    requires Staged(nodes, edges, plan, stages) && x !in Names(nodes)
    ensures Count(AllNodes(stages), x) == 0
  {
    hide Staged, AllNodes, Count, Levels, Waves, Tags;
    CountPositive(AllNodes(stages), x);
    AllNodesMember(stages, x);
    if i :| 0 <= i < |stages| && x in stages[i].nodes {
      StageIsOneGroup(nodes, edges, plan, stages, i);
      var l := Tags(plan)[i].level;
      LevelKind(Names(nodes), edges, l, x);
      WaveMember(Names(nodes), edges, Placed(Names(nodes), edges, l), x);
    }
  }

  lemma NamedCount(nodes: seq<Node>, edges: seq<Edge>, plan: seq<seq<GroupKey>>, stages: seq<Stage>, x: string)
    requires Closed(Names(nodes), edges) && Staged(nodes, edges, plan, stages) && x in Names(nodes)
    ensures Count(AllNodes(stages), x) == if DependsOnCycle(edges, x) then 1 else Count(Names(nodes), x)
  {
    var names, levels := Names(nodes), Levels(Names(nodes), edges);
    SameNodesSameAll(stages, StagesOfPlan(nodes, levels, plan));
    var n :| 0 <= n < |nodes| && nodes[n].name == x;
    LookupFinds(nodes, n);
    CountPlan(nodes, levels, plan, x);
    assert levels[..|plan|] == levels;
    hide Staged, AllNodes, Count, Levels, DependsOnCycle;
    CountLevels(names, edges, x);
  }

  lemma CountLevels(names: seq<string>, edges: seq<Edge>, x: string)
    requires Closed(names, edges) && x in names
    ensures Count(Flatten(Levels(names, edges)), x) == if DependsOnCycle(edges, x) then 1 else Count(names, x)
  {
    var ws := Waves(names, edges);
    var placed := Placed(names, edges, |ws|);
    hide Closed, Count, Flatten, Waves, Placed, Unplaced, DependsOnCycle;
    assert ws[..|ws|] == ws;
    FlattenAppend(ws, Singletons(Unplaced(names, placed)));
    FlattenSingletons(Unplaced(names, placed));
    CountAppend(Flatten(ws), Unplaced(names, placed), x);
    CountWaves(names, edges, |ws|, x);
    CountUnplaced(names, placed, x);
    PlacedIsFlatten(names, edges, x);
    WavePlacesIffNoCycle(names, edges, x);
  }

  lemma {:induction false} AllNodesMember(stages: seq<Stage>, x: string)
    ensures x in AllNodes(stages) <==> exists i :: 0 <= i < |stages| && x in stages[i].nodes
  {
    if stages != [] {
      AllNodesMember(stages[..|stages| - 1], x);
    }
  }

  lemma {:induction false} SameNodesSameAll(s: seq<Stage>, t: seq<Stage>)
    requires |s| == |t| && forall i :: 0 <= i < |s| ==> s[i].nodes == t[i].nodes
    ensures AllNodes(s) == AllNodes(t)
  {
    if s != [] {
      SameNodesSameAll(s[..|s| - 1], t[..|t| - 1]);
    }
  }

  /**
   * The stages together are a permutation of the input exactly when no repeated name depends on a cycle.
   * In particular they are one whenever node names are distinct.
   */
  lemma StagesPermuteNodesIff(nodes: seq<Node>, edges: seq<Edge>, plan: seq<seq<GroupKey>>, stages: seq<Stage>)
    requires Closed(Names(nodes), edges) && Staged(nodes, edges, plan, stages)
    ensures multiset(AllNodes(stages)) == multiset(Names(nodes))
            <==> forall x :: x in Names(nodes) && Count(Names(nodes), x) > 1 ==> !DependsOnCycle(edges, x)
    ensures Distinct(Names(nodes)) ==> multiset(AllNodes(stages)) == multiset(Names(nodes))
  {
    var names, all := Names(nodes), AllNodes(stages);
    forall x ensures SameCount(all, names, x)
                     <==> (x in names && Count(names, x) > 1 ==> !DependsOnCycle(edges, x)) {
      StagedCount(nodes, edges, plan, stages, x);
      CountPositive(names, x);
    }
    SameCounts(all, names);
    if Distinct(names) {
      forall x | x in names ensures Count(names, x) <= 1 {
        DistinctCount(names, x);
      }
    }
  }

  lemma {:induction false} DistinctCount(s: seq<string>, x: string)
    requires Distinct(s)
    ensures Count(s, x) <= 1
  {
    if s != [] {
      var init := s[..|s| - 1];
      DistinctCount(init, x);
      CountPositive(init, x);
    }
  }

  // ---------- the pipeline as built ----------

  /** Edges and stages of one operator's pipeline. */
  method BuildPipeline(nodes: seq<Node>)
    returns (edges: seq<Edge>, stages: seq<Stage>)
    ensures edges == EdgesOf(nodes) && exists plan :: Staged(nodes, edges, plan, stages)
    ensures LinearExtension(edges, stages) <==> Acyclic(Names(nodes), edges)
    ensures Distinct(Names(nodes)) ==> multiset(AllNodes(stages)) == multiset(Names(nodes))
  {
    edges := BuildEdges(nodes);
    stages := BuildStages(nodes, edges);
    ghost var plan :| Staged(nodes, edges, plan, stages);
    LinearExtensionIffAcyclic(nodes, edges, plan, stages);
    StagesPermuteNodesIff(nodes, edges, plan, stages);
  }

  /** A node listed twice, on a cycle with itself, is staged only once, whatever the order of the groups. */
  lemma RepeatedCyclicNameIsLost(nodes: seq<Node>, x: Node, plan: seq<seq<GroupKey>>, stages: seq<Stage>)
    requires nodes == [x, x] && x == Node("a", "", "qa", ["c"], ["c"])
    requires Staged(nodes, EdgesOf(nodes), plan, stages)
    ensures Count(Names(nodes), "a") == 2 && Count(AllNodes(stages), "a") == 1
  {
    assert Names(nodes) == ["a", "a"] && ["a", "a"][..1] == ["a"] && ["a"][..0] == [];
    SelfLoop(nodes, x);
    EdgesAreClosed(nodes);
    assert "a" in Names(nodes);
    hide Staged, EdgesOf, DependsOnCycle, AllNodes;
    StagedCount(nodes, EdgesOf(nodes), plan, stages, "a");
  }

  lemma SelfLoop(nodes: seq<Node>, x: Node)
    requires nodes == [x, x] && x == Node("a", "", "qa", ["c"], ["c"])
    ensures DependsOnCycle(EdgesOf(nodes), "a")
  {
    var e := Edge("c", "a", "a");
    assert LastPublisher(nodes, "c", 1) && Subscribes(nodes, e, 1);
    assert Joined(nodes, e);
    ColonFreeNoClash(nodes);
    EdgesAreCompleteIff(nodes);
    hide EdgesOf;
    var p := ["a", "a"];
    assert "a" in Deps(EdgesOf(nodes), "a");
    assert Walk(EdgesOf(nodes), p) && p[0] == p[1] && Revisits(p);
  }
}
