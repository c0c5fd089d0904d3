/** Cutting levels into stages by (environment, e2e), and the whole stage list. */
module PipelineStages {
  import opened PipelineModel
  import opened PipelineLevels
  import opened StageNames
  import opened Sequences

  datatype GroupKey = GroupKey(env: string, isE2E: bool)

  const ENV_ORDER := ["integration", "stage", "production"]

  // ---------- specification ----------

  /** The last node of a name; names are unique in practice. */
  function Lookup(nodes: seq<Node>, name: string): Option<Node> {
    if nodes == [] then None
    else if nodes[|nodes| - 1].name == name then Some(nodes[|nodes| - 1])
    else Lookup(nodes[..|nodes| - 1], name)
  }

  function KeyOf(n: Node): GroupKey {
    GroupKey(n.env, n.kind == "e2e")
  }

  predicate InGroup(nodes: seq<Node>, name: string, k: GroupKey) {
    Lookup(nodes, name).Some? && KeyOf(Lookup(nodes, name).value) == k
  }

  /** The names of a level that belong to a group, in level order. */
  function Members(nodes: seq<Node>, level: seq<string>, k: GroupKey): seq<string> {
    if level == [] then []
    else
      var init, n := level[..|level| - 1], level[|level| - 1];
      Members(nodes, init, k) + if InGroup(nodes, n, k) then [n] else []
  }

  /** Position of a group in the fixed order; all other groups come last, in any order. */
  function Rank(k: GroupKey): nat {
    (if k.env == "integration" then 0 else if k.env == "stage" then 2 else if k.env == "production" then 4 else 6)
    + if k.isE2E && k.env in {"integration", "stage", "production"} then 1 else 0
  }

  /** The keys list the nonempty groups of a level, each once, known environments first and in order. */
  ghost predicate GroupOrder(nodes: seq<Node>, level: seq<string>, keys: seq<GroupKey>) {
    && Distinct(keys)
    && (forall k :: k in keys <==> Members(nodes, level, k) != [])
    && forall i, j :: 0 <= i < j < |keys| ==> Rank(keys[i]) <= Rank(keys[j])
  }

  function StageOf(nodes: seq<Node>, level: seq<string>, k: GroupKey): Stage {
    Stage(StageName(k.env, k.isE2E), Members(nodes, level, k))
  }

  function StagesOfLevel(nodes: seq<Node>, level: seq<string>, keys: seq<GroupKey>): (s: seq<Stage>)
    ensures |s| == |keys|
  {
    seq(|keys|, i requires 0 <= i < |keys| => StageOf(nodes, level, keys[i]))
  }

  /** Where a stage comes from: its level and its group. */
  datatype Tag = Tag(level: nat, key: GroupKey)

  function Tags(plan: seq<seq<GroupKey>>): seq<Tag> {
    if plan == [] then []
    else
      var l := |plan| - 1;
      Tags(plan[..l]) + seq(|plan[l]|, i requires 0 <= i < |plan[l]| => Tag(l, plan[l][i]))
  }

  function StagesOfPlan(nodes: seq<Node>, levels: seq<seq<string>>, plan: seq<seq<GroupKey>>): seq<Stage>
    requires |plan| <= |levels|
  {
    if plan == [] then []
    else
      var l := |plan| - 1;
      StagesOfPlan(nodes, levels, plan[..l]) + StagesOfLevel(nodes, levels[l], plan[l])
  }

  ghost predicate PlanFor(nodes: seq<Node>, levels: seq<seq<string>>, plan: seq<seq<GroupKey>>) {
    |plan| == |levels| && forall l :: 0 <= l < |plan| ==> GroupOrder(nodes, levels[l], plan[l])
  }

  /** The stages that some admissible order of the groups gives, with their final names. */
  ghost predicate Staged(nodes: seq<Node>, edges: seq<Edge>, plan: seq<seq<GroupKey>>, stages: seq<Stage>) {
    var levels := Levels(Names(nodes), edges);
    PlanFor(nodes, levels, plan)
    && var bases := StagesOfPlan(nodes, levels, plan);
       |stages| == |bases|
       && forall i :: 0 <= i < |stages| ==> stages[i] == Stage(FinalName(BaseNames(bases), i), bases[i].nodes)
  }

  // ---------- the algorithm ----------

  method IndexNodes(nodes: seq<Node>) returns (byName: map<string, Node>)
    ensures forall n :: Lookup(nodes, n) == if n in byName then Some(byName[n]) else None
  {
    byName := map[];
    for i := 0 to |nodes|
      invariant forall n :: Lookup(nodes[..i], n) == if n in byName then Some(byName[n]) else None
    {
      assert nodes[..i + 1][..i] == nodes[..i];
      byName := byName[nodes[i].name := nodes[i]];
    }
    assert nodes[..|nodes|] == nodes;
  }

  ghost predicate Grouped(nodes: seq<Node>, level: seq<string>, groups: map<GroupKey, seq<string>>) {
    forall k :: Members(nodes, level, k) == if k in groups then groups[k] else []
  }

  lemma MembersNext(nodes: seq<Node>, level: seq<string>, i: nat, k: GroupKey)
    requires i < |level|
    ensures Members(nodes, level[..i + 1], k)
         == if InGroup(nodes, level[i], k) then Members(nodes, level[..i], k) + [level[i]]
            else Members(nodes, level[..i], k)
  {
    assert level[..i + 1][..i] == level[..i];
  }

  method GroupLevel(nodes: seq<Node>, byName: map<string, Node>, level: seq<string>)
    returns (groups: map<GroupKey, seq<string>>)
    requires forall n :: Lookup(nodes, n) == if n in byName then Some(byName[n]) else None
    ensures Grouped(nodes, level, groups) && forall k :: k in groups ==> groups[k] != []
  {
    groups := map[];
    assert level[..0] == [];
    for i := 0 to |level|
      invariant Grouped(nodes, level[..i], groups) && forall k :: k in groups ==> groups[k] != []
    {
      hide Members, Lookup;
      var name := level[i];
      assert Lookup(nodes, name).Some? <==> name in byName;
      forall k {
        MembersNext(nodes, level, i, k);
      }
      if name in byName {
        var k := KeyOf(byName[name]);
        groups := groups[k := (if k in groups then groups[k] else []) + [name]];
      }
    }
    assert level[..|level|] == level;
  }

  /**
   * Halfway through a level: what is emitted and what is left partition the groups,
   * and nothing left ranks below what is emitted.
   */
  ghost predicate Emitted(nodes: seq<Node>, level: seq<string>, groups: map<GroupKey, seq<string>>,
                          stages: seq<Stage>, keys: seq<GroupKey>, last: int) {
    && stages == StagesOfLevel(nodes, level, keys)
    && Distinct(keys)
    && (forall k :: Members(nodes, level, k) != [] <==> k in groups || k in keys)
    && (forall k :: k in groups ==> k !in keys && groups[k] == Members(nodes, level, k))
    && (forall i, j :: 0 <= i < j < |keys| ==> Rank(keys[i]) <= Rank(keys[j]))
    && (forall k :: k in keys ==> Rank(k) <= last)
  }

  /** Appends one group as a stage and removes it from the map. */
  method EmitGroup(nodes: seq<Node>, level: seq<string>, groups0: map<GroupKey, seq<string>>,
                   stages0: seq<Stage>, ghost keys0: seq<GroupKey>, k: GroupKey)
    returns (groups: map<GroupKey, seq<string>>, stages: seq<Stage>, ghost keys: seq<GroupKey>)
    requires k in groups0 && Emitted(nodes, level, groups0, stages0, keys0, Rank(k))
    ensures groups == groups0 - {k} && Emitted(nodes, level, groups, stages, keys, Rank(k))
  {
    stages := stages0 + [Stage(StageName(k.env, k.isE2E), groups0[k])];
    keys := keys0 + [k];
    groups := groups0 - {k};
    assert forall x :: x in keys <==> x in keys0 || x == k;
  }

  lemma KnownRank(e: nat, b: nat)
    requires e < 3 && b < 2
    ensures forall k :: Rank(k) == 2 * e + b <==> k == GroupKey(ENV_ORDER[e], b == 1)
  {
  }

  ghost predicate NoneBelow(groups: map<GroupKey, seq<string>>, r: nat) {
    forall k :: k in groups ==> Rank(k) >= r
  }

  /** The step of the fixed-order loop for one environment and kind. */
  method EmitKnown(nodes: seq<Node>, level: seq<string>, groups0: map<GroupKey, seq<string>>,
                   stages0: seq<Stage>, ghost keys0: seq<GroupKey>, e: nat, b: nat)
    returns (groups: map<GroupKey, seq<string>>, stages: seq<Stage>, ghost keys: seq<GroupKey>)
    requires e < 3 && b < 2
    requires Emitted(nodes, level, groups0, stages0, keys0, 2 * e + b - 1) && NoneBelow(groups0, 2 * e + b)
    ensures Emitted(nodes, level, groups, stages, keys, 2 * e + b) && NoneBelow(groups, 2 * e + b + 1)
  {
    groups, stages, keys := groups0, stages0, keys0;
    var k := GroupKey(ENV_ORDER[e], b == 1);
    KnownRank(e, b);
    if k in groups {
      groups, stages, keys := EmitGroup(nodes, level, groups, stages, keys, k);
    }
  }

  /** The loop over whatever groups the fixed order did not cover, in arbitrary order. */
  method EmitRest(nodes: seq<Node>, level: seq<string>, groups0: map<GroupKey, seq<string>>,
                  stages0: seq<Stage>, ghost keys0: seq<GroupKey>)
    returns (stages: seq<Stage>, ghost keys: seq<GroupKey>)
    requires Emitted(nodes, level, groups0, stages0, keys0, 6) && NoneBelow(groups0, 6)
    ensures GroupOrder(nodes, level, keys) && stages == StagesOfLevel(nodes, level, keys)
  {
    var groups := groups0;
    stages, keys := stages0, keys0;
    while groups != map[]
      invariant Emitted(nodes, level, groups, stages, keys, 6) && NoneBelow(groups, 6)
      decreases |groups|
    {
      hide Emitted;
      HasKey(groups);
      var k :| k in groups;
      assert Rank(k) == 6;
      Smaller(groups, k);
      groups, stages, keys := EmitGroup(nodes, level, groups, stages, keys, k);
    }
    AllEmitted(nodes, level, stages, keys);
  }

  lemma HasKey<K, V>(m: map<K, V>)
    requires m != map[]
    ensures exists k :: k in m
  {
    assert (forall k :: k !in m) ==> m == map[];
  }

  lemma Smaller<K, V>(m: map<K, V>, k: K)
    requires k in m
    ensures |m - {k}| < |m|
  {
    assert (m - {k}).Keys == m.Keys - {k};
    assert |m - {k}| == |(m - {k}).Keys| && |m| == |m.Keys|;
  }

  lemma AllEmitted(nodes: seq<Node>, level: seq<string>, stages: seq<Stage>, keys: seq<GroupKey>)
    requires Emitted(nodes, level, map[], stages, keys, 6)
    ensures GroupOrder(nodes, level, keys) && stages == StagesOfLevel(nodes, level, keys)
  {
  }

  /** Emits one level: the known groups in fixed order, then the rest. */
  method EmitLevel(nodes: seq<Node>, level: seq<string>, groups0: map<GroupKey, seq<string>>)
    returns (stages: seq<Stage>)
    requires Grouped(nodes, level, groups0) && forall k :: k in groups0 ==> groups0[k] != []
    ensures exists keys :: GroupOrder(nodes, level, keys) && stages == StagesOfLevel(nodes, level, keys)
  {
    var groups := groups0;
    ghost var keys: seq<GroupKey> := [];
    stages := [];
    for e := 0 to 3
      invariant Emitted(nodes, level, groups, stages, keys, 2 * e - 1) && NoneBelow(groups, 2 * e)
    {
      for b := 0 to 2
        invariant Emitted(nodes, level, groups, stages, keys, 2 * e + b - 1) && NoneBelow(groups, 2 * e + b)
      {
        groups, stages, keys := EmitKnown(nodes, level, groups, stages, keys, e, b);
      }
    }
    stages, keys := EmitRest(nodes, level, groups, stages, keys);
  }

  lemma PlanNext(nodes: seq<Node>, levels: seq<seq<string>>, plan: seq<seq<GroupKey>>, keys: seq<GroupKey>)
    requires |plan| < |levels|
    ensures StagesOfPlan(nodes, levels, plan + [keys])
         == StagesOfPlan(nodes, levels, plan) + StagesOfLevel(nodes, levels[|plan|], keys)
  {
    assert (plan + [keys])[..|plan|] == plan;
  }

  /** The stages of all levels, under their first names. */
  method EmitLevels(nodes: seq<Node>, levels: seq<seq<string>>) returns (bases: seq<Stage>)
    ensures exists plan :: PlanFor(nodes, levels, plan) && bases == StagesOfPlan(nodes, levels, plan)
  {
    hide GroupOrder, StagesOfLevel, Members, Lookup;
    var byName := IndexNodes(nodes);
    bases := [];
    ghost var plan: seq<seq<GroupKey>> := [];
    for l := 0 to |levels|
      invariant |plan| == l && bases == StagesOfPlan(nodes, levels, plan)
      invariant forall m :: 0 <= m < l ==> GroupOrder(nodes, levels[m], plan[m])
    {
      hide StagesOfPlan;
      var groups := GroupLevel(nodes, byName, levels[l]);
      var emitted := EmitLevel(nodes, levels[l], groups);
      ghost var keys :| GroupOrder(nodes, levels[l], keys) && emitted == StagesOfLevel(nodes, levels[l], keys);
      PlanNext(nodes, levels, plan, keys);
      bases := bases + emitted;
      plan := plan + [keys];
    }
    assert PlanFor(nodes, levels, plan);
  }

  method BuildStages(nodes: seq<Node>, edges: seq<Edge>)
    returns (stages: seq<Stage>)
    ensures exists plan :: Staged(nodes, edges, plan, stages)
  {
    var levels := BuildLevels(nodes, edges);
    var bases := EmitLevels(nodes, levels);
    ghost var plan :| PlanFor(nodes, levels, plan) && bases == StagesOfPlan(nodes, levels, plan);
    hide PlanFor, StagesOfPlan, Levels, FinalName, BaseNames;
    var a := new Stage[|bases|](i requires 0 <= i < |bases| => bases[i]);
    assert a[..] == bases;
    Disambiguate(a);
    stages := a[..];
    assert Staged(nodes, edges, plan, stages);
  }
}
