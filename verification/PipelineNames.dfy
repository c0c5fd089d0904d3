/** The names that the stages of a whole pipeline end up with. */
module PipelineNames {
  import opened PipelineModel
  import opened PipelineLevels
  import opened PipelineStages
  import opened PipelineTheorems
  import opened Sequences
  import opened StageNames

  /** The names of the stages before repeated ones are numbered. */
  function FirstNames(nodes: seq<Node>, edges: seq<Edge>, plan: seq<seq<GroupKey>>): seq<string>
    requires |plan| <= |Levels(Names(nodes), edges)|
  {
    BaseNames(StagesOfPlan(nodes, Levels(Names(nodes), edges), plan))
  }

  ghost predicate NamesDiffer(stages: seq<Stage>) {
    forall i, j :: 0 <= i < j < |stages| ==> stages[i].name != stages[j].name
  }

  // ---------- the first names, counted from nodes and edges alone ----------

  /** The groups that have a member on the level. */
  function Groups(nodes: seq<Node>, level: seq<string>): set<GroupKey> {
    set x | x in level && Lookup(nodes, x).Some? :: KeyOf(Lookup(nodes, x).value)
  }

  /** Those whose stages start out with the given name. */
  function NamedGroups(nodes: seq<Node>, level: seq<string>, b: string): set<GroupKey> {
    set k | k in Groups(nodes, level) && StageName(k.env, k.isE2E) == b
  }

  /** How many pairs of a level and one of its groups give the first name b. */
  function StagesNamed(nodes: seq<Node>, levels: seq<seq<string>>, b: string): nat {
    if levels == [] then 0
    else StagesNamed(nodes, levels[..|levels| - 1], b) + |NamedGroups(nodes, levels[|levels| - 1], b)|
  }

  /** A name that one group of one level gives is spelled like a number of one that k > 1 of them give. */
  ghost predicate StageNameClash(nodes: seq<Node>, edges: seq<Edge>) {
    var levels := Levels(Names(nodes), edges);
    exists b, w: nat :: 1 <= w <= StagesNamed(nodes, levels, b) && StagesNamed(nodes, levels, b) > 1
                        && StagesNamed(nodes, levels, WaveName(b, w)) == 1
  }

  /** Counting the values of a function over distinct arguments. */
  lemma {:induction false} CountValues<K, V>(keys: seq<K>, f: K -> V, values: seq<V>, b: V)
    returns (matching: set<K>)
    requires Distinct(keys) && |values| == |keys| && forall i :: 0 <= i < |keys| ==> values[i] == f(keys[i])
    ensures forall k :: k in matching <==> k in keys && f(k) == b
    ensures Count(values, b) == |matching|
  {
    if keys == [] {
      matching := {};
    } else {
      var n := |keys| - 1;
      var init, last := keys[..n], keys[n];
      matching := CountValues(init, f, values[..n], b);
      assert keys == init + [last] && last !in init;
      if f(last) == b {
        matching := matching + {last};
      }
    }
  }

  /** The groups of a level are the keys of its plan, whatever their order. */
  lemma PlannedGroups(nodes: seq<Node>, level: seq<string>, keys: seq<GroupKey>, k: GroupKey)
    requires GroupOrder(nodes, level, keys)
    ensures k in keys <==> k in Groups(nodes, level)
  {
    assert k in keys <==> Members(nodes, level, k) != [];
    hide GroupOrder, Members, Lookup;
    forall x ensures x in Members(nodes, level, k) <==> x in level && InGroup(nodes, x, k) {
      MembersMember(nodes, level, k, x);
    }
    if k in keys {
      assert Members(nodes, level, k)[0] in Members(nodes, level, k);
    }
  }

  lemma CountLevel(nodes: seq<Node>, level: seq<string>, keys: seq<GroupKey>, b: string)
    requires GroupOrder(nodes, level, keys)
    ensures Count(BaseNames(StagesOfLevel(nodes, level, keys)), b) == |NamedGroups(nodes, level, b)|
  {
    var f := (k: GroupKey) => StageName(k.env, k.isE2E);
    var names := BaseNames(StagesOfLevel(nodes, level, keys));
    assert Distinct(keys);
    hide GroupOrder, StageName, Groups, Count;
    var matching := CountValues(keys, f, names, b);
    forall k ensures k in keys <==> k in Groups(nodes, level) {
      PlannedGroups(nodes, level, keys, k);
    }
    assert matching == NamedGroups(nodes, level, b);
  }

  lemma BaseNamesAppend(s: seq<Stage>, t: seq<Stage>)
    ensures BaseNames(s + t) == BaseNames(s) + BaseNames(t)
  {
  }

  lemma {:induction false} CountPlanned(nodes: seq<Node>, levels: seq<seq<string>>, plan: seq<seq<GroupKey>>, b: string)
    requires |plan| <= |levels| && forall l :: 0 <= l < |plan| ==> GroupOrder(nodes, levels[l], plan[l])
    ensures Count(BaseNames(StagesOfPlan(nodes, levels, plan)), b) == StagesNamed(nodes, levels[..|plan|], b)
  {
    if plan != [] {
      hide GroupOrder, StagesOfLevel, NamedGroups, Count, BaseNames;
      var l := |plan| - 1;
      var before, here := StagesOfPlan(nodes, levels, plan[..l]), StagesOfLevel(nodes, levels[l], plan[l]);
      CountPlanned(nodes, levels, plan[..l], b);
      CountLevel(nodes, levels[l], plan[l], b);
      BaseNamesAppend(before, here);
      CountAppend(BaseNames(before), BaseNames(here), b);
      assert levels[..l + 1][..l] == levels[..l];
    }
  }

  /** First names are counted the same for every order of the groups. */
  lemma CountFirstNames(nodes: seq<Node>, edges: seq<Edge>, plan: seq<seq<GroupKey>>, stages: seq<Stage>, b: string)
    requires Staged(nodes, edges, plan, stages)
    ensures |plan| == |Levels(Names(nodes), edges)|
    ensures Count(FirstNames(nodes, edges, plan), b) == StagesNamed(nodes, Levels(Names(nodes), edges), b)
  {
    var levels := Levels(Names(nodes), edges);
    hide Levels, GroupOrder, StagesNamed, Count, BaseNames, StagesOfPlan, FinalName;
    CountPlanned(nodes, levels, plan, b);
    assert levels[..|plan|] == levels;
  }

  /**
   * The stage names are pairwise distinct exactly when no name that one group of one level gives is spelled like
   * a number of a repeated one. The order in which the groups of a level come has no say in it.
   */
  lemma StageNamesDistinctIff(nodes: seq<Node>, edges: seq<Edge>, plan: seq<seq<GroupKey>>, stages: seq<Stage>)
    requires Staged(nodes, edges, plan, stages)
    ensures NamesDiffer(stages) <==> !StageNameClash(nodes, edges)
  {
    FirstNamesDistinctIff(nodes, edges, plan, stages);
    var bases := FirstNames(nodes, edges, plan);
    hide Staged, Levels, StagesNamed, Count, FirstNames, WaveName, NamesDiffer;
    forall b ensures Count(bases, b) == StagesNamed(nodes, Levels(Names(nodes), edges), b) {
      CountFirstNames(nodes, edges, plan, stages, b);
    }
  }

  /** Whether names are distinct does not depend on the order in which a map hands out the groups of a level. */
  lemma OrderDoesNotMatter(nodes: seq<Node>, edges: seq<Edge>, plan: seq<seq<GroupKey>>, stages: seq<Stage>,
                           otherPlan: seq<seq<GroupKey>>, others: seq<Stage>)
    requires Staged(nodes, edges, plan, stages) && Staged(nodes, edges, otherPlan, others)
    ensures NamesDiffer(stages) <==> NamesDiffer(others)
  {
    hide Staged, StageNameClash, NamesDiffer;
    StageNamesDistinctIff(nodes, edges, plan, stages);
    StageNamesDistinctIff(nodes, edges, otherPlan, others);
  }

  lemma FirstNamesDistinctIff(nodes: seq<Node>, edges: seq<Edge>, plan: seq<seq<GroupKey>>, stages: seq<Stage>)
    requires Staged(nodes, edges, plan, stages)
    ensures |plan| <= |Levels(Names(nodes), edges)|
    ensures NamesDiffer(stages) <==> !NameClash(FirstNames(nodes, edges, plan))
  {
    var bases := FirstNames(nodes, edges, plan);
    assert |stages| == |bases| && forall i :: 0 <= i < |stages| ==> stages[i].name == FinalName(bases, i);
    hide Staged, FinalName, NameClash, FirstNames;
    NamesDistinctIff(bases);
  }

  /** The stage names are pairwise distinct when no environment name ends in a closing parenthesis. */
  lemma StageNamesDistinct(nodes: seq<Node>, edges: seq<Edge>, plan: seq<seq<GroupKey>>, stages: seq<Stage>)
    requires Staged(nodes, edges, plan, stages)
    requires forall n :: n in nodes ==> n.env == [] || n.env[|n.env| - 1] != ')'
    ensures NamesDiffer(stages)
  {
    var levels := Levels(Names(nodes), edges);
    var bases := StagesOfPlan(nodes, levels, plan);
    TagsPerStage(nodes, levels, plan);
    var envs := seq(|bases|, i requires 0 <= i < |bases| => Tags(plan)[i].key.env);
    var e2e := seq(|bases|, i requires 0 <= i < |bases| => Tags(plan)[i].key.isE2E);
    forall i | 0 <= i < |bases|
      ensures bases[i].name == StageName(envs[i], e2e[i]) && (envs[i] == [] || envs[i][|envs[i]| - 1] != ')')
    {
      TagOfStage(nodes, levels, plan, i);
      StageIsOneGroup(nodes, edges, plan, stages, i);
      var x := stages[i].nodes[0];
      assert InGroup(nodes, x, Tags(plan)[i].key);
      LookupIsNode(nodes, x);
    }
    NoClashWithoutClosingParenthesis(envs, e2e);
    assert BaseNames(bases) == seq(|envs|, i requires 0 <= i < |envs| => StageName(envs[i], e2e[i]));
    NamesDistinctIff(BaseNames(bases));
  }

  lemma {:induction false} LookupIsNode(nodes: seq<Node>, x: string)
    requires Lookup(nodes, x).Some?
    ensures Lookup(nodes, x).value in nodes && Lookup(nodes, x).value.name == x
  {
    if nodes[|nodes| - 1].name != x {
      LookupIsNode(nodes[..|nodes| - 1], x);
    }
  }

  // ---------- which stages share a first name ----------

  /** Every stage holds a node from which it has its group and its first name. */
  lemma StageSource(nodes: seq<Node>, edges: seq<Edge>, plan: seq<seq<GroupKey>>, stages: seq<Stage>, i: nat)
    returns (n: Node)
    requires Staged(nodes, edges, plan, stages) && i < |stages|
    ensures |plan| == |Levels(Names(nodes), edges)|
    ensures |Tags(plan)| == |stages| == |FirstNames(nodes, edges, plan)|
    ensures n in nodes && n.name in stages[i].nodes && Lookup(nodes, n.name) == Some(n) && KeyOf(n) == Tags(plan)[i].key
    ensures FirstNames(nodes, edges, plan)[i] == StageName(n.env, n.kind == "e2e")
  {
    TagOfStage(nodes, Levels(Names(nodes), edges), plan, i);
    hide Staged, StageName;
    StageIsOneGroup(nodes, edges, plan, stages, i);
    var x := stages[i].nodes[0];
    assert InGroup(nodes, x, Tags(plan)[i].key);
    n := Lookup(nodes, x).value;
    LookupIsNode(nodes, x);
  }

  const KNOWN_ENVS := {"integration", "stage", "production"}

  /**
   * When all environments are known, stages that share a first name are those of one group, one per level,
   * so that the wave numbers of a name count the levels on which its group occurs, from the first on.
   */
  lemma WavesFollowLevels(nodes: seq<Node>, edges: seq<Edge>, plan: seq<seq<GroupKey>>, stages: seq<Stage>,
                          i: nat, j: nat)
    requires Staged(nodes, edges, plan, stages) && i < j < |stages|
    requires forall n :: n in nodes ==> n.env in KNOWN_ENVS
    ensures |Tags(plan)| == |stages| == |FirstNames(nodes, edges, plan)|
    ensures FirstNames(nodes, edges, plan)[i] == FirstNames(nodes, edges, plan)[j] ==>
              Tags(plan)[i].key == Tags(plan)[j].key && Tags(plan)[i].level < Tags(plan)[j].level
  {
    hide Staged, FirstNames, StageName, Levels, Lookup, InGroup, Names, Tags;
    var m := StageSource(nodes, edges, plan, stages, i);
    var n := StageSource(nodes, edges, plan, stages, j);
    StageIsOneGroup(nodes, edges, plan, stages, i);
    var names := FirstNames(nodes, edges, plan);
    if names[i] == names[j] {
      KnownNamesDiffer(m.env, m.kind == "e2e", n.env, n.kind == "e2e");
    }
  }

  // ---------- a pipeline whose stage names stay ambiguous ----------

  /** Three nodes of three groups, the first two of which share a stage name that the third spells with a number. */
  function Ambiguous(): seq<Node> {
    [Node("a", "e2e", "qa", [], []), Node("b", "", "qa E2E", [], []), Node("c", "", "qa E2E (Wave 1)", [], [])]
  }

  lemma AmbiguousNodes(nodes: seq<Node>)
    requires nodes == Ambiguous()
    ensures Names(nodes) == ["a", "b", "c"] && nodes[0].name == "a" && nodes[1].name == "b" && nodes[2].name == "c"
    ensures Lookup(nodes, "a") == Some(nodes[0])
    ensures Lookup(nodes, "b") == Some(nodes[1])
    ensures Lookup(nodes, "c") == Some(nodes[2])
    ensures KeyOf(nodes[0]) == GroupKey("qa", true) && KeyOf(nodes[1]) == GroupKey("qa E2E", false)
    ensures KeyOf(nodes[2]) == GroupKey("qa E2E (Wave 1)", false)
  {
    assert Lookup(nodes[..2], "b") == Some(nodes[1]) && Lookup(nodes[..2][..1], "a") == Some(nodes[0]);
  }

  lemma AmbiguousNames()
    ensures StageName("qa", true) == "qa E2E" == StageName("qa E2E", false)
    ensures StageName("qa E2E (Wave 1)", false) == "qa E2E (Wave 1)" == WaveName("qa E2E", 1)
    ensures |"qa"| != |"qa E2E"|
  {
    assert Text.Decimal(1) == "1";
  }

  /** However the three are ordered, two of their stages end up with the same name. */
  lemma StageNamesCanClash(edges: seq<Edge>, plan: seq<seq<GroupKey>>, stages: seq<Stage>)
    requires Staged(Ambiguous(), edges, plan, stages)
    ensures !NamesDiffer(stages)
  {
    var nodes := Ambiguous();
    var bases := FirstNames(nodes, edges, plan);
    hide Staged, FirstNames, NamesDiffer, NameClash, Lookup, Count, Levels, Tags, StageName, WaveName, Ambiguous, KeyOf;
    AmbiguousNodes(nodes);
    AmbiguousNames();
    var a := StageFor(nodes, edges, plan, stages, nodes[0]);
    var b := StageFor(nodes, edges, plan, stages, nodes[1]);
    var c := StageFor(nodes, edges, plan, stages, nodes[2]);
    forall d: nat | d < |bases| && bases[d] == bases[c] ensures d == c {
      OnlyThird(nodes, edges, plan, stages, c, d);
    }
    ThreeClash(bases, "qa E2E", a, b, c);
    FirstNamesDistinctIff(nodes, edges, plan, stages);
  }

  lemma ThreeClash(bases: seq<string>, name: string, a: nat, b: nat, c: nat)
    requires a < |bases| && b < |bases| && a != b && bases[a] == name && bases[b] == name
    requires c < |bases| && bases[c] == WaveName(name, 1)
    requires forall d: nat :: d < |bases| && bases[d] == bases[c] ==> d == c
    ensures NameClash(bases)
  {
    hide WaveName;
    OccurrenceGrows(bases, if a < b then a else b, if a < b then b else a);
    CountedOnce(bases, c);
    ClashWith(bases, name, 1);
  }

  lemma StageFor(nodes: seq<Node>, edges: seq<Edge>, plan: seq<seq<GroupKey>>, stages: seq<Stage>, n: Node)
    returns (i: nat)
    requires Staged(nodes, edges, plan, stages) && n.name in Names(nodes) && Lookup(nodes, n.name) == Some(n)
    ensures i < |stages| == |FirstNames(nodes, edges, plan)| && n.name in stages[i].nodes
    ensures |Tags(plan)| == |stages| && Tags(plan)[i].key == KeyOf(n)
    ensures FirstNames(nodes, edges, plan)[i] == StageName(KeyOf(n).env, KeyOf(n).isE2E)
  {
    i := StageExists(nodes, edges, plan, stages, n.name);
    var m := StageSource(nodes, edges, plan, stages, i);
    hide Staged, FirstNames, Levels, Lookup;
    StageIsOneGroup(nodes, edges, plan, stages, i);
  }

  lemma OnlyThird(nodes: seq<Node>, edges: seq<Edge>, plan: seq<seq<GroupKey>>, stages: seq<Stage>, c: nat, d: nat)
    requires nodes == Ambiguous() && Staged(nodes, edges, plan, stages) && c < |stages| && d < |stages|
    requires "c" in stages[c].nodes
    requires |FirstNames(nodes, edges, plan)| == |stages| && FirstNames(nodes, edges, plan)[d] == "qa E2E (Wave 1)"
    ensures d == c
  {
    hide Staged, FirstNames, Lookup;
    var n := StageSource(nodes, edges, plan, stages, d);
    assert n == nodes[2];
    MemberOnLevel(nodes, edges, plan, stages, c, "c");
    MemberOnLevel(nodes, edges, plan, stages, d, "c");
    LevelUnique(Names(nodes), edges, Tags(plan)[c].level, Tags(plan)[d].level, "c");
    StageIsOneGroup(nodes, edges, plan, stages, c);
    StageIsOneGroup(nodes, edges, plan, stages, d);
    assert InGroup(nodes, "c", Tags(plan)[c].key);
  }

  lemma CountedOnce(bases: seq<string>, c: nat)
    requires c < |bases| && forall d: nat :: d < |bases| && bases[d] == bases[c] ==> d == c
    ensures Count(bases, bases[c]) == 1
  {
    CountPositive(bases, bases[c]);
    if Count(bases, bases[c]) > 1 {
      var x := EveryNumberUsed(bases, bases[c], 1);
      var y := EveryNumberUsed(bases, bases[c], 2);
      assert false;
    }
  }
}
