/** Human-readable stage names, and telling apart the stages that would share one. */
module StageNames {
  import opened PipelineModel
  import opened Sequences
  import Text

  function StageName(env: string, isE2E: bool): string {
    if isE2E then
      if env == "integration" then "Int E2E"
      else if env == "stage" then "Stage E2E"
      else if env == "production" then "Prod E2E"
      else env + " E2E"
    else
      if env == "integration" then "Integration"
      else if env == "stage" then "Stage"
      else if env == "production" then "Production"
      else env
  }

  /** The w-th stage of a repeated name. */
  function WaveName(base: string, w: nat): string {
    base + " (Wave " + Text.Decimal(w) + ")"
  }

  function BaseNames(stages: seq<Stage>): (bases: seq<string>)
    ensures |bases| == |stages| && forall i :: 0 <= i < |stages| ==> bases[i] == stages[i].name
  {
    seq(|stages|, i requires 0 <= i < |stages| => stages[i].name)
  }

  /** How many of the first i + 1 stages carry the name of stage i. */
  function Occurrence(bases: seq<string>, i: nat): nat
    requires i < |bases|
  {
    Count(bases[..i + 1], bases[i])
  }

  function FinalName(bases: seq<string>, i: nat): string
    requires i < |bases|
  {
    if Count(bases, bases[i]) > 1 then WaveName(bases[i], Occurrence(bases, i)) else bases[i]
  }

  /** A name used once reads exactly like a numbered name of one used k > 1 times. */
  ghost predicate NameClash(bases: seq<string>) {
    exists b, w: nat :: 1 <= w <= Count(bases, b) && Count(bases, b) > 1 && Count(bases, WaveName(b, w)) == 1
  }

  // ---------- the algorithm ----------

  method CountNames(stages: seq<Stage>) returns (counts: map<string, nat>)
    ensures forall i :: 0 <= i < |stages| ==>
              stages[i].name in counts && counts[stages[i].name] == Count(BaseNames(stages), stages[i].name)
  {
    var bases := BaseNames(stages);
    counts := map[];
    for i := 0 to |stages|
      invariant forall n :: (if n in counts then counts[n] else 0) == Count(bases[..i], n)
    {
      assert bases[..i + 1][..i] == bases[..i];
      var n := stages[i].name;
      counts := counts[n := (if n in counts then counts[n] else 0) + 1];
    }
    assert bases[..|bases|] == bases;
    forall i | 0 <= i < |stages| ensures stages[i].name in counts {
      assert bases[i] in bases;
      CountPositive(bases, bases[i]);
    }
  }

  /** Renames in place: stage i keeps its members, and its name changes only when the name is repeated. */
  method Disambiguate(stages: array<Stage>)
    modifies stages
    ensures forall i :: 0 <= i < stages.Length ==>
              stages[i] == Stage(FinalName(BaseNames(old(stages[..])), i), old(stages[i]).nodes)
  {
    ghost var was := stages[..];
    ghost var bases := BaseNames(was);
    var counts := CountNames(stages[..]);
    var index: map<string, nat> := map[];
    for i := 0 to stages.Length
      invariant forall j :: 0 <= j < i ==> stages[j] == Stage(FinalName(bases, j), was[j].nodes)
      invariant forall j :: i <= j < stages.Length ==> stages[j] == was[j]
      invariant forall n :: Count(bases, n) > 1 ==> (if n in index then index[n] else 0) == Count(bases[..i], n)
    {
      assert bases[..i + 1][..i] == bases[..i];
      var s := stages[i];
      assert s == was[i];
      if counts[s.name] > 1 {
        index := index[s.name := (if s.name in index then index[s.name] else 0) + 1];
        stages[i] := s.(name := WaveName(s.name, index[s.name]));
      }
    }
  }

  // ---------- the final names ----------

  lemma WaveNameInjective(b: string, v: nat, c: string, w: nat)
    requires WaveName(b, v) == WaveName(c, w)
    ensures b == c && v == w
  {
    var vd, wd := Text.Decimal(v) + ")", Text.Decimal(w) + ")";
    assert WaveName(b, v) == (b + " (Wave") + [' '] + vd;
    assert WaveName(c, w) == (c + " (Wave") + [' '] + wd;
    Text.SplitAtLast(b + " (Wave", vd, c + " (Wave", wd, ' ');
    assert Text.Decimal(v) == vd[..|vd| - 1] && Text.Decimal(w) == wd[..|wd| - 1];
    Text.DecimalInjective(v, w);
    assert b == (b + " (Wave")[..|b|] && c == (c + " (Wave")[..|c|];
  }

  /** Numbers of one repeated name grow along the stage list. */
  lemma OccurrenceGrows(bases: seq<string>, i: nat, j: nat)
    requires i < j < |bases| && bases[i] == bases[j]
    ensures 1 <= Occurrence(bases, i) < Occurrence(bases, j) <= Count(bases, bases[j])
  {
    hide Count;
    CountNext(bases, i, bases[j]);
    CountNext(bases, j, bases[j]);
    CountMonotone(bases, i + 1, j, bases[j]);
    CountMonotone(bases, j + 1, |bases|, bases[j]);
    assert bases[..|bases|] == bases;
  }

  /** A name used k times receives each number from 1 to k. */
  lemma {:induction false} EveryNumberUsed(bases: seq<string>, b: string, w: nat) returns (i: nat)
    requires 1 <= w <= Count(bases, b)
    ensures i < |bases| && bases[i] == b && Occurrence(bases, i) == w
  {
    var init, k := bases[..|bases| - 1], |bases| - 1;
    if w <= Count(init, b) {
      i := EveryNumberUsed(init, b, w);
      assert init[..i + 1] == bases[..i + 1];
    } else {
      i := k;
      assert bases[..k + 1] == bases;
    }
  }

  /**
   * A name used k > 1 times is replaced by its waves 1 to k, each once and in stage order;
   * a name used once stays.
   */
  lemma RepeatedNamesAreNumbered(bases: seq<string>, b: string)
    ensures Count(bases, b) > 1 ==>
              forall w: nat :: 1 <= w <= Count(bases, b) ==> NumberedAt(bases, b, w)
    ensures Count(bases, b) > 1 ==> forall i, j :: 0 <= i < j < |bases| && bases[i] == b && bases[j] == b ==>
              Occurrence(bases, i) < Occurrence(bases, j)
    ensures Count(bases, b) == 1 ==> forall i :: 0 <= i < |bases| && bases[i] == b ==> FinalName(bases, i) == b
  {
    forall w: nat | Count(bases, b) > 1 && 1 <= w <= Count(bases, b) ensures NumberedAt(bases, b, w) {
      var i := EveryNumberUsed(bases, b, w);
    }
    forall i, j | 0 <= i < j < |bases| && bases[i] == b && bases[j] == b
      ensures Occurrence(bases, i) < Occurrence(bases, j)
    {
      OccurrenceGrows(bases, i, j);
    }
  }

  ghost predicate NumberedAt(bases: seq<string>, b: string, w: nat) {
    exists i :: 0 <= i < |bases| && bases[i] == b && FinalName(bases, i) == WaveName(b, w)
  }

  lemma OccurrenceInRange(bases: seq<string>, i: nat)
    requires i < |bases|
    ensures 1 <= Occurrence(bases, i) <= Count(bases, bases[i])
  {
    CountPositive(bases[..i + 1], bases[i]);
    assert bases[..i + 1][i] == bases[i];
    CountMonotone(bases, i + 1, |bases|, bases[i]);
    assert bases[..|bases|] == bases;
  }

  lemma ClashWith(bases: seq<string>, b: string, w: nat)
    requires 1 <= w <= Count(bases, b) && Count(bases, b) > 1 && Count(bases, WaveName(b, w)) == 1
    ensures NameClash(bases)
  {
  }

  /** Two stages end up with one name only when a single-use name reads like a numbered one. */
  lemma SameFinalName(bases: seq<string>, i: nat, j: nat)
    requires i < j < |bases| && FinalName(bases, i) == FinalName(bases, j)
    ensures Count(bases, bases[i]) == 1 <==> Count(bases, bases[j]) > 1
    ensures NameClash(bases)
  {
    hide Count, WaveName, NameClash;
    OccurrenceInRange(bases, i);
    OccurrenceInRange(bases, j);
    var b, c, v, w := bases[i], bases[j], Occurrence(bases, i), Occurrence(bases, j);
    if b == c {
      OccurrenceGrows(bases, i, j);
    }
    if Count(bases, b) > 1 && Count(bases, c) > 1 {
      WaveNameInjective(b, v, c, w);
      assert false;
    } else if Count(bases, b) > 1 {
      ClashWith(bases, b, v);
    } else if Count(bases, c) > 1 {
      ClashWith(bases, c, w);
    }
  }

  /** The final names are pairwise distinct exactly when no single-use name reads like a numbered one. */
  lemma NamesDistinctIff(bases: seq<string>)
    ensures (forall i, j :: 0 <= i < j < |bases| ==> FinalName(bases, i) != FinalName(bases, j))
            <==> !NameClash(bases)
  {
    if NameClash(bases) {
      var b, w: nat :| 1 <= w <= Count(bases, b) && Count(bases, b) > 1 && Count(bases, WaveName(b, w)) == 1;
      var j := EveryNumberUsed(bases, b, w);
      CountPositive(bases, WaveName(b, w));
      var i :| 0 <= i < |bases| && bases[i] == WaveName(b, w);
      assert FinalName(bases, i) == FinalName(bases, j);
      assert i < j || j < i;
    } else {
      forall i, j | 0 <= i < j < |bases| ensures FinalName(bases, i) != FinalName(bases, j) {
        if FinalName(bases, i) == FinalName(bases, j) {
          SameFinalName(bases, i, j);
        }
      }
    }
  }

  /** No clash is possible unless some environment is itself called "... (Wave N)". */
  lemma NoClashWithoutClosingParenthesis(envs: seq<string>, e2e: seq<bool>)
    requires |envs| == |e2e|
    requires forall i :: 0 <= i < |envs| ==> envs[i] == [] || envs[i][|envs[i]| - 1] != ')'
    ensures !NameClash(seq(|envs|, i requires 0 <= i < |envs| => StageName(envs[i], e2e[i])))
  {
    var bases := seq(|envs|, i requires 0 <= i < |envs| => StageName(envs[i], e2e[i]));
    forall b, w: nat ensures Count(bases, WaveName(b, w)) == 0 {
      var name := WaveName(b, w);
      assert name[|name| - 1] == ')';
      CountPositive(bases, name);
      assert forall i :: 0 <= i < |bases| ==> bases[i] == [] || bases[i][|bases[i]| - 1] != ')';
    }
  }

  /** The texts of the stage names. */
  lemma StageTexts(env: string)
    ensures StageName("integration", false) == "Integration" && StageName("integration", true) == "Int E2E"
    ensures StageName("stage", false) == "Stage" && StageName("stage", true) == "Stage E2E"
    ensures StageName("production", false) == "Production" && StageName("production", true) == "Prod E2E"
    ensures env != "integration" && env != "stage" && env != "production" ==>
              StageName(env, false) == env && StageName(env, true) == env + " E2E"
    ensures WaveName("Stage", 12) == "Stage (Wave 12)"
  {
    assert |"integration"| == 11 && |"stage"| == 5 && |"production"| == 10;
    assert Text.Decimal(1) == "1" && Text.Decimal(12) == "12";
  }

  /** Among the known environments a stage name determines the environment and the kind. */
  lemma KnownNamesDiffer(e: string, b: bool, f: string, c: bool)
    requires e in {"integration", "stage", "production"} && f in {"integration", "stage", "production"}
    requires StageName(e, b) == StageName(f, c)
    ensures e == f && b == c
  {
    assert |StageName(e, b)| == |StageName(f, c)|;
    assert StageName(e, b)[0] == StageName(f, c)[0];
  }
}
