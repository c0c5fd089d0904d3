/** The memory-leak detector that looks for growth followed by a sharp drop, again and again. */
module Sawtooth {
  import opened Reals

  // ---------- specification ----------

  /** A fall of more than 40% between consecutive values. */
  predicate IsDrop(prev: real, val: real) {
    prev > 0.0 && (prev - val) / prev > 0.4
  }

  predicate IsGrowth(prev: real, val: real) {
    val > prev * 1.02
  }

  predicate DropAt(values: seq<real>, i: nat) {
    0 < i < |values| && IsDrop(values[i - 1], values[i])
  }

  predicate GrowthAt(values: seq<real>, i: nat) {
    0 < i < |values| && IsGrowth(values[i - 1], values[i])
  }

  /** Indices g1 < d1 < g2 < d2 < ... with a growth step at each g and a drop at each d; it may end on a g. */
  ghost predicate Alternates(values: seq<real>, c: seq<nat>) {
    && (forall i :: 0 <= i < |c| - 1 ==> c[i] < c[i + 1])
    && (forall i :: 0 <= i < |c| ==> if i % 2 == 0 then GrowthAt(values, c[i]) else DropAt(values, c[i]))
  }

  datatype Tally = Tally(drops: nat, segments: nat, growing: bool)

  /** The effect of one point on the counters. */
  function Step(t: Tally, prev: real, val: real): Tally {
    if IsDrop(prev, val) then Tally(t.drops + 1, t.segments + (if t.growing then 1 else 0), false)
    else if IsGrowth(prev, val) then t.(growing := true)
    else t
  }

  function Scan(values: seq<real>): Tally {
    if |values| <= 1 then Tally(0, 0, false)
    else Step(Scan(values[..|values| - 1]), values[|values| - 2], values[|values| - 1])
  }

  function Verdict(t: Tally): bool {
    t.drops >= 3 && t.segments >= 3
  }

  // ---------- the algorithm ----------

  /** None when the series is too short to be judged; otherwise whether it is a sawtooth. */
  method Detect(values: seq<real>) returns (judged: bool, sawtooth: bool, sharpDrops: nat)
    ensures judged <==> |values| >= 8
    ensures judged ==> sharpDrops == |set i | 0 < i < |values| && DropAt(values, i)|
    ensures sawtooth <==> judged && exists c :: Alternates(values, c) && |c| == 6
  {
    sharpDrops := 0;
    if |values| < 8 {
      return false, false, 0;
    }
    var growthSegments := 0;
    var prevVal := values[0];
    var growing := false;
    for i := 1 to |values|
      invariant prevVal == values[i - 1]
      invariant Tally(sharpDrops, growthSegments, growing) == Scan(values[..i])
    {
      var val := values[i];
      assert values[..i + 1][..i] == values[..i];
      if prevVal > 0.0 && (prevVal - val) / prevVal > 0.4 {
        sharpDrops := sharpDrops + 1;
        if growing {
          growthSegments := growthSegments + 1;
        }
        growing := false;
      } else if val > prevVal * 1.02 {
        growing := true;
      }
      prevVal := val;
    }
    assert values[..|values|] == values;
    judged, sawtooth := true, sharpDrops >= 3 && growthSegments >= 3;
    VerdictMeansThreeCycles(values);
    DropsAreCounted(values);
  }

  // ---------- the greedy scan is optimal ----------

  function Length(t: Tally): nat {
    2 * t.segments + if t.growing then 1 else 0
  }

  /** A drop in terms of products instead of quotients. */
  lemma DropIsBelow(prev: real, val: real)
    ensures IsDrop(prev, val) <==> prev > 0.0 && prev - val > 0.4 * prev
  {
    if prev > 0.0 {
      QuotientAbove(prev - val, prev, 0.4);
    }
  }

  /** A drop falls below three fifths of a positive value, and growth exceeds 51 fiftieths. */
  lemma Thresholds(values: seq<real>, i: nat)
    requires 0 < i < |values|
    ensures DropAt(values, i) <==> values[i - 1] > 0.0 && 5.0 * values[i] < 3.0 * values[i - 1]
    ensures GrowthAt(values, i) <==> 50.0 * values[i] > 51.0 * values[i - 1]
  {
    DropIsBelow(values[i - 1], values[i]);
    hide IsDrop;
  }

  lemma DropIsNoGrowth(prev: real, val: real)
    requires IsDrop(prev, val)
    ensures !IsGrowth(prev, val)
  {
    DropIsBelow(prev, val);
  }

  /** The indices of the sharp drops. */
  function Drops(values: seq<real>): set<int> {
    set i | 0 < i < |values| && DropAt(values, i)
  }

  lemma DropsNext(values: seq<real>)
    requires |values| > 1
    ensures var n := |values| - 1;
            |Drops(values)| == |Drops(values[..n])| + if IsDrop(values[n - 1], values[n]) then 1 else 0
  {
    hide IsDrop;
    var n := |values| - 1;
    var init := values[..n];
    forall i ensures i in Drops(init) <==> 0 < i < n && DropAt(values, i) {
    }
    assert Drops(values) == if DropAt(values, n) then Drops(init) + {n} else Drops(init);
  }

  /** The drop counter is the number of sharp drops. */
  lemma {:induction false} DropsAreCounted(values: seq<real>)
    ensures Scan(values).drops == |Drops(values)|
  {
    if |values| <= 1 {
      assert Drops(values) == {};
    } else {
      hide Scan, Drops, IsDrop, IsGrowth;
      DropsAreCounted(values[..|values| - 1]);
      ScanNext(values);
      DropsNext(values);
    }
  }

  /** A chain of a prefix is a chain of the whole. */
  lemma ChainExtends(values: seq<real>, c: seq<nat>)
    requires |values| > 0 && Alternates(values[..|values| - 1], c)
    ensures Alternates(values, c)
  {
    var init := values[..|values| - 1];
    forall i | 0 <= i < |c| ensures if i % 2 == 0 then GrowthAt(values, c[i]) else DropAt(values, c[i]) {
      assert if i % 2 == 0 then GrowthAt(init, c[i]) else DropAt(init, c[i]);
    }
  }

  lemma ScanNext(values: seq<real>)
    requires |values| > 1
    ensures var n := |values| - 1; Scan(values) == Step(Scan(values[..n]), values[n - 1], values[n])
  {
  }

  /** The scan's counters realise an alternating chain... */
  lemma {:induction false} ScanRealised(values: seq<real>) returns (c: seq<nat>)
    ensures Alternates(values, c) && |c| == Length(Scan(values))
  {
    if |values| <= 1 {
      c := [];
    } else {
      hide Scan, IsDrop, IsGrowth;
      var n := |values| - 1;
      var t := Scan(values[..n]);
      ScanNext(values);
      c := ScanRealised(values[..n]);
      ChainExtends(values, c);
      assert forall i :: 0 <= i < |c| ==> c[i] < n by {
        forall i | 0 <= i < |c| ensures c[i] < n {
          assert if i % 2 == 0 then GrowthAt(values[..n], c[i]) else DropAt(values[..n], c[i]);
        }
      }
      if DropAt(values, n) {
        if t.growing {
          c := c + [n];
        }
      } else if GrowthAt(values, n) && !t.growing {
        c := c + [n];
      }
    }
  }

  /** ... and no chain is longer. */
  lemma {:induction false} ScanIsLongest(values: seq<real>, c: seq<nat>)
    requires Alternates(values, c)
    ensures |c| <= Length(Scan(values))
  {
    hide Scan, Alternates, Step, Length, IsDrop, IsGrowth;
    if c != [] {
      ChainNeedsSteps(values, c);
      var n := |values| - 1;
      var t := Scan(values[..n]);
      ScanNext(values);
      var d := if c[|c| - 1] == n then c[..|c| - 1] else c;
      ChainBelow(values, c, |d|);
      assert d == c[..|d|];
      if |d| < |c| {
        LastOfChain(values, c);
      }
      ScanIsLongest(values[..n], d);
      LongerByOne(t, values[n - 1], values[n], |d|);
    }
  }

  lemma LastOfChain(values: seq<real>, c: seq<nat>)
    requires Alternates(values, c) && c != [] && c[|c| - 1] == |values| - 1
    ensures var n := |values| - 1;
            n > 0 && if |c| % 2 == 1 then IsGrowth(values[n - 1], values[n]) else IsDrop(values[n - 1], values[n])
  {
    var i := |c| - 1;
    assert if i % 2 == 0 then GrowthAt(values, c[i]) else DropAt(values, c[i]);
  }

  /** One more point lets a chain of length k grow only if the counters grow with it. */
  lemma LongerByOne(t: Tally, prev: real, val: real, k: nat)
    requires k <= Length(t)
    ensures k <= Length(Step(t, prev, val))
    ensures (if k % 2 == 0 then IsGrowth(prev, val) else IsDrop(prev, val)) ==> k + 1 <= Length(Step(t, prev, val))
  {
    if IsDrop(prev, val) {
      DropIsNoGrowth(prev, val);
    }
  }

  lemma ChainNeedsSteps(values: seq<real>, c: seq<nat>)
    requires Alternates(values, c) && c != []
    ensures |values| > 1
  {
    assert GrowthAt(values, c[0]);
  }

  /** The part of a chain that stays below the last index is a chain of the shorter series. */
  lemma ChainBelow(values: seq<real>, c: seq<nat>, m: nat)
    requires |values| > 1 && Alternates(values, c) && m <= |c|
    requires m == |c| ==> c == [] || c[|c| - 1] != |values| - 1
    requires m < |c| ==> m == |c| - 1
    ensures Alternates(values[..|values| - 1], c[..m])
  {
    var n := |values| - 1;
    forall i | 0 <= i < m
      ensures if i % 2 == 0 then GrowthAt(values[..n], c[i]) else DropAt(values[..n], c[i])
    {
      assert if i % 2 == 0 then GrowthAt(values, c[i]) else DropAt(values, c[i]);
      if i < |c| - 1 {
        assert c[i] < c[i + 1];
        assert if (i + 1) % 2 == 0 then GrowthAt(values, c[i + 1]) else DropAt(values, c[i + 1]);
      }
    }
  }

  /**
   * The growth-segment count is the largest k for which g1 < d1 < ... < gk < dk exist,
   * and never exceeds the number of drops.
   */
  lemma SegmentsAreOptimal(values: seq<real>)
    ensures exists c :: Alternates(values, c) && |c| == 2 * Scan(values).segments
    ensures forall c :: Alternates(values, c) ==> |c| / 2 <= Scan(values).segments
    ensures Scan(values).segments <= Scan(values).drops
  {
    var c := ScanRealised(values);
    PrefixOfChain(values, c, 2 * Scan(values).segments);
    forall d | Alternates(values, d) ensures |d| / 2 <= Scan(values).segments {
      ScanIsLongest(values, d);
    }
    SegmentsBelowDrops(values);
  }

  lemma PrefixOfChain(values: seq<real>, c: seq<nat>, m: nat)
    requires Alternates(values, c) && m <= |c|
    ensures Alternates(values, c[..m]) && |c[..m]| == m
  {
  }

  lemma {:induction false} SegmentsBelowDrops(values: seq<real>)
    ensures Scan(values).segments <= Scan(values).drops
  {
    if |values| > 1 {
      SegmentsBelowDrops(values[..|values| - 1]);
    }
  }

  /** The verdict holds exactly when three growth-then-drop cycles exist; the drop test adds nothing. */
  lemma VerdictMeansThreeCycles(values: seq<real>)
    ensures Verdict(Scan(values)) <==> Scan(values).segments >= 3
    ensures Verdict(Scan(values)) <==> exists c :: Alternates(values, c) && |c| == 6
  {
    SegmentsAreOptimal(values);
    if Scan(values).segments >= 3 {
      var c :| Alternates(values, c) && |c| == 2 * Scan(values).segments;
      PrefixOfChain(values, c, 6);
    }
  }

  // ---------- scaling ----------

  function Scaled(values: seq<real>, c: real): (s: seq<real>)
    ensures |s| == |values|
  {
    seq(|values|, i requires 0 <= i < |values| => c * values[i])
  }

  lemma StepScales(prev: real, val: real, c: real)
    requires c > 0.0
    ensures IsDrop(c * prev, c * val) <==> IsDrop(prev, val)
    ensures IsGrowth(c * prev, c * val) <==> IsGrowth(prev, val)
  {
    DropIsBelow(prev, val);
    DropIsBelow(c * prev, c * val);
    hide IsDrop;
    Distribute(c, prev, val);
    SameSign(c, prev);
    SameSign(c, prev - val - 0.4 * prev);
    SameSign(c, val - prev * 1.02);
  }

  lemma Distribute(c: real, prev: real, val: real)
    ensures c * (prev - val - 0.4 * prev) == c * prev - c * val - 0.4 * (c * prev)
    ensures c * (val - prev * 1.02) == c * val - (c * prev) * 1.02
  {
  }

  lemma ScaledAt(values: seq<real>, c: real, i: nat)
    requires i < |values|
    ensures Scaled(values, c)[i] == c * values[i]
  {
  }

  lemma TallyScales(t: Tally, prev: real, val: real, c: real, scaledPrev: real, scaledVal: real)
    requires c > 0.0 && scaledPrev == c * prev && scaledVal == c * val
    ensures Step(t, scaledPrev, scaledVal) == Step(t, prev, val)
  {
    StepScales(prev, val, c);
  }

  lemma PointScales(t: Tally, values: seq<real>, c: real, i: nat)
    requires c > 0.0 && 0 < i < |values|
    ensures var s := Scaled(values, c); Step(t, s[i - 1], s[i]) == Step(t, values[i - 1], values[i])
  {
    hide Scaled, Step;
    ScaledAt(values, c, i - 1);
    ScaledAt(values, c, i);
    TallyScales(t, values[i - 1], values[i], c, Scaled(values, c)[i - 1], Scaled(values, c)[i]);
  }

  lemma ScaledPrefix(values: seq<real>, c: real, n: nat)
    requires n <= |values|
    ensures Scaled(values, c)[..n] == Scaled(values[..n], c)
  {
    forall i | 0 <= i < n ensures Scaled(values, c)[..n][i] == Scaled(values[..n], c)[i] {
      assert values[..n][i] == values[i];
    }
  }

  /** Measuring memory in another unit changes no count and no verdict. */
  lemma {:induction false} ScanIsScaleFree(values: seq<real>, c: real)
    requires c > 0.0
    ensures Scan(Scaled(values, c)) == Scan(values)
  {
    if |values| > 1 {
      hide Scan, Step, Scaled;
      var n, s := |values| - 1, Scaled(values, c);
      ScanIsScaleFree(values[..n], c);
      ScaledPrefix(values, c, n);
      ScanNext(s);
      ScanNext(values);
      PointScales(Scan(values[..n]), values, c, n);
    }
  }
}
