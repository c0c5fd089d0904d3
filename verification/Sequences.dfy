/** Facts about finite sequences that several components share. */
module Sequences {

  datatype Option<+T> = None | Some(value: T)

  function SetOf<T>(s: seq<T>): set<T> {
    set x | x in s
  }

  ghost predicate Distinct<T>(s: seq<T>) {
    forall i, j :: 0 <= i < j < |s| ==> s[i] != s[j]
  }

  function Flatten<T>(ss: seq<seq<T>>): seq<T> {
    if ss == [] then [] else Flatten(ss[..|ss| - 1]) + ss[|ss| - 1]
  }

  function Count<T(==)>(s: seq<T>, x: T): nat {
    if s == [] then 0 else Count(s[..|s| - 1], x) + if s[|s| - 1] == x then 1 else 0
  }

  /** Where a value occurs first, or the length if it does not. */
  function FirstIndex<T(==)>(s: seq<T>, x: T): nat {
    if s == [] then 0
    else
      var k := FirstIndex(s[..|s| - 1], x);
      if k < |s| - 1 || s[|s| - 1] == x then k else k + 1
  }

  lemma {:induction false} FirstIndexIsFirst<T>(s: seq<T>, x: T)
    ensures FirstIndex(s, x) <= |s| && forall i :: 0 <= i < FirstIndex(s, x) ==> s[i] != x
    ensures FirstIndex(s, x) < |s| ==> s[FirstIndex(s, x)] == x
    ensures x in s <==> FirstIndex(s, x) < |s|
  {
    if s != [] {
      FirstIndexIsFirst(s[..|s| - 1], x);
      assert s == s[..|s| - 1] + [s[|s| - 1]];
    }
  }

  lemma FirstIndexKept<T>(s: seq<T>, y: T, x: T)
    ensures x in s ==> FirstIndex(s + [y], x) == FirstIndex(s, x) < |s|
    ensures y !in s ==> FirstIndex(s + [y], y) == |s|
  {
    assert (s + [y])[..|s|] == s;
    FirstIndexIsFirst(s, x);
    FirstIndexIsFirst(s, y);
  }

  /** s consists of the entries of t at the given, strictly ascending positions. */
  ghost predicate Picks<T>(s: seq<T>, t: seq<T>, at: seq<nat>) {
    && |at| == |s|
    && (forall i :: 0 <= i < |s| ==> at[i] < |t| && s[i] == t[at[i]])
    && (forall i, j :: 0 <= i < j < |s| ==> at[i] < at[j])
  }

  ghost predicate Subsequence<T>(s: seq<T>, t: seq<T>) {
    exists at: seq<nat> :: Picks(s, t, at)
  }

  lemma SubsequenceGrows<T>(s: seq<T>, t: seq<T>, x: T)
    requires Subsequence(s, t)
    ensures Subsequence(s, t + [x]) && Subsequence(s + [x], t + [x])
  {
    var at: seq<nat> :| Picks(s, t, at);
    assert Picks(s, t + [x], at);
    assert Picks(s + [x], t + [x], at + [|t|]);
  }

  lemma SubsequenceTransitive<T>(s: seq<T>, t: seq<T>, u: seq<T>)
    requires Subsequence(s, t) && Subsequence(t, u)
    ensures Subsequence(s, u)
  {
    var a: seq<nat>, b: seq<nat> :| Picks(s, t, a) && Picks(t, u, b);
    var c := seq(|a|, i requires 0 <= i < |a| => b[a[i]]);
    assert Picks(s, u, c);
  }

  lemma Associative<T>(a: seq<T>, b: seq<T>, c: seq<T>)
    ensures (a + b) + c == a + (b + c)
  {
  }

  /** Taking out an entry before the last leaves the last in place. */
  lemma RemovedBefore<T>(s: seq<T>, k: nat)
    requires k < |s| - 1
    ensures var init := s[..|s| - 1]; s[..k] + s[k + 1..] == (init[..k] + init[k + 1..]) + [s[|s| - 1]]
  {
    var init, last := s[..|s| - 1], s[|s| - 1];
    assert s[..k] == init[..k];
    assert s[k + 1..] == init[k + 1..] + [last];
  }

  lemma FlattenSnoc<T>(ss: seq<seq<T>>, s: seq<T>)
    ensures Flatten(ss + [s]) == Flatten(ss) + s
  {
    assert (ss + [s])[..|ss|] == ss;
  }

  lemma {:induction false} FlattenAppend<T>(ss: seq<seq<T>>, tt: seq<seq<T>>)
    ensures Flatten(ss + tt) == Flatten(ss) + Flatten(tt)
  {
    if tt == [] {
      assert ss + tt == ss;
    } else {
      hide Flatten;
      var init, last := tt[..|tt| - 1], tt[|tt| - 1];
      FlattenAppend(ss, init);
      assert tt == init + [last] && ss + tt == (ss + init) + [last];
      FlattenSnoc(init, last);
      FlattenSnoc(ss + init, last);
    }
  }

  lemma {:induction false} FlattenMember<T>(ss: seq<seq<T>>, x: T)
    ensures x in Flatten(ss) <==> exists i :: 0 <= i < |ss| && x in ss[i]
  {
    if ss != [] {
      FlattenMember(ss[..|ss| - 1], x);
    }
  }

  lemma CountSnoc<T>(s: seq<T>, n: T, x: T)
    ensures Count(s + [n], x) == Count(s, x) + if n == x then 1 else 0
  {
    assert (s + [n])[..|s|] == s;
  }

  lemma {:induction false} CountAppend<T>(s: seq<T>, t: seq<T>, x: T)
    ensures Count(s + t, x) == Count(s, x) + Count(t, x)
  {
    if t == [] {
      assert s + t == s;
    } else {
      CountAppend(s, t[..|t| - 1], x);
      assert (s + t)[..|s + t| - 1] == s + t[..|t| - 1];
    }
  }

  lemma {:induction false} CountPositive<T>(s: seq<T>, x: T)
    ensures Count(s, x) > 0 <==> x in s
  {
    if s != [] {
      CountPositive(s[..|s| - 1], x);
      assert s == s[..|s| - 1] + [s[|s| - 1]];
    }
  }

  lemma {:induction false} CountMonotone<T>(s: seq<T>, m: nat, n: nat, x: T)
    requires m <= n <= |s|
    ensures Count(s[..m], x) <= Count(s[..n], x)
    decreases n
  {
    if m < n {
      CountMonotone(s, m, n - 1, x);
      assert s[..n][..n - 1] == s[..n - 1];
    }
  }

  lemma CountNext<T>(s: seq<T>, i: nat, x: T)
    requires i < |s|
    ensures Count(s[..i + 1], x) == Count(s[..i], x) + if s[i] == x then 1 else 0
  {
    assert s[..i + 1][..i] == s[..i];
  }

  lemma {:induction false} CountIsMultiplicity<T>(s: seq<T>, x: T)
    ensures Count(s, x) == multiset(s)[x]
  {
    if s != [] {
      CountIsMultiplicity(s[..|s| - 1], x);
      assert s == s[..|s| - 1] + [s[|s| - 1]];
    }
  }

  ghost predicate SameCount<T>(s: seq<T>, t: seq<T>, x: T) {
    Count(s, x) == Count(t, x)
  }

  lemma SameCounts<T>(s: seq<T>, t: seq<T>)
    ensures (forall x :: SameCount(s, t, x)) <==> multiset(s) == multiset(t)
  {
    forall x ensures SameCount(s, t, x) <==> multiset(s)[x] == multiset(t)[x] {
      CountIsMultiplicity(s, x);
      CountIsMultiplicity(t, x);
    }
    if forall x :: SameCount(s, t, x) {
      assert forall x :: multiset(s)[x] == multiset(t)[x];
    }
  }

  lemma SetOfSnoc<T>(s: seq<T>, x: T)
    ensures SetOf(s + [x]) == SetOf(s) + {x}
    ensures x in SetOf(s) <==> x in s
  {
    assert forall y :: y in s + [x] <==> y in s || y == x;
  }

  lemma {:induction false} DistinctSize<T>(s: seq<T>)
    requires Distinct(s)
    ensures |SetOf(s)| == |s|
  {
    if s != [] {
      var init, x := s[..|s| - 1], s[|s| - 1];
      DistinctSize(init);
      assert s == init + [x];
      SetOfSnoc(init, x);
      hide SetOf;
      forall y | y in init ensures y != x {
        var i :| 0 <= i < |init| && init[i] == y;
        assert s[i] != s[|s| - 1];
      }
    }
  }

  /** More entries than values: some value repeats. */
  lemma Pigeonhole<T>(s: seq<T>, values: set<T>)
    requires |s| > |values|
    requires forall x :: x in s ==> x in values
    ensures exists i, j :: 0 <= i < j < |s| && s[i] == s[j]
  {
    if Distinct(s) {
      DistinctSize(s);
      SubsetSize(SetOf(s), values);
    }
  }

  lemma {:induction false} SubsetSize<T>(a: set<T>, b: set<T>)
    requires a <= b
    ensures |a| <= |b|
    ensures a != b ==> |a| < |b|
  {
    assert b == a + (b - a);
    assert |b| == |a| + |b - a|;
  }
}
