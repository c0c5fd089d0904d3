/** Strings: substring search, decimal numerals, and splitting at a separator. */
module Text {

  predicate OccursAt(s: string, part: string, i: nat) {
    i + |part| <= |s| && s[i..i + |part|] == part
  }

  predicate Contains(s: string, part: string) {
    exists i: nat | i <= |s| :: OccursAt(s, part, i)
  }

  /** A text contains a part exactly when it is the part with something around it. */
  lemma ContainsIff(s: string, part: string)
    ensures Contains(s, part) <==> exists a, b :: s == a + part + b
  {
    if Contains(s, part) {
      var i: nat :| i <= |s| && OccursAt(s, part, i);
      assert s == s[..i] + part + s[i + |part|..];
    }
    if a, b :| s == a + part + b {
      assert OccursAt(s, part, |a|);
    }
  }

  function Digit(d: nat): (c: char)
    requires d < 10
    ensures '0' <= c <= '9'
  {
    '0' + d as char
  }

  /** The decimal numeral of a natural number. */
  function Decimal(n: nat): (s: string)
    ensures |s| > 0
    ensures forall c :: c in s ==> '0' <= c <= '9'
    decreases n
  {
    if n < 10 then [Digit(n)] else Decimal(n / 10) + [Digit(n % 10)]
  }

  /** The numeral that %d prints for an integer of either sign. */
  function Numeral(n: int): string {
    if n < 0 then "-" + Decimal(-n) else Decimal(n)
  }

  function Value(s: string): int {
    if s == [] then 0 else 10 * Value(s[..|s| - 1]) + (s[|s| - 1] as int - '0' as int)
  }

  lemma {:induction false} ValueOfDecimal(n: nat)
    ensures Value(Decimal(n)) == n
    decreases n
  {
    var s := Decimal(n);
    if n < 10 {
      assert s[..0] == [];
      assert Value(s) == 10 * Value(s[..0]) + n;
    } else {
      ValueOfDecimal(n / 10);
      assert s[..|s| - 1] == Decimal(n / 10);
    }
  }

  lemma DecimalInjective(m: nat, n: nat)
    requires Decimal(m) == Decimal(n)
    ensures m == n
  {
    ValueOfDecimal(m);
    ValueOfDecimal(n);
  }

  lemma FirstSeparator(a: string, x: string, c: char)
    requires c !in a
    ensures var s := a + [c] + x; s[|a|] == c && forall i :: 0 <= i < |a| ==> s[i] != c
  {
    forall i | 0 <= i < |a| ensures (a + [c] + x)[i] != c {
      assert (a + [c] + x)[i] == a[i];
    }
  }

  lemma LastSeparator(a: string, x: string, c: char)
    requires c !in x
    ensures var s := a + [c] + x; s[|a|] == c && forall i :: |a| < i < |s| ==> s[i] != c
  {
    forall i | |a| < i < |a + [c] + x| ensures (a + [c] + x)[i] != c {
      assert (a + [c] + x)[i] == x[i - |a| - 1];
    }
  }

  /** A separator absent from both heads determines where a string splits. */
  lemma SplitAtFirst(a: string, x: string, b: string, y: string, c: char)
    requires c !in a && c !in b
    requires a + [c] + x == b + [c] + y
    ensures a == b && x == y
  {
    var s, t := a + [c] + x, b + [c] + y;
    FirstSeparator(a, x, c);
    FirstSeparator(b, y, c);
    assert a == s[..|a|] && b == t[..|b|];
    assert x == s[|a| + 1..] && y == t[|b| + 1..];
  }

  /** A separator absent from both tails determines where a string splits. */
  lemma SplitAtLast(a: string, x: string, b: string, y: string, c: char)
    requires c !in x && c !in y
    requires a + [c] + x == b + [c] + y
    ensures a == b && x == y
  {
    var s, t := a + [c] + x, b + [c] + y;
    LastSeparator(a, x, c);
    LastSeparator(b, y, c);
    assert a == s[..|a|] && b == t[..|b|];
    assert x == s[|a| + 1..] && y == t[|b| + 1..];
  }
}
