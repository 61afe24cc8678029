/** Small facts about numbers and finite sets that several modules need. */
module Arith {

  function Min(a: int, b: int): int {
    if a < b then a else b
  }

  lemma Scale(k: int, a: int, b: int)
    requires 0 <= k && a <= b
    ensures k * a <= k * b
  {
  }

  lemma SubsetCard<T>(a: set<T>, b: set<T>)
    requires a <= b
    ensures |a| <= |b|
  {
    assert a + (b - a) == b;
  }

  lemma {:induction false} FreshId(used: set<nat>) returns (x: nat)
    ensures x !in used && forall y :: y in used ==> y < x
    decreases used
  {
    x := 0;
    if used != {} {
      var y :| y in used;
      var z := FreshId(used - {y});
      x := if y < z then z else y + 1;
      assert used == (used - {y}) + {y};
    }
  }

  lemma MovedCard<T>(held: set<T>, x: T)
    ensures |held + {x}| == |held| + (if x in held then 0 else 1)
    ensures |held - {x}| == |held| - (if x in held then 1 else 0)
  {
    assert x in held ==> held + {x} == held;
    assert x !in held ==> held - {x} == held;
  }

  lemma SplitCard<T>(a: set<T>, b: set<T>)
    ensures |a - b| + |a * b| == |a|
  {
    assert (a - b) + (a * b) == a;
  }
}
