/** Index sequences that pick some positions of a list, each once and in order. */
module Selections {
  /** `picks` lists exactly the positions below `n` that are to be kept, in increasing order. */
  ghost predicate Picks(picks: seq<nat>, n: nat, keep: nat -> bool) {
    && (forall a, b | 0 <= a < b < |picks| :: picks[a] < picks[b])
    && forall i: nat :: i in picks <==> i < n && keep(i)
  }

  lemma PicksFurther(picks: seq<nat>, n: nat, keep: nat -> bool)
    requires Picks(picks, n, keep)
    ensures Picks(if keep(n) then picks + [n] else picks, n + 1, keep)
  {
    var more := if keep(n) then picks + [n] else picks;
    forall a | 0 <= a < |picks| ensures picks[a] < n {
      assert picks[a] in picks;
    }
    forall i: nat ensures i in more <==> i < n + 1 && keep(i) {}
  }
}
