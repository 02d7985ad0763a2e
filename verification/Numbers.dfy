/** Small facts about numbers and counted steps that several modules need. */
module Numbers {

  /** Conversion to an integer drops the fraction, toward zero. */
  function Truncate(x: real): int {
    if x >= 0.0 then x.Floor else -((-x).Floor)
  }

  lemma ProductOrder(a: int, b: int, c: nat)
    requires a <= b
    ensures a * c <= b * c
  {
  }

  /**
   If each step from a good state is fine exactly when it leads to a good one, all states are good exactly
   if all steps are fine.
   */
  lemma {:induction false} StepsIff(good: nat -> bool, fine: nat -> bool, k: nat)
    requires good(0) && forall m: nat :: m < k && good(m) ==> (good(m + 1) <==> fine(m))
    ensures (forall m: nat :: m <= k ==> good(m)) <==> forall m: nat :: m < k ==> fine(m)
  {
    if k > 0 {
      StepsIff(good, fine, k - 1);
      assert good(k - 1) ==> (good(k - 1 + 1) <==> fine(k - 1));
    }
  }
}
