/** Rounding of commissions over many orders. */
module Rounding {
  import opened Lifecycle

  function Sum(amounts: seq<int>): int {
    if |amounts| == 0 then 0 else amounts[0] + Sum(amounts[1..])
  }

  function SumOfShares(amounts: seq<int>, bps: int): int {
    if |amounts| == 0 then 0 else Share(amounts[0], bps) + SumOfShares(amounts[1..], bps)
  }

  lemma ShareOfSum(a: int, b: int, bps: int)
    ensures 0 <= Share(a + b, bps) - Share(a, bps) - Share(b, bps) <= 1
  {
    assert (a + b) * bps == a * bps + b * bps;
  }

  /** Settling n orders one by one takes, at one rate, at most n - 1 minor units
      less commission than settling their total would, and never more. */
  lemma {:induction false} CommissionsLoseLessThanOnePerOrder(amounts: seq<int>, bps: int)
    requires |amounts| >= 1
    ensures 0 <= Share(Sum(amounts), bps) - SumOfShares(amounts, bps) <= |amounts| - 1
  {
    if |amounts| == 1 {
      assert amounts[1..] == [];
    } else {
      CommissionsLoseLessThanOnePerOrder(amounts[1..], bps);
      ShareOfSum(amounts[0], Sum(amounts[1..]), bps);
    }
  }
}
