/**
 * The utilization percentage painted in the centre of the donut:
 * `round(success / total * 100)`, or 0 when there is nothing to count.
 */
module Utilization {
  import opened StatusTally

  /** `data.reduce((sum, item) => sum + item.value, 0)`. */
  function Total(data: seq<ChartDatum>): nat {
    if |data| == 0 then 0 else Total(data[..|data| - 1]) + data[|data| - 1].value
  }

  /** `data.find(item => item.label === "成功")?.value || 0`: the first such entry's value. */
  function SuccessValue(data: seq<ChartDatum>): (s: nat)
    ensures s <= Total(data)
  {
    if |data| == 0 then 0
    else if data[0].name == SUCCESS_LABEL then
      TotalSplit(data);
      data[0].value
    else
      TotalSplit(data);
      SuccessValue(data[1..])
  }

  /** The total is the first value plus the total of the rest. */
  lemma {:induction false} TotalSplit(data: seq<ChartDatum>)
    requires |data| > 0
    ensures Total(data) == data[0].value + Total(data[1..])
  {
    if |data| > 1 {
      var front := data[..|data| - 1];
      TotalSplit(front);
      assert front[1..] == data[1..][..|data[1..]| - 1];
      assert front[0] == data[0];
    }
  }

  /**
   * The utilization: `Math.round` of the success share in percent, computed
   * exactly (halves round up), and 0 when the total is 0.
   */
  function Utilization(data: seq<ChartDatum>): (u: nat)
    ensures u <= 100
    ensures Total(data) == 0 ==> u == 0
    ensures Total(data) > 0 ==>
      2 * Total(data) * u <= 200 * SuccessValue(data) + Total(data) < 2 * Total(data) * (u + 1)
  {
    var total := Total(data);
    var success := SuccessValue(data);
    if total > 0 then
      RoundedShare(success, total);
      (200 * success + total) / (2 * total)
    else 0
  }

  /** The rounding used by Utilization lies between 0 and 100 and rounds halves up. */
  lemma RoundedShare(success: nat, total: nat)
    requires 0 < total && success <= total
    ensures var u := (200 * success + total) / (2 * total);
      0 <= u <= 100 && 2 * total * u <= 200 * success + total < 2 * total * (u + 1)
  {
    var a, b := 200 * success + total, 2 * total;
    var u := a / b;
    DivBounds(a, b);
    assert b * u <= a < b * u + b;
    assert a < b * 101;
    if u > 100 {
      MulMonotone(b, 101, u);
    }
    assert b * (u + 1) == b * u + b;
  }

  lemma DivBounds(a: nat, b: nat)
    requires b > 0
    ensures b * (a / b) <= a < b * (a / b) + b
  {
  }

  lemma MulMonotone(b: nat, x: int, y: int)
    requires x <= y
    ensures b * x <= b * y
  {
  }

  /** Integer round-half-up is the only value satisfying Utilization's bounds. */
  lemma RoundingUnique(success: nat, total: nat, u: int, v: int)
    requires total > 0
    requires 2 * total * u <= 200 * success + total < 2 * total * (u + 1)
    requires 2 * total * v <= 200 * success + total < 2 * total * (v + 1)
    ensures u == v
  {
    if u < v {
      MulMonotone(2 * total, u + 1, v);
    } else if v < u {
      MulMonotone(2 * total, v + 1, u);
    }
  }

  /** The donut datum for `success` and `failure` counts. */
  function Donut(success: nat, failure: nat): seq<ChartDatum> {
    [ChartDatum(SUCCESS_LABEL, success), ChartDatum(FAILURE_LABEL, failure)]
  }

  lemma DonutParts(success: nat, failure: nat)
    ensures Total(Donut(success, failure)) == success + failure
    ensures SuccessValue(Donut(success, failure)) == success
  {
    var d := Donut(success, failure);
    assert d[..1] == [ChartDatum(SUCCESS_LABEL, success)];
    assert d[..1][..0] == [];
    assert Total(d[..1]) == success;
    assert Total(d) == Total(d[..1]) + failure;
  }

  /** Nothing left to fail: the utilization is 100. */
  lemma FullUtilization(success: nat)
    requires success > 0
    ensures Utilization(Donut(success, 0)) == 100
  {
    DonutParts(success, 0);
    var u := Utilization(Donut(success, 0));
    RoundingUnique(success, success, u, 100);
  }

  /** Nothing succeeded: the utilization is 0. */
  lemma NoUtilization(failure: nat)
    ensures Utilization(Donut(0, failure)) == 0
  {
    DonutParts(0, failure);
    var u := Utilization(Donut(0, failure));
    if failure > 0 {
      RoundingUnique(0, failure, u, 0);
    }
  }

  /** Scaling both counts by the same positive factor leaves the utilization unchanged. */
  lemma ScaleInvariant(success: nat, failure: nat, k: nat)
    requires k > 0
    ensures Utilization(Donut(success * k, failure * k)) == Utilization(Donut(success, failure))
  {
    DonutParts(success, failure);
    DonutParts(success * k, failure * k);
    var total := success + failure;
    if total > 0 {
      var u := Utilization(Donut(success, failure));
      var v := Utilization(Donut(success * k, failure * k));
      assert success * k + failure * k == total * k;
      ScaledBounds(success, total, u, k);
      RoundingUnique(success * k, total * k, u, v);
    }
  }

  /** Multiplying the rounding bounds for a share by k gives the bounds for the scaled share. */
  lemma ScaledBounds(success: nat, total: nat, u: int, k: nat)
    requires total > 0 && k > 0
    requires 2 * total * u <= 200 * success + total < 2 * total * (u + 1)
    ensures 2 * (total * k) * u <= 200 * (success * k) + total * k < 2 * (total * k) * (u + 1)
  {
    MultiplyBounds(2 * total * u, 200 * success + total, 2 * total * (u + 1), k);
    assert 2 * total * u * k == 2 * (total * k) * u;
    assert (200 * success + total) * k == 200 * (success * k) + total * k;
    assert 2 * total * (u + 1) * k == 2 * (total * k) * (u + 1);
  }

  lemma MultiplyBounds(lo: int, x: int, hi: int, k: nat)
    requires k > 0 && lo <= x < hi
    ensures lo * k <= x * k < hi * k
  {
  }

  /** Two successes and one failure give 67. */
  lemma TwoOfThree()
    ensures Utilization(Donut(2, 1)) == 67
  {
    DonutParts(2, 1);
  }
}
