/**
 The cumulative step count of StepCounterService (a Java `int`) and the two
 operations that change it, updateSteps and resetStepCount. Each change is
 broadcast as a "StepCountUpdate" carrying the new count.
 */
module StepAggregator {
  import opened JavaInt
  import opened Sequences

  /** The new count, and the value the "StepCountUpdate" broadcast carries */
  datatype Update = Update(count: Int32, notified: Int32)

  /**
   updateSteps: adds the delta with Java `int` addition and notifies the new
   count. The delta is whatever the server replied; it is not checked for sign.
   */
  function UpdateSteps(count: Int32, delta: Int32): (r: Update)
    ensures r.notified == r.count
    ensures (r.count - (count + delta)) % INT_RANGE == 0
    ensures INT_MIN <= count + delta <= INT_MAX ==> r.count == count + delta
  {
    var next := Wrap32(count + delta);
    Update(next, next)
  }

  /** resetStepCount: zeroes the count and notifies 0, whatever the count was */
  function ResetStepCount(count: Int32): (r: Update)
    ensures r.count == 0 && r.notified == 0
  {
    Update(0, 0)
  }

  /** The count after applying the deltas one at a time, in order, with no reset in between */
  function ApplyAll(count: Int32, deltas: seq<Int32>): (r: Int32)
    ensures r == Wrap32(count + Sum(deltas))
    decreases |deltas|
  {
    if deltas == [] then count
    else
      var next := UpdateSteps(count, deltas[0]).count;
      Wrap32Absorbs(count + deltas[0], Sum(deltas[1..]));
      ApplyAll(next, deltas[1..])
  }

  /**
   Completion order does not matter: applying the same deltas in any order
   gives the same count.
   */
  lemma ApplyAllOrderIndependent(count: Int32, deltas: seq<Int32>, reordered: seq<Int32>)
    requires multiset(deltas) == multiset(reordered)
    ensures ApplyAll(count, deltas) == ApplyAll(count, reordered)
  {
    SumPermutation(deltas, reordered);
  }

  /**
   Without overflow and with non-negative deltas, the count never goes down:
   every update leaves it at least where it was, and it ends at the start plus
   the deltas.
   */
  lemma ApplyAllNoOverflow(count: Int32, deltas: seq<Int32>)
    requires forall i :: 0 <= i < |deltas| ==> deltas[i] >= 0
    requires count + Sum(deltas) <= INT_MAX
    ensures ApplyAll(count, deltas) == count + Sum(deltas) >= count
    ensures forall i, j :: 0 <= i <= j <= |deltas| ==> ApplyAll(count, deltas[..i]) <= ApplyAll(count, deltas[..j])
  {
    SumNonNegative(deltas);
    forall i, j | 0 <= i <= j <= |deltas|
      ensures ApplyAll(count, deltas[..i]) <= ApplyAll(count, deltas[..j])
    {
      PrefixSumNoOverflow(count, deltas, i);
      PrefixSumNoOverflow(count, deltas, j);
      assert deltas[..j] == deltas[..i] + deltas[i..j];
      SumAppend(deltas[..i], deltas[i..j]);
      SumNonNegative(deltas[i..j]);
    }
  }

  /** Under the same conditions, every prefix of the updates is applied without overflow */
  lemma PrefixSumNoOverflow(count: Int32, deltas: seq<Int32>, k: nat)
    requires forall i :: 0 <= i < |deltas| ==> deltas[i] >= 0
    requires count + Sum(deltas) <= INT_MAX
    requires k <= |deltas|
    ensures 0 <= Sum(deltas[..k]) <= Sum(deltas)
    ensures ApplyAll(count, deltas[..k]) == count + Sum(deltas[..k])
  {
    assert deltas == deltas[..k] + deltas[k..];
    SumAppend(deltas[..k], deltas[k..]);
    SumNonNegative(deltas[..k]);
    SumNonNegative(deltas[k..]);
  }

  lemma {:induction false} SumNonNegative(xs: seq<int>)
    requires forall i :: 0 <= i < |xs| ==> xs[i] >= 0
    ensures Sum(xs) >= 0
  {
    if xs != [] {
      SumNonNegative(xs[1..]);
    }
  }
}
