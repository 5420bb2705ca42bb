/**
 * The cumulative-weight sampler into which one inference step puts every
 * scored candidate before drawing one of them. Entries whose weight is not
 * positive can never be drawn; a candidate with a positive weight is drawn
 * exactly when the draw, scaled to the total weight, falls in its half-open
 * slice [before, before + weight) of the cumulative table.
 */
module WeightedSampling {
  import opened Wrappers

  /** One (weight, candidate) pair put into the sampler. */
  datatype Entry<T> = Entry(weight: real, value: T)

  /** Raised when no entry has a positive weight (empty or all-zero table). */
  datatype SampleError = EmptyDistribution

  /** The part of a weight that counts: weights at or below zero count as zero. */
  function Positive(w: real): real
  {
    if w > 0.0 then w else 0.0
  }

  /** The cumulative weight of a table: the sum of its positive weights. */
  function TotalWeight<T>(entries: seq<Entry<T>>): real
  {
    if entries == [] then 0.0
    else TotalWeight(entries[..|entries| - 1]) + Positive(entries[|entries| - 1].weight)
  }

  lemma {:induction false} TotalWeightNonNegative<T>(entries: seq<Entry<T>>)
    ensures TotalWeight(entries) >= 0.0
    decreases |entries|
  {
    if entries != [] {
      TotalWeightNonNegative(entries[..|entries| - 1]);
    }
  }

  /** The boundary after entry i is the boundary before it plus its positive weight. */
  lemma PrefixStep<T>(entries: seq<Entry<T>>, i: nat)
    requires i < |entries|
    ensures TotalWeight(entries[..i + 1]) == TotalWeight(entries[..i]) + Positive(entries[i].weight)
  {
    assert entries[..i + 1][..i] == entries[..i];
  }

  /** The cumulative table never decreases. */
  lemma {:induction false} PrefixMonotone<T>(entries: seq<Entry<T>>, i: nat, j: nat)
    requires i <= j <= |entries|
    ensures TotalWeight(entries[..i]) <= TotalWeight(entries[..j])
    decreases j - i
  {
    if i < j {
      PrefixStep(entries, j - 1);
      PrefixMonotone(entries, i, j - 1);
    }
  }

  /** A table has total weight zero exactly when none of its weights is positive. */
  lemma {:induction false} TotalWeightZeroIff<T>(entries: seq<Entry<T>>)
    ensures TotalWeight(entries) == 0.0 <==> forall k :: 0 <= k < |entries| ==> entries[k].weight <= 0.0
    decreases |entries|
  {
    if entries != [] {
      var n := |entries| - 1;
      TotalWeightZeroIff(entries[..n]);
      TotalWeightNonNegative(entries[..n]);
      assert forall k :: 0 <= k < n ==> entries[..n][k] == entries[k];
    }
  }

  /**
   * The linear walk over the cumulative table: the first index from i on
   * whose upper boundary lies above the target.
   */
  function SelectFrom<T>(entries: seq<Entry<T>>, target: real, i: nat): (k: nat)
    requires i <= |entries|
    requires TotalWeight(entries[..i]) <= target < TotalWeight(entries)
    ensures i <= k < |entries|
    ensures entries[k].weight > 0.0
    ensures TotalWeight(entries[..k]) <= target < TotalWeight(entries[..k + 1])
    decreases |entries| - i
  {
    assert entries[..|entries|] == entries;
    PrefixStep(entries, i);
    if target < TotalWeight(entries[..i + 1]) then i
    else SelectFrom(entries, target, i + 1)
  }

  /**
   * Draw one candidate. The injected uniform draw in [0, 1) is scaled to the
   * total weight; an empty or all-non-positive table fails. Sampling fails
   * exactly when no entry has a positive weight, and a drawn candidate is the
   * value of an entry with a positive weight.
   */
  function SampleOf<T>(entries: seq<Entry<T>>, draw: real): (r: Result<T, SampleError>)
    requires 0.0 <= draw < 1.0
    ensures r.Failure? <==> forall k :: 0 <= k < |entries| ==> entries[k].weight <= 0.0
    ensures r.Success? ==> exists k :: 0 <= k < |entries| && entries[k].weight > 0.0 && entries[k].value == r.value
  {
    TotalWeightNonNegative(entries);
    TotalWeightZeroIff(entries);
    if TotalWeight(entries) <= 0.0 then Failure(EmptyDistribution)
    else
      assert entries[..0] == [];
      var k := SelectFrom(entries, Scale(draw, TotalWeight(entries)), 0);
      Success(entries[k].value)
  }

  /** The uniform draw in [0, 1) scaled to a positive total weight. */
  function Scale(draw: real, total: real): (target: real)
    requires 0.0 <= draw < 1.0 && total > 0.0
    ensures 0.0 <= target < total
  {
    assert (1.0 - draw) * total > 0.0;
    draw * total
  }

  /**
   * The walk picks entry j exactly when the target lies in j's slice of the
   * cumulative table, so each positive-weight entry is drawn with probability
   * weight / total.
   */
  lemma SelectionSlices<T>(entries: seq<Entry<T>>, target: real, j: nat)
    requires 0.0 <= target < TotalWeight(entries)
    requires j < |entries| && entries[j].weight > 0.0
    ensures (assert entries[..0] == []; SelectFrom(entries, target, 0) == j)
        <==> TotalWeight(entries[..j]) <= target < TotalWeight(entries[..j]) + entries[j].weight
  {
    assert entries[..0] == [];
    var k := SelectFrom(entries, target, 0);
    PrefixStep(entries, j);
    PrefixStep(entries, k);
    if TotalWeight(entries[..j]) <= target < TotalWeight(entries[..j]) + entries[j].weight && k != j {
      if k < j {
        PrefixMonotone(entries, k + 1, j);
      } else {
        PrefixMonotone(entries, j + 1, k);
      }
    }
  }

  /** A table with a single positive weight always yields that entry. */
  lemma SinglePositiveAlwaysDrawn<T>(entries: seq<Entry<T>>, draw: real, j: nat)
    requires 0.0 <= draw < 1.0
    requires j < |entries| && entries[j].weight > 0.0
    requires forall k :: 0 <= k < |entries| && k != j ==> entries[k].weight <= 0.0
    ensures SampleOf(entries, draw) == Success(entries[j].value)
  {
    TotalWeightZeroIff(entries);
    TotalWeightNonNegative(entries);
  }

  /**
   * The sampler object of one inference step: filled with put, then drawn
   * from once.
   */
  class CdfMap<T> {
    var entries: seq<Entry<T>>

    constructor ()
      ensures entries == []
    {
      entries := [];
    }

    method Put(weight: real, value: T)
      modifies this
      ensures entries == old(entries) + [Entry(weight, value)]
    {
      entries := entries + [Entry(weight, value)];
    }

    function Sample(draw: real): Result<T, SampleError>
      reads this
      requires 0.0 <= draw < 1.0
    {
      SampleOf(entries, draw)
    }
  }
}
