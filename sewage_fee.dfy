/**
 * The tiered sewage fee (하수도 요금) of the water dashboard.
 *
 * A sewage schedule is an ordered list of tiers. Each tier has a limit and a
 * rate per cubic metre. The limit is that tier's CAPACITY: tier i always covers
 * the next `limit_i` units, not the units between limit_(i-1) and limit_i.
 * The last seeded tier has the limit float('inf'), modelled as `Unlimited`.
 */
module SewageFee {

  /** A tier limit: a finite capacity, or the infinite sentinel. */
  datatype Limit = Capped(cap: real) | Unlimited

  datatype Tier = Tier(limit: Limit, rate: real)

  /** The tier walk's test `remaining_usage > limit`; nothing exceeds infinity. */
  predicate Exceeds(remaining: real, limit: Limit) {
    limit.Capped? && remaining > limit.cap
  }

  /**
   * What the tier walk charges for `usage`: every tier the remaining usage
   * exceeds is charged in full, and the first tier that absorbs the rest is
   * charged for the rest, after which later tiers are never reached.
   */
  function Fee(usage: real, tiers: seq<Tier>): (r: real)
    ensures NonNegative(tiers) && usage >= 0.0 ==> r >= 0.0
    decreases |tiers|
  {
    if tiers == [] then 0.0
    else if Exceeds(usage, tiers[0].limit) then
      FirstChargeNonNegative(usage, tiers);
      tiers[0].limit.cap * tiers[0].rate + Fee(usage - tiers[0].limit.cap, tiers[1..])
    else
      FirstChargeNonNegative(usage, tiers);
      usage * tiers[0].rate
  }

  /** What the first tier charges is non-negative, and so are the remaining tiers' caps and rates. */
  lemma FirstChargeNonNegative(usage: real, tiers: seq<Tier>)
    requires tiers != []
    ensures NonNegative(tiers) ==> NonNegative(tiers[1..])
    ensures NonNegative(tiers) && tiers[0].limit.Capped? ==> tiers[0].limit.cap * tiers[0].rate >= 0.0
    ensures NonNegative(tiers) && usage >= 0.0 ==> usage * tiers[0].rate >= 0.0
  {
    if NonNegative(tiers) {
      assert NonNegative(tiers[1..]);
      if usage >= 0.0 {
        MulMonotone(0.0, usage, tiers[0].rate);
      }
      if tiers[0].limit.Capped? {
        MulMonotone(0.0, tiers[0].limit.cap, tiers[0].rate);
      }
    }
  }

  /** The tier walk of the dashboard, with its early exit. */
  method SewageFee(usage: real, tiers: seq<Tier>) returns (fee: real)
    ensures fee == Fee(usage, tiers)
  {
    fee := 0.0;
    var remaining := usage;
    var i := 0;
    while i < |tiers|
      invariant 0 <= i <= |tiers|
      invariant fee + Fee(remaining, tiers[i..]) == Fee(usage, tiers)
    {
      var tier := tiers[i];
      assert tiers[i..][0] == tier && tiers[i..][1..] == tiers[i + 1..];
      if Exceeds(remaining, tier.limit) {
        fee := fee + tier.limit.cap * tier.rate;
        remaining := remaining - tier.limit.cap;
      } else {
        fee := fee + remaining * tier.rate;
        break;
      }
      i := i + 1;
    }
  }

  /** All caps and all rates are non-negative (what the settings form allows). */
  predicate NonNegative(tiers: seq<Tier>) {
    forall i :: 0 <= i < |tiers| ==>
      tiers[i].rate >= 0.0 && (tiers[i].limit.Capped? ==> tiers[i].limit.cap >= 0.0)
  }

  /** Sum of the capacities of a run of capped tiers. */
  function CapacitySum(tiers: seq<Tier>): real
  {
    if tiers == [] then 0.0
    else (if tiers[0].limit.Capped? then tiers[0].limit.cap else 0.0) + CapacitySum(tiers[1..])
  }

  /** What a run of capped tiers costs when each is consumed in full. */
  function FullCharge(tiers: seq<Tier>): real
  {
    if tiers == [] then 0.0
    else (if tiers[0].limit.Capped? then tiers[0].limit.cap * tiers[0].rate else 0.0)
         + FullCharge(tiers[1..])
  }

  /**
   * Tier k is where the walk stops: each earlier tier is capped and is exceeded
   * by what is left after the tiers before it, and tier k (if there is one)
   * absorbs the rest.
   */
  predicate StopsAt(usage: real, tiers: seq<Tier>, k: nat) {
    && k <= |tiers|
    && (forall j :: 0 <= j < k ==> ExceededAt(usage, tiers, j))
    && (k < |tiers| ==> !ExceededAt(usage, tiers, k))
  }

  /** What is left after the tiers before tier j exceeds tier j's limit. */
  predicate ExceededAt(usage: real, tiers: seq<Tier>, j: nat)
    requires j < |tiers|
  {
    Exceeds(usage - CapacitySum(tiers[..j]), tiers[j].limit)
  }

  /** Splitting the first tier off a prefix of the schedule. */
  lemma PrefixSplit(tiers: seq<Tier>, j: nat)
    requires j < |tiers|
    ensures CapacitySum(tiers[..j + 1]) ==
      (if tiers[0].limit.Capped? then tiers[0].limit.cap else 0.0) + CapacitySum(tiers[1..][..j])
    ensures FullCharge(tiers[..j + 1]) ==
      (if tiers[0].limit.Capped? then tiers[0].limit.cap * tiers[0].rate else 0.0) + FullCharge(tiers[1..][..j])
  {
    assert tiers[..j + 1][0] == tiers[0];
    assert tiers[..j + 1][1..] == tiers[1..][..j];
  }

  /** If the walk stops at tier k > 0, then after the first tier it stops at tier k - 1 of the rest. */
  lemma StopsAtTail(usage: real, tiers: seq<Tier>, k: nat)
    requires 0 < k && StopsAt(usage, tiers, k)
    ensures Exceeds(usage, tiers[0].limit)
    ensures StopsAt(usage - tiers[0].limit.cap, tiers[1..], k - 1)
  {
    assert tiers[..0] == [];
    assert ExceededAt(usage, tiers, 0);
    var u, rest := usage - tiers[0].limit.cap, tiers[1..];
    forall j | 0 <= j < k - 1
      ensures ExceededAt(u, rest, j)
    {
      PrefixSplit(tiers, j);
      assert ExceededAt(usage, tiers, j + 1);
    }
    if k < |tiers| {
      PrefixSplit(tiers, k - 1);
      assert !ExceededAt(usage, tiers, k);
    }
  }

  /**
   * Capacity semantics: the fee is the full charge of the tiers before the
   * stopping tier plus the rest of the usage at the stopping tier's rate.
   */
  lemma {:induction false} CapacitySemantics(usage: real, tiers: seq<Tier>, k: nat)
    requires StopsAt(usage, tiers, k)
    ensures Fee(usage, tiers) ==
      FullCharge(tiers[..k]) +
      (if k < |tiers| then (usage - CapacitySum(tiers[..k])) * tiers[k].rate else 0.0)
    decreases |tiers|
  {
    if k == 0 {
      assert tiers[..0] == [];
    } else {
      StopsAtTail(usage, tiers, k);
      var cap := tiers[0].limit.cap;
      CapacitySemantics(usage - cap, tiers[1..], k - 1);
      CapacityStep(usage, tiers, k, tiers[1..], usage - cap, Fee(usage - cap, tiers[1..]));
    }
  }

  /** The first tier's full charge in front of the rest's capacity reading gives the whole one. */
  lemma CapacityStep(usage: real, tiers: seq<Tier>, k: nat, rest: seq<Tier>, restUsage: real, restFee: real)
    requires 0 < k <= |tiers| && tiers[0].limit.Capped?
    requires rest == tiers[1..] && restUsage == usage - tiers[0].limit.cap
    requires restFee == FullCharge(rest[..k - 1]) +
      (if k - 1 < |rest| then (restUsage - CapacitySum(rest[..k - 1])) * rest[k - 1].rate else 0.0)
    ensures tiers[0].limit.cap * tiers[0].rate + restFee ==
      FullCharge(tiers[..k]) + (if k < |tiers| then (usage - CapacitySum(tiers[..k])) * tiers[k].rate else 0.0)
  {
    PrefixSplit(tiers, k - 1);
  }

  /** A usage within the first tier is charged at the first rate alone; later tiers are never reached. */
  lemma FirstTier(usage: real, tiers: seq<Tier>)
    requires tiers != [] && !Exceeds(usage, tiers[0].limit)
    ensures Fee(usage, tiers) == usage * tiers[0].rate
    ensures forall later: seq<Tier> :: Fee(usage, tiers[..1] + later) == Fee(usage, tiers)
  {
  }

  /** A usage exactly equal to a capped tier's limit is absorbed by that tier and the walk stops there. */
  lemma {:induction false} ExactLimitStops(usage: real, tiers: seq<Tier>)
    requires tiers != [] && tiers[0].limit == Capped(usage)
    ensures Fee(usage, tiers) == tiers[0].limit.cap * tiers[0].rate
  {
  }

  lemma MulMonotone(a: real, b: real, r: real)
    requires a <= b && r >= 0.0
    ensures a * r <= b * r
  {
  }

  /** With non-negative caps and rates the fee never decreases as usage grows. */
  lemma {:induction false} FeeMonotone(u1: real, u2: real, tiers: seq<Tier>)
    requires NonNegative(tiers) && u1 <= u2
    ensures Fee(u1, tiers) <= Fee(u2, tiers)
    decreases |tiers|
  {
    if tiers != [] {
      var t := tiers[0];
      assert NonNegative(tiers[1..]);
      if Exceeds(u1, t.limit) {
        FeeMonotone(u1 - t.limit.cap, u2 - t.limit.cap, tiers[1..]);
      } else if Exceeds(u2, t.limit) {
        MulMonotone(u1, t.limit.cap, t.rate);
        assert Fee(u2 - t.limit.cap, tiers[1..]) >= 0.0;
      } else {
        MulMonotone(u1, u2, t.rate);
      }
    }
  }

  /**
   * The tiers leave no gap and no overlap: when every tier has the same rate
   * and the list ends in the unlimited sentinel, each unit is charged once.
   */
  lemma {:induction false} UniformRateChargesEachUnitOnce(usage: real, tiers: seq<Tier>, rate: real)
    requires tiers != [] && tiers[|tiers| - 1].limit.Unlimited?
    requires forall i :: 0 <= i < |tiers| ==> tiers[i].rate == rate
    ensures Fee(usage, tiers) == usage * rate
    decreases |tiers|
  {
    if Exceeds(usage, tiers[0].limit) {
      assert |tiers| > 1;
      UniformRateChargesEachUnitOnce(usage - tiers[0].limit.cap, tiers[1..], rate);
    }
  }
}
