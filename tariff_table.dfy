/**
 * The mutable tariff table (`water_fees`) and the settings page's save
 * button, which overwrites the three fields of one (region, usage class)
 * entry with the values entered in the form.
 */
module TariffSettings {
  import opened SewageFee
  import opened Billing

  /**
   * The tier list the form produces: every rate is replaced, every capped
   * tier's limit is replaced, and an unlimited tier keeps its sentinel
   * because the form offers no limit field for it.
   */
  function EditTiers(tiers: seq<Tier>, limits: seq<real>, rates: seq<real>): (r: seq<Tier>)
    requires |limits| == |tiers| && |rates| == |tiers|
    ensures |r| == |tiers|
    ensures forall i :: 0 <= i < |r| ==> r[i].rate == rates[i]
    ensures forall i :: 0 <= i < |r| ==> (r[i].limit.Unlimited? <==> tiers[i].limit.Unlimited?)
    ensures forall i :: 0 <= i < |r| ==> tiers[i].limit.Capped? ==> r[i].limit == Capped(limits[i])
  {
    seq(|tiers|, i requires 0 <= i < |tiers| =>
      Tier(if tiers[i].limit.Unlimited? then Unlimited else Capped(limits[i]), rates[i]))
  }

  /** What the form accepts: its limit and rate fields have a minimum of 0. */
  predicate FormInputOk(tiers: seq<Tier>, limits: seq<real>, rates: seq<real>) {
    && |limits| == |tiers| && |rates| == |tiers|
    && forall i :: 0 <= i < |tiers| ==>
         rates[i] >= 0.0 && (tiers[i].limit.Capped? ==> limits[i] >= 0.0)
  }

  /** Saving the form keeps a well-formed schedule well formed. */
  lemma EditKeepsWellFormed(s: Schedule, water: real, limits: seq<real>, rates: seq<real>, levy: real)
    requires WellFormed(s) && FormInputOk(s.sewageTiers, limits, rates)
    ensures WellFormed(Schedule(water, EditTiers(s.sewageTiers, limits, rates), levy))
  {
  }

  class TariffTable {
    var fees: map<Region, map<UsageClass, Schedule>>

    ghost predicate Valid()
      reads this
    {
      TableOk(fees)
    }

    /** The schedule of one (region, usage class) pair. */
    function Lookup(r: Region, c: UsageClass): (s: Schedule)
      reads this
      requires Valid()
      ensures WellFormed(s)
    {
      assert EntryOk(fees, r, c);
      fees[r][c]
    }

    constructor ()
      ensures Valid() && fees == InitialFees()
    {
      fees := InitialFees();
    }

    /** The save button: replace exactly one entry with the edited schedule. */
    method Save(region: Region, usage: UsageClass, water: real, limits: seq<real>, rates: seq<real>, levy: real)
      requires Valid()
      requires FormInputOk(Lookup(region, usage).sewageTiers, limits, rates)
      modifies this
      ensures Valid()
      ensures Lookup(region, usage) ==
        Schedule(water, EditTiers(old(Lookup(region, usage)).sewageTiers, limits, rates), levy)
      ensures forall r: Region, c: UsageClass :: (r, c) != (region, usage) ==>
        Lookup(r, c) == old(Lookup(r, c))
    {
      var current := Lookup(region, usage);
      var edited := Schedule(water, EditTiers(current.sewageTiers, limits, rates), levy);
      EditKeepsWellFormed(current, water, limits, rates, levy);
      ghost var before := fees;
      assert EntryOk(fees, region, usage);
      fees := fees[region := fees[region][usage := edited]];
      forall r: Region, c: UsageClass ensures EntryOk(fees, r, c) {
        assert EntryOk(before, r, c);
      }
    }
  }
}
