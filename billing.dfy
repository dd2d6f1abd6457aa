/**
 * Rate schedules of the water dashboard and the fee simulation: the water
 * charge (상수도 요금), the tiered sewage charge (하수도 요금) and the water-use
 * levy (물이용부담금) for one region and one usage class.
 */
module Billing {
  import opened SewageFee
  import opened Wrappers

  datatype Region = Seoul | Busan            // 서울, 부산
  datatype UsageClass = Household | General  // 가정용, 일반용

  /** One (region, usage class) entry of the tariff table. */
  datatype Schedule = Schedule(waterRate: real, sewageTiers: seq<Tier>, levyRate: real)

  /** The three charges the simulation shows and their total. */
  datatype Breakdown = Breakdown(water: real, sewage: real, levy: real, total: real)

  /**
   * The shape every seeded schedule has and the settings form keeps: a
   * non-empty tier list whose last tier, and only that one, is unlimited,
   * with non-negative caps and rates.
   */
  predicate WellFormed(s: Schedule) {
    && |s.sewageTiers| > 0
    && s.sewageTiers[|s.sewageTiers| - 1].limit.Unlimited?
    && (forall i :: 0 <= i < |s.sewageTiers| - 1 ==> s.sewageTiers[i].limit.Capped?)
    && NonNegative(s.sewageTiers)
  }

  /**
   * The tariff table the dashboard starts with: every (region, class) entry is
   * present and well formed.
   */
  function InitialFees(): (fees: map<Region, map<UsageClass, Schedule>>)
    ensures TableOk(fees)
  {
    var f := map[
      Seoul := map[
        Household := Schedule(580.0,
          [Tier(Capped(30.0), 400.0), Tier(Capped(50.0), 930.0), Tier(Unlimited, 1420.0)],
          170.0),
        General := Schedule(1270.0,
          [Tier(Capped(30.0), 500.0), Tier(Capped(50.0), 1000.0), Tier(Capped(100.0), 1520.0),
           Tier(Capped(200.0), 1830.0), Tier(Capped(1000.0), 1920.0), Tier(Unlimited, 2030.0)],
          170.0)],
      Busan := map[
        Household := Schedule(790.0,
          [Tier(Capped(10.0), 490.0), Tier(Capped(20.0), 630.0), Tier(Capped(30.0), 570.0),
           Tier(Unlimited, 940.0)],
          151.3),
        General := Schedule(1350.0,
          [Tier(Capped(50.0), 1160.0), Tier(Capped(100.0), 1720.0), Tier(Capped(300.0), 2020.0),
           Tier(Unlimited, 2110.0)],
          151.3)]];
    assert EntryOk(f, Seoul, Household) && EntryOk(f, Seoul, General);
    assert EntryOk(f, Busan, Household) && EntryOk(f, Busan, General);
    FourEntries(f);
    f
  }

  /** The table has an entry for this region and class, and it is well formed. */
  predicate EntryOk(fees: map<Region, map<UsageClass, Schedule>>, r: Region, c: UsageClass) {
    r in fees && c in fees[r] && WellFormed(fees[r][c])
  }

  /** Every region has every usage class, each well formed. */
  predicate TableOk(fees: map<Region, map<UsageClass, Schedule>>) {
    forall r: Region, c: UsageClass :: EntryOk(fees, r, c)
  }

  /** A table with the four (region, class) entries well formed is complete. */
  lemma FourEntries(fees: map<Region, map<UsageClass, Schedule>>)
    requires EntryOk(fees, Seoul, Household) && EntryOk(fees, Seoul, General)
    requires EntryOk(fees, Busan, Household) && EntryOk(fees, Busan, General)
    ensures TableOk(fees)
  {
    forall r: Region, c: UsageClass ensures EntryOk(fees, r, c) {
      match r
      case Seoul => match c { case Household => case General => }
      case Busan => match c { case Household => case General => }
    }
  }

  /**
   * The fee simulation. A usage of zero shows nothing (the page only computes
   * when the entered usage is truthy); otherwise the breakdown is the water
   * charge and the levy on the whole usage plus the tiered sewage fee.
   */
  function Simulate(usage: real, s: Schedule): (r: Option<Breakdown>)
    requires usage >= 0.0
    ensures r.None? <==> usage == 0.0
    ensures r.Some? ==>
      && r.value.total == r.value.water + r.value.sewage + r.value.levy
      && r.value.water == usage * s.waterRate
      && r.value.sewage == Fee(usage, s.sewageTiers)
      && r.value.levy == usage * s.levyRate
      && r.value.total == usage * (s.waterRate + s.levyRate) + Fee(usage, s.sewageTiers)
  {
    if usage == 0.0 then None
    else
      var water := usage * s.waterRate;
      var sewage := Fee(usage, s.sewageTiers);
      var levy := usage * s.levyRate;
      Some(Breakdown(water, sewage, levy, water + sewage + levy))
  }

  /** With non-negative rates a larger usage never gives a smaller total. */
  lemma SimulateMonotone(u1: real, u2: real, s: Schedule)
    requires 0.0 < u1 <= u2
    requires s.waterRate >= 0.0 && s.levyRate >= 0.0 && NonNegative(s.sewageTiers)
    ensures Simulate(u1, s).value.total <= Simulate(u2, s).value.total
    ensures Simulate(u1, s).value.total >= 0.0
  {
    var b1, b2 := Simulate(u1, s).value, Simulate(u2, s).value;
    assert 0.0 <= b1.water <= b2.water by {
      MulMonotone(u1, u2, s.waterRate);
      MulMonotone(0.0, u1, s.waterRate);
    }
    assert 0.0 <= b1.levy <= b2.levy by {
      MulMonotone(u1, u2, s.levyRate);
      MulMonotone(0.0, u1, s.levyRate);
    }
    assert 0.0 <= b1.sewage <= b2.sewage by {
      FeeMonotone(u1, u2, s.sewageTiers);
    }
    ChargesMonotone(b1, b2);
  }

  lemma ChargesMonotone(b1: Breakdown, b2: Breakdown)
    requires b1.total == b1.water + b1.sewage + b1.levy && b2.total == b2.water + b2.sewage + b2.levy
    requires 0.0 <= b1.water <= b2.water && 0.0 <= b1.sewage <= b2.sewage && 0.0 <= b1.levy <= b2.levy
    ensures 0.0 <= b1.total <= b2.total
  {
  }

  /** Seoul household use of 40 m³: 23200 water + (30·400 + 10·930) sewage + 6800 levy. */
  lemma SeoulHouseholdForty()
    ensures Simulate(40.0, InitialFees()[Seoul][Household]) ==
      Some(Breakdown(23200.0, 21300.0, 6800.0, 51300.0))
  {
  }
}
