/**
 * The home page's numbers: the ten-hour window of the hourly usage chart,
 * the daily usage total and the estimated bill.
 */
module HourlyUsage {
  import opened Wrappers

  /** The chart refuses anything but 24 hourly values. */
  datatype WindowError = NotTwentyFourValues

  /**
   * The usage of the ten hours ending with the current hour, oldest first,
   * wrapping around midnight. `(hour - 9) % 24` is Python's floored modulo,
   * which for the positive divisor 24 agrees with Dafny's `%`.
   */
  function RecentHours(hourly: seq<int>, hour: nat): (r: Result<seq<int>, WindowError>)
    requires hour < 24
    ensures r.Err? <==> |hourly| != 24
    ensures r.Ok? ==> |r.value| == 10 && r.value[9] == hourly[hour]
    ensures r.Ok? ==> forall i :: 0 <= i < 10 ==> r.value[i] == hourly[(hour + 15 + i) % 24]
  {
    if |hourly| != 24 then Err(NotTwentyFourValues)
    else
      var start := (hour - 9) % 24;
      Ok(seq(10, i requires 0 <= i < 10 => hourly[(start + i) % 24]))
  }

  /** The hour labels of the same window, as hour numbers 0..23. */
  function VisibleHours(hour: nat): (r: seq<nat>)
    requires hour < 24
    ensures |r| == 10 && r[9] == hour
    ensures forall i :: 0 <= i < 10 ==> r[i] < 24
    ensures forall i :: 0 <= i < 9 ==> r[i + 1] == (r[i] + 1) % 24
  {
    var start := (hour - 9) % 24;
    StartHour(hour);
    seq(10, i requires 0 <= i < 10 => (start + i) % 24)
  }

  /** Ten hours before `hour`, wrapping to the previous day before 09:00. */
  lemma StartHour(hour: nat)
    requires hour < 24
    ensures (hour - 9) % 24 == if hour >= 9 then hour - 9 else hour + 15
    ensures forall x :: 0 <= x < 48 ==> x % 24 == if x < 24 then x else x - 24
  {
    forall x | 0 <= x < 48 ensures x % 24 == if x < 24 then x else x - 24 {
      Wrap(x);
    }
  }

  /** Each bar of the window shows the usage of the hour under it. */
  lemma BarsMatchLabels(hourly: seq<int>, hour: nat)
    requires hour < 24 && |hourly| == 24
    ensures forall i :: 0 <= i < 10 ==> RecentHours(hourly, hour).value[i] == hourly[VisibleHours(hour)[i]]
  {
  }

  /**
   * Without wrap-around the window is the slice ending at the current hour;
   * before 09:00 it is the end of the previous day followed by the start of today.
   */
  lemma RecentHoursSlices(hourly: seq<int>, hour: nat)
    requires hour < 24 && |hourly| == 24
    ensures hour >= 9 ==> RecentHours(hourly, hour).value == hourly[hour - 9..hour + 1]
    ensures hour < 9 ==> RecentHours(hourly, hour).value == hourly[hour + 15..] + hourly[..hour + 1]
  {
    var w := RecentHours(hourly, hour).value;
    if hour >= 9 {
      forall i | 0 <= i < 10 ensures w[i] == hourly[hour - 9..hour + 1][i] {
        Wrap(hour + 15 + i);
      }
    } else {
      var tail := hourly[hour + 15..] + hourly[..hour + 1];
      forall i | 0 <= i < 10 ensures w[i] == tail[i] {
        Wrap(hour + 15 + i);
      }
    }
  }

  /** An hour index less than two days old wraps around midnight at most once. */
  lemma Wrap(x: int)
    requires 0 <= x < 48
    ensures x < 24 ==> x % 24 == x
    ensures x >= 24 ==> x % 24 == x - 24
  {
  }

  /**
   * `calculate_daily_usage`: the sum of the hourly values. When no hour is
   * negative the total is not either.
   */
  function DailyUsage(hourly: seq<int>): (r: int)
    ensures NoNegativeHour(hourly) ==> r >= 0
    decreases |hourly|
  {
    if hourly == [] then 0
    else
      assert NoNegativeHour(hourly) ==> NoNegativeHour(hourly[1..]);
      hourly[0] + DailyUsage(hourly[1..])
  }

  predicate NoNegativeHour(hourly: seq<int>) {
    forall i :: 0 <= i < |hourly| ==> hourly[i] >= 0
  }

  lemma {:induction false} DailyUsageConcat(a: seq<int>, b: seq<int>)
    ensures DailyUsage(a + b) == DailyUsage(a) + DailyUsage(b)
    decreases |a|
  {
    if a == [] {
      assert a + b == b;
    } else {
      assert (a + b)[0] == a[0] && (a + b)[1..] == a[1..] + b;
      DailyUsageConcat(a[1..], b);
    }
  }

  /** Hourly values between lo and hi give a daily usage between |hourly|·lo and |hourly|·hi (24·lo and 24·hi for a full day). */
  lemma {:induction false} DailyUsageBounds(hourly: seq<int>, lo: int, hi: int)
    requires forall i :: 0 <= i < |hourly| ==> lo <= hourly[i] <= hi
    ensures |hourly| * lo <= DailyUsage(hourly) <= |hourly| * hi
    decreases |hourly|
  {
    if hourly != [] {
      var n := |hourly| - 1;
      DailyUsageBounds(hourly[1..], lo, hi);
      assert DailyUsage(hourly) == hourly[0] + DailyUsage(hourly[1..]);
      MulSucc(n, lo);
      MulSucc(n, hi);
    }
  }

  lemma MulSucc(n: int, x: int)
    ensures (n + 1) * x == n * x + x
  {
  }

  /** The rate setting, 1 when none has been stored. */
  function RateOrDefault(setting: Option<real>): real
  {
    if setting.Some? then setting.value else 1.0
  }

  /**
   * `calculate_estimated_bill`: the daily usage priced at one flat rate. A
   * non-negative usage at a non-negative rate costs a non-negative amount.
   */
  function EstimatedBill(daily: int, rate: real): (bill: real)
    ensures daily >= 0 && rate >= 0.0 ==> bill >= 0.0
  {
    daily as real * rate
  }

  /** The estimate is additive over the hours: pricing two stretches separately gives the same bill. */
  lemma EstimatedBillAdditive(a: seq<int>, b: seq<int>, rate: real)
    ensures EstimatedBill(DailyUsage(a + b), rate) ==
      EstimatedBill(DailyUsage(a), rate) + EstimatedBill(DailyUsage(b), rate)
  {
    DailyUsageConcat(a, b);
    BillLinear(DailyUsage(a), DailyUsage(b), rate);
  }

  /** Pricing two amounts separately or together gives the same bill. */
  lemma BillLinear(x: int, y: int, rate: real)
    ensures EstimatedBill(x + y, rate) == EstimatedBill(x, rate) + EstimatedBill(y, rate)
  {
    assert (x + y) as real == x as real + y as real;
    Distribute(x as real, y as real, rate);
  }

  lemma Distribute(x: real, y: real, rate: real)
    ensures (x + y) * rate == x * rate + y * rate
  {
  }

  /** With no stored rate the estimated bill equals the daily usage. */
  lemma DefaultRateBill(hourly: seq<int>)
    ensures EstimatedBill(DailyUsage(hourly), RateOrDefault(None)) == DailyUsage(hourly) as real
  {
  }
}
