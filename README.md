# Water-flow dashboard: tariff engine and series aggregator

This project is a Dafny model of the computing core of a Streamlit dashboard.
The dashboard monitors sixteen simulated flow-rate sensors (`EP_1` … `EP_16`)
and estimates water bills. The dashboard itself is a single file, `app.py`.
Most of that file lays out pages and charts. The model covers the parts that
compute something:

- **Sewage fee** (`SewageFee`, `sewage_fee.dfy`). The tiered sewage charge (하수도 요금) walks an
  ordered list of `(limit, rate)` tiers and stops at the first tier that absorbs the rest of the
  usage. Each limit is that tier's *capacity*: tier *i* always covers the next `limit_i` units,
  not the units between `limit_(i-1)` and `limit_i`. The infinite last limit (`float('inf')`)
  is the constructor `Unlimited`. The method `SewageFee` is the loop with its `break`, proved
  equal to the function `Fee`. The lemmas state the capacity reading, the first-tier case,
  the exact-limit case, non-negativity, monotonicity and "no gap, no overlap".
- **Fee simulation** (`Billing`, `billing.dfy`). This module holds the seeded tariff table for
  Seoul and Busan, household (가정용) and general (일반용) use. Each entry has a water rate (상수도 요금),
  sewage tiers and a water-use levy (물이용부담금). The simulation adds the water charge, the sewage fee and
  the levy. It shows nothing for a usage of zero.
- **Tariff settings** (`TariffSettings`, `tariff_table.dfy`). The table is a class whose `fees` map the
  save button overwrites. Exactly one (region, usage class) entry changes. Capped tier limits and all
  rates take the form's values. An unlimited tier keeps its sentinel.
- **Realtime history** (`Series`, `series.dfy`). The class `History` holds one series of
  `(timestamp, flowRate)` readings per endpoint. `Update` is the refresh step. It appends one sample
  to every series, then keeps the rows strictly newer than ten minutes before `now`.
- **Group view** (`GroupData`, `group_data.dfy`). The member series are concatenated. Then they are
  grouped by exact timestamp and summed, in ascending timestamp order (pandas `groupby` sorts).
  A member with no series stops the loop (a `KeyError` in the dashboard), which the model returns as an
  error naming that member. `IsGroupSeries` states the result independently of the algorithm. The lemmas show that it
  determines the result uniquely. As a consequence, member order does not matter, and a single
  member with ascending timestamps is returned unchanged.
- **Home page figures** (`HourlyUsage`, `hourly_usage.dfy`). This module has the ten-hour window over
  a 24-entry hourly array, which refuses any other length. It also has the daily usage sum and the
  estimated bill, with a default rate of 1.
- **Group settings** (`GroupRegistry`, `group_registry.dfy`). A group is saved only when it has a
  name and at least one endpoint.

Amounts (rates, limits, usage, fees) are exact `real`s. The dashboard uses Python floats, and the Busan
levy is 151.3. Flow rates and hourly usage are `int`, which is the only kind of value the dashboard
produces. Timestamps are `int` microseconds. The clock (`datetime.now()`) and the random sample values
are parameters of the operations that use them.

Three facts of the code shape the model:

- A schedule update does no validation of tier order or of the sentinel.
- The refresh step only touches endpoints that already have a series.
- At a usage exactly equal to a tier's limit, the walk charges that tier and stops. It does not go on
  to the next tier with nothing left. The fee is the same either way.

The estimated bill on the home page reads the session value `water_rate` with a default of 1
(app.py:190). Nothing in `app.py` ever stores `water_rate`, so the estimate always uses the rate 1.

## Model

| member | source | states |
|---|---|---|
| `SewageFee.SewageFee` | app.py:425-435 | The tier loop with its early `break` returns exactly the fee that `Fee` defines |
| `SewageFee.CapacitySemantics` | app.py:428-434 | If the walk stops at tier k, the fee is the full charge (cap·rate) of tiers 0..k-1 plus the rest of the usage at tier k's rate. Limits act as capacities, not cumulative thresholds |
| `SewageFee.FirstTier` | app.py:428-434 | A usage within the first tier costs usage·rate₀, and no later tier can change that |
| `SewageFee.ExactLimitStops` | app.py:429-434 | A usage equal to the first tier's limit is absorbed by that tier (the test is `>`), giving cap·rate |
| `SewageFee.Fee` | app.py:425-435 | The tier walk's fee. With non-negative caps and rates, a non-negative usage costs a non-negative fee |
| `SewageFee.FeeMonotone` | app.py:425-435 | With non-negative caps and rates, the fee never decreases as usage grows |
| `SewageFee.UniformRateChargesEachUnitOnce` | app.py:425-435 | When all rates are equal and the list ends unlimited, the fee is usage·rate: the tiers leave no gap and no overlap |
| `Billing.InitialFees` | app.py:397-422 | The seeded table has all four (region, class) entries. Each is well formed: capped tiers, then one unlimited last tier, with non-negative caps and rates |
| `Billing.Simulate` | app.py:497-504 | A zero usage shows nothing. Otherwise the water charge is usage·water rate, the sewage charge is the tiered fee, the levy is usage·levy rate, and the total is their sum |
| `Billing.SimulateMonotone` | app.py:501-504 | With non-negative rates, the simulated total is non-negative and never decreases with usage |
| `Billing.SeoulHouseholdForty` | app.py:399-403 | Seoul household use of 40 m³ gives water 23200, sewage 30·400 + 10·930 = 21300, levy 6800, and total 51300 |
| `TariffSettings.EditTiers` | app.py:461-470 | The edited tiers keep the list's length and take every new rate. Every capped tier takes its new limit, and every unlimited tier stays unlimited |
| `TariffSettings.EditKeepsWellFormed` | app.py:461-480 | Saving the form's values (limits and rates at least 0) keeps a schedule well formed |
| `TariffSettings.TariffTable.constructor` | app.py:397-422 | The table starts as the seeded table and is valid |
| `TariffSettings.TariffTable.Lookup` | app.py:448 | Reading the entry of a (region, class) pair gives a well-formed schedule |
| `TariffSettings.TariffTable.Save` | app.py:477-480 | The chosen entry becomes (new water rate, edited tiers, new levy). Every other entry is unchanged and the table stays valid |
| `Series.Recent` | app.py:214-216 | The kept rows are exactly the rows newer than the cutoff, each kept as often as it occurs, in their original order (a subsequence) |
| `Series.RecentConcat` | app.py:214-216 | Filtering distributes over concatenation, so retained rows keep their relative order |
| `Series.Refreshed` | app.py:207-216 | After one endpoint's refresh, the new sample is the last row, preceded by the old rows still in the window |
| `Series.RefreshedWithinWindow` | app.py:213-216 | When no row is in the future, every kept row lies in (now − 10 min, now], so two kept rows are less than ten minutes apart |
| `Series.ElevenMinutesLater` | app.py:203-216 | A sample taken eleven minutes before the next refresh is gone after it |
| `Series.History.constructor` | app.py:222-223 | The history starts from the given initial series |
| `Series.History.Update` | app.py:203-216 | Every endpoint's series becomes its old rows newer than now − 10 min, followed by the new sample. The set of endpoints is unchanged |
| `GroupData.Accumulate` | app.py:567 | Adding a row to a grouped series keeps it ascending, adds its timestamp and adds its flow rate to the sum at that timestamp only |
| `GroupData.GroupBy` | app.py:567 | The grouped series is ascending, has exactly the input's timestamps, and has the input's sum at every timestamp |
| `GroupData.GroupSeries` | app.py:559-569 | A member without a series stops the loop with an error naming the first such member; the call fails exactly when some member has no series. Otherwise the result has one row per distinct member timestamp, in ascending order, each holding the sum of all member readings at that exact timestamp |
| `GroupData.Combined` | app.py:562-564 | The concatenated series has exactly the timestamps some member has, and at any instant it sums to the members' own sums added together |
| `GroupData.GroupSeriesSums` | app.py:566-567 | A group series sums, at every instant, to the members' total there (zero where no member has a reading) |
| `GroupData.AscendingUnique` | app.py:567 | Two ascending series with the same timestamps and sums are equal, so the group view is uniquely determined |
| `GroupData.MemberTotalPermutation` | app.py:562-564 | Listing the same members in another order does not change their total |
| `GroupData.GroupSeriesOrderIrrelevant` | app.py:562-567 | The group view depends only on the members, not on their order |
| `GroupData.SingleMember` | app.py:559-569 | A group of one endpoint whose readings are ascending shows that endpoint's series unchanged |
| `GroupData.EmptyGroup` | app.py:559-569 | An empty member list gives an empty view |
| `GroupData.SharedInstant` | app.py:562-567 | Two endpoints reading 10 and 15 at the same instant give one row of 25 |
| `HourlyUsage.RecentHours` | app.py:124-136 | An input whose length is not 24 is refused. Otherwise the result has exactly 10 values, the last being the current hour's, and bar i is hour (hour − 9 + i) mod 24 |
| `HourlyUsage.VisibleHours` | app.py:131-135 | The ten hour labels end at the current hour and step by one hour, wrapping at midnight |
| `HourlyUsage.BarsMatchLabels` | app.py:134-136 | Each bar shows the usage of the hour labelled under it |
| `HourlyUsage.RecentHoursSlices` | app.py:134-136 | From 09:00 on, the window is the slice of the ten hours up to now. Before 09:00 it is the end of the array followed by its start |
| `HourlyUsage.DailyUsage` | app.py:163-164 | The daily usage of hours none of which is negative is not negative |
| `HourlyUsage.DailyUsageConcat` | app.py:163-164 | The daily usage of two stretches of hours is the sum of their usages |
| `HourlyUsage.DailyUsageBounds` | app.py:163-164 | Hourly values within [lo, hi] give a total within [n·lo, n·hi] |
| `HourlyUsage.EstimatedBill` | app.py:166-167 | A non-negative usage at a non-negative rate gives a non-negative bill |
| `HourlyUsage.EstimatedBillAdditive` | app.py:166-167 | The estimated bill of two stretches of hours is the sum of their bills |
| `HourlyUsage.DefaultRateBill` | app.py:189-191 | With no stored rate, the estimated bill equals the daily usage |
| `GroupRegistry.Registry.constructor` | app.py:530-531 | The registry starts from the loaded groups |
| `GroupRegistry.Registry.Save` | app.py:539-546 | A group is stored exactly when the name is non-empty and at least one endpoint is selected. Nothing else changes, and a registry of named, non-empty groups stays so |

## Left out

- Page layout, routing (`set_page`, `main`), the sidebar CSS and the PWA markup are user interface only.
- The Plotly figures (`create_graph`, the figure part of `create_hourly_usage_graph`, all page charts) and the
  `HH:00` label formatting only render.
- Firebase and Firestore (`initialize_firebase`, `get_firestore_data`, `load_groups_from_firestore`,
  `save_groups_to_firestore`) are external storage. Loaded groups are a constructor parameter, and the write after
  a group save is not modelled.
- The random data (`initialize_data`, the random sample in the refresh step, the statistics pages) and the
  `np.mean` averages are synthetic. Samples and initial series are parameters.
- `datetime.now()` and `strftime` are not modelled. The time is a parameter.
- The first `update_data` (app.py:80-92) is shadowed by the second definition and never runs.
- The `pd.to_datetime` conversion inside `calculate_group_data` is a type coercion and is not modelled.
  It writes back into the caller's data, and that in-place effect is not modelled either.
- Python floats are modelled as exact reals: rounding, NaN and the display format `:.2f` are not modelled.
  Negative usage cannot be entered (the input's minimum is 0), so `Billing.Simulate` requires a non-negative usage.
- The `isinstance` test of the hourly chart is not modelled. Only its length check is.
- `Series.History.Update`: the dashboard reads the clock separately for each endpoint's new row and for its
  cutoff, a few microseconds apart. The model uses one `now` for both, so it does not capture the case where
  those separate readings differ.
- `TariffSettings.TariffTable.Save`: in the dashboard the table is a module-level value that is seeded again
  each time Streamlit re-runs the script. A save therefore lasts only for the rest of that run, and the
  simulation page later reads the seeded values again. The model's table keeps a save until the next one.
- `Series.History.Update`: the endpoints are visited in arbitrary order rather than the dictionary's insertion
  order. Each endpoint's update is independent, so the result is the same.
