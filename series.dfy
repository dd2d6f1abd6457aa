/**
 * The per-endpoint flow-rate history kept for the realtime page, and its
 * refresh step (`update_data`): every endpoint receives one new sample and
 * then keeps only the readings of the last ten minutes.
 */
module Series {

  /** An endpoint name such as "EP_1" … "EP_16". */
  type Endpoint = string

  /** A point in time, in microseconds (the resolution of the clock read by the page). */
  type Timestamp = int

  datatype Reading = Reading(timestamp: Timestamp, flowRate: int)

  /** Ten minutes, the retention window of the refresh step. */
  const Retention: int := 10 * 60 * 1_000_000

  /** `a` is `b` with some rows left out and the rest in their original order. */
  predicate Subsequence(a: seq<Reading>, b: seq<Reading>)
    decreases |b|
  {
    if a == [] then true
    else if b == [] then false
    else (a[0] == b[0] && Subsequence(a[1..], b[1..])) || Subsequence(a, b[1..])
  }

  /** The rows whose timestamp is strictly after `cutoff` (the boolean-mask filter). */
  function Recent(rows: seq<Reading>, cutoff: Timestamp): (r: seq<Reading>)
    ensures forall x :: x in r ==> x in rows && x.timestamp > cutoff
    ensures forall x :: x in rows && x.timestamp > cutoff ==> x in r
    ensures Subsequence(r, rows)
    ensures forall x :: multiset(r)[x] == if x.timestamp > cutoff then multiset(rows)[x] else 0
    decreases |rows|
  {
    if rows == [] then []
    else
      assert rows == [rows[0]] + rows[1..];
      if rows[0].timestamp > cutoff then [rows[0]] + Recent(rows[1..], cutoff)
      else Recent(rows[1..], cutoff)
  }

  /** Filtering a row in front of others: it is kept exactly when it is after the cutoff. */
  lemma RecentCons(x: Reading, rest: seq<Reading>, cutoff: Timestamp)
    ensures Recent([x] + rest, cutoff) == (if x.timestamp > cutoff then [x] else []) + Recent(rest, cutoff)
  {
    assert ([x] + rest)[0] == x && ([x] + rest)[1..] == rest;
  }

  lemma AppendAssociative(x: seq<Reading>, y: seq<Reading>, z: seq<Reading>)
    ensures x + (y + z) == (x + y) + z
  {
  }

  /** Filtering distributes over concatenation: the rows that survive keep their relative order. */
  lemma {:induction false} RecentConcat(a: seq<Reading>, b: seq<Reading>, cutoff: Timestamp)
    ensures Recent(a + b, cutoff) == Recent(a, cutoff) + Recent(b, cutoff)
    decreases |a|
  {
    if a == [] {
      assert a + b == b;
    } else {
      var head := if a[0].timestamp > cutoff then [a[0]] else [];
      assert a == [a[0]] + a[1..];
      assert a + b == [a[0]] + (a[1..] + b);
      RecentCons(a[0], a[1..] + b, cutoff);
      RecentCons(a[0], a[1..], cutoff);
      RecentConcat(a[1..], b, cutoff);
      AppendAssociative(head, Recent(a[1..], cutoff), Recent(b, cutoff));
    }
  }

  /**
   * One endpoint's refresh: append the sample taken at `now`, then drop what is
   * ten minutes old. The new sample is always kept, as the last row, behind the
   * old rows still in the window.
   */
  function Refreshed(rows: seq<Reading>, now: Timestamp, value: int): (r: seq<Reading>)
    ensures r == Recent(rows, now - Retention) + [Reading(now, value)]
  {
    RecentConcat(rows, [Reading(now, value)], now - Retention);
    Recent(rows + [Reading(now, value)], now - Retention)
  }

  /**
   * When no row lies in the future, every row kept by a refresh lies in the
   * ten minutes up to `now`, so any two kept rows are less than ten minutes apart.
   */
  lemma RefreshedWithinWindow(rows: seq<Reading>, now: Timestamp, value: int)
    requires forall x :: x in rows ==> x.timestamp <= now
    ensures forall x :: x in Refreshed(rows, now, value) ==> now - Retention < x.timestamp <= now
    ensures forall x, y :: x in Refreshed(rows, now, value) && y in Refreshed(rows, now, value) ==>
      x.timestamp - y.timestamp < Retention
  {
  }

  /** A sample older than ten minutes is gone after the next refresh. */
  lemma ElevenMinutesLater(t0: Timestamp, a: int, b: int)
    ensures Refreshed(Refreshed([], t0, a), t0 + 11 * 60 * 1_000_000, b) ==
      [Reading(t0 + 11 * 60 * 1_000_000, b)]
  {
    var later := t0 + 11 * 60 * 1_000_000;
    assert Recent([Reading(t0, a)], later - Retention) == [];
  }

  /** The session's history: one series per endpoint. */
  class History {
    var series: map<Endpoint, seq<Reading>>

    constructor (initial: map<Endpoint, seq<Reading>>)
      ensures series == initial
    {
      series := initial;
    }

    /**
     * The refresh step. `sample` gives each endpoint's new reading (random in
     * the dashboard) and `now` the time it is taken.
     */
    method Update(now: Timestamp, sample: Endpoint -> int)
      modifies this
      ensures series.Keys == old(series).Keys
      ensures forall ep :: ep in series ==>
        series[ep] == Refreshed(old(series)[ep], now, sample(ep))
      ensures forall ep :: ep in series ==>
        series[ep] == Recent(old(series)[ep], now - Retention) + [Reading(now, sample(ep))]
    {
      ghost var before := series;
      var todo := series.Keys;
      while todo != {}
        invariant todo <= before.Keys && series.Keys == before.Keys
        invariant forall ep :: ep in todo ==> series[ep] == before[ep]
        invariant forall ep :: ep in before && ep !in todo ==>
          series[ep] == Refreshed(before[ep], now, sample(ep))
        decreases todo
      {
        var ep :| ep in todo;
        series := series[ep := Refreshed(series[ep], now, sample(ep))];
        todo := todo - {ep};
      }
    }
  }
}
