/**
 * The group view of the realtime page (`calculate_group_data`): the series of
 * every member endpoint are concatenated, then grouped by exact timestamp with
 * the flow rates of each group summed, giving one row per distinct timestamp
 * in ascending order.
 */
module GroupData {
  import opened Series
  import opened Wrappers

  /** The sum of the flow rates of the rows stamped exactly `t`. */
  function SumAt(rows: seq<Reading>, t: Timestamp): int
    decreases |rows|
  {
    if rows == [] then 0
    else (if rows[0].timestamp == t then rows[0].flowRate else 0) + SumAt(rows[1..], t)
  }

  /** The distinct timestamps of some rows. */
  function Stamps(rows: seq<Reading>): set<Timestamp>
  {
    set x | x in rows :: x.timestamp
  }

  /** Strictly ascending timestamps, hence one row per timestamp. */
  predicate Ascending(rows: seq<Reading>) {
    forall i, j :: 0 <= i < j < |rows| ==> rows[i].timestamp < rows[j].timestamp
  }

  lemma {:induction false} SumAtConcat(a: seq<Reading>, b: seq<Reading>, t: Timestamp)
    ensures SumAt(a + b, t) == SumAt(a, t) + SumAt(b, t)
    decreases |a|
  {
    if a == [] {
      assert a + b == b;
    } else {
      assert (a + b)[0] == a[0] && (a + b)[1..] == a[1..] + b;
      SumAtConcat(a[1..], b, t);
    }
  }

  /** In an ascending series the sum at a row's timestamp is that row's own flow rate. */
  lemma {:induction false} AscendingSumAt(rows: seq<Reading>, k: nat)
    requires Ascending(rows) && k < |rows|
    ensures SumAt(rows, rows[k].timestamp) == rows[k].flowRate
    decreases |rows|
  {
    if k == 0 {
      AscendingSumAtAbsent(rows[1..], rows[0].timestamp);
    } else {
      assert rows[1..][k - 1] == rows[k];
      AscendingSumAt(rows[1..], k - 1);
    }
  }

  /** Rows all later than `t` contribute nothing at `t`. */
  lemma {:induction false} AscendingSumAtAbsent(rows: seq<Reading>, t: Timestamp)
    requires forall x :: x in rows ==> x.timestamp > t
    ensures SumAt(rows, t) == 0
    decreases |rows|
  {
    if rows != [] {
      assert rows[0] in rows;
      assert forall x :: x in rows[1..] ==> x in rows;
      AscendingSumAtAbsent(rows[1..], t);
    }
  }

  lemma ConsSumAt(x: Reading, rows: seq<Reading>, t: Timestamp)
    ensures SumAt([x] + rows, t) == (if x.timestamp == t then x.flowRate else 0) + SumAt(rows, t)
  {
  }

  lemma ConsStamps(x: Reading, rows: seq<Reading>)
    ensures Stamps([x] + rows) == {x.timestamp} + Stamps(rows)
  {
  }

  /** Add one row to an already grouped series. */
  function Accumulate(acc: seq<Reading>, x: Reading): (r: seq<Reading>)
    requires Ascending(acc)
    ensures Ascending(r)
    ensures Stamps(r) == Stamps(acc) + {x.timestamp}
    ensures forall t :: SumAt(r, t) == SumAt(acc, t) + (if t == x.timestamp then x.flowRate else 0)
    decreases |acc|
  {
    if acc == [] then
      assert forall t :: SumAt([x], t) == SumAt([x] + [], t);
      assert forall t :: SumAt([x], t) == (if x.timestamp == t then x.flowRate else 0) by {
        forall t ensures SumAt([x], t) == (if x.timestamp == t then x.flowRate else 0) { ConsSumAt(x, [], t); }
      }
      assert Stamps([x]) == {x.timestamp} by { ConsStamps(x, []); }
      [x]
    else if x.timestamp < acc[0].timestamp then
      AccumulateFront(acc, x)
    else if x.timestamp == acc[0].timestamp then
      AccumulateMerge(acc, x)
    else
      var rest := Accumulate(acc[1..], x);
      AccumulateBehind(acc, x, rest)
  }

  /** A row earlier than every grouped row goes in front. */
  function AccumulateFront(acc: seq<Reading>, x: Reading): (r: seq<Reading>)
    requires Ascending(acc) && acc != [] && x.timestamp < acc[0].timestamp
    ensures r == [x] + acc
    ensures Ascending(r)
    ensures Stamps(r) == Stamps(acc) + {x.timestamp}
    ensures forall t :: SumAt(r, t) == SumAt(acc, t) + (if t == x.timestamp then x.flowRate else 0)
  {
    ConsStamps(x, acc);
    forall t ensures SumAt([x] + acc, t) == SumAt(acc, t) + (if t == x.timestamp then x.flowRate else 0) {
      ConsSumAt(x, acc, t);
    }
    [x] + acc
  }

  /** A row at the first grouped timestamp is added into that row. */
  function AccumulateMerge(acc: seq<Reading>, x: Reading): (r: seq<Reading>)
    requires Ascending(acc) && acc != [] && x.timestamp == acc[0].timestamp
    ensures Ascending(r)
    ensures Stamps(r) == Stamps(acc) + {x.timestamp}
    ensures forall t :: SumAt(r, t) == SumAt(acc, t) + (if t == x.timestamp then x.flowRate else 0)
  {
    var y := Reading(x.timestamp, acc[0].flowRate + x.flowRate);
    assert acc == [acc[0]] + acc[1..];
    ConsStamps(y, acc[1..]);
    ConsStamps(acc[0], acc[1..]);
    forall t ensures SumAt([y] + acc[1..], t) == SumAt(acc, t) + (if t == x.timestamp then x.flowRate else 0) {
      ConsSumAt(y, acc[1..], t);
      ConsSumAt(acc[0], acc[1..], t);
    }
    [y] + acc[1..]
  }

  /** Putting a row before rows that are all later keeps the series ascending. */
  lemma ConsAscending(x: Reading, rows: seq<Reading>)
    requires Ascending(rows)
    requires forall t :: t in Stamps(rows) ==> t > x.timestamp
    ensures Ascending([x] + rows)
  {
    assert forall i :: 0 <= i < |rows| ==> rows[i].timestamp in Stamps(rows);
  }

  /** In an ascending series every later row has a later timestamp than the first. */
  lemma AscendingFirst(acc: seq<Reading>)
    requires Ascending(acc) && acc != []
    ensures forall t :: t in Stamps(acc[1..]) ==> t > acc[0].timestamp
  {
  }

  /** A row later than the first grouped row is accumulated into the rest. */
  function AccumulateBehind(acc: seq<Reading>, x: Reading, rest: seq<Reading>): (r: seq<Reading>)
    requires Ascending(acc) && acc != [] && x.timestamp > acc[0].timestamp
    requires Ascending(rest)
    requires Stamps(rest) == Stamps(acc[1..]) + {x.timestamp}
    requires forall t :: SumAt(rest, t) == SumAt(acc[1..], t) + (if t == x.timestamp then x.flowRate else 0)
    ensures Ascending(r)
    ensures Stamps(r) == Stamps(acc) + {x.timestamp}
    ensures forall t :: SumAt(r, t) == SumAt(acc, t) + (if t == x.timestamp then x.flowRate else 0)
  {
    assert acc == [acc[0]] + acc[1..];
    ConsStamps(acc[0], rest);
    ConsStamps(acc[0], acc[1..]);
    AscendingFirst(acc);
    ConsAscending(acc[0], rest);
    forall t ensures SumAt([acc[0]] + rest, t) == SumAt(acc, t) + (if t == x.timestamp then x.flowRate else 0) {
      ConsSumAt(acc[0], rest, t);
      ConsSumAt(acc[0], acc[1..], t);
    }
    [acc[0]] + rest
  }

  /** Group by exact timestamp and sum, sorted by timestamp. */
  function GroupBy(rows: seq<Reading>): (r: seq<Reading>)
    ensures Ascending(r)
    ensures Stamps(r) == Stamps(rows)
    ensures forall t :: SumAt(r, t) == SumAt(rows, t)
    decreases |rows|
  {
    if rows == [] then []
    else
      var init, last := rows[..|rows| - 1], rows[|rows| - 1];
      assert rows == init + [last];
      assert Stamps(rows) == Stamps(init) + {last.timestamp};
      var r := Accumulate(GroupBy(init), last);
      assert forall t :: SumAt(rows, t) == SumAt(init, t) + (if t == last.timestamp then last.flowRate else 0) by {
        forall t ensures SumAt(rows, t) == SumAt(init, t) + (if t == last.timestamp then last.flowRate else 0) {
          SumAtConcat(init, [last], t);
          ConsSumAt(last, [], t);
          assert [last] + [] == [last];
        }
      }
      r
  }

  /** Dropping the first row of an ascending series removes exactly its timestamp. */
  lemma AscendingTail(a: seq<Reading>)
    requires Ascending(a) && a != []
    ensures Ascending(a[1..])
    ensures Stamps(a[1..]) == Stamps(a) - {a[0].timestamp}
    ensures forall t :: SumAt(a[1..], t) == SumAt(a, t) - (if t == a[0].timestamp then a[0].flowRate else 0)
  {
  }

  /** Two ascending series with the same timestamps and the same sums are equal. */
  lemma {:induction false} AscendingUnique(a: seq<Reading>, b: seq<Reading>)
    requires Ascending(a) && Ascending(b) && Stamps(a) == Stamps(b)
    requires forall t :: SumAt(a, t) == SumAt(b, t)
    ensures a == b
    decreases |a|
  {
    if b != [] { assert b[0].timestamp in Stamps(b); }
    if a == [] {
      assert Stamps(a) == {};
    } else {
      SameFirstRow(a, b);
      AscendingTail(a);
      AscendingTail(b);
      AscendingUnique(a[1..], b[1..]);
      assert a == [a[0]] + a[1..] && b == [b[0]] + b[1..];
    }
  }

  /** Two such series start with the same row: the earliest timestamp, with its sum. */
  lemma SameFirstRow(a: seq<Reading>, b: seq<Reading>)
    requires a != [] && Ascending(a) && Ascending(b) && Stamps(a) == Stamps(b)
    requires forall t :: SumAt(a, t) == SumAt(b, t)
    ensures b != [] && a[0] == b[0]
  {
    assert a[0].timestamp in Stamps(b);
    assert b[0].timestamp in Stamps(a);
    var ia :| 0 <= ia < |a| && a[ia].timestamp == b[0].timestamp;
    var ib :| 0 <= ib < |b| && b[ib].timestamp == a[0].timestamp;
    assert a[0].timestamp == b[0].timestamp;
    AscendingSumAt(a, 0);
    AscendingSumAt(b, 0);
  }

  /** Reference sum: the members' own sums at `t`, added up member by member. */
  function MemberTotal(members: seq<Endpoint>, data: map<Endpoint, seq<Reading>>, t: Timestamp): int
    requires forall ep :: ep in members ==> ep in data
    decreases |members|
  {
    if members == [] then 0
    else MemberTotal(members[..|members| - 1], data, t) + SumAt(data[members[|members| - 1]], t)
  }

  /** Reference timestamps: every timestamp some member has a reading at. */
  function MemberStamps(members: seq<Endpoint>, data: map<Endpoint, seq<Reading>>): set<Timestamp>
    requires forall ep :: ep in members ==> ep in data
  {
    set ep, x | ep in members && x in data[ep] :: x.timestamp
  }

  /**
   * The member series concatenated in member order (`pd.concat` in the loop):
   * it has exactly the timestamps some member has, and at every instant it sums
   * to the members' own sums added together.
   */
  function Combined(members: seq<Endpoint>, data: map<Endpoint, seq<Reading>>): (r: seq<Reading>)
    requires forall ep :: ep in members ==> ep in data
    ensures Stamps(r) == MemberStamps(members, data)
    ensures forall t :: SumAt(r, t) == MemberTotal(members, data, t)
    decreases |members|
  {
    if members == [] then []
    else
      var c := Combined(members[..|members| - 1], data);
      AppendMember(members, data, c);
      c + data[members[|members| - 1]]
  }

  /** Appending the last member's series to the concatenation of the others. */
  lemma AppendMember(members: seq<Endpoint>, data: map<Endpoint, seq<Reading>>, c: seq<Reading>)
    requires members != [] && forall ep :: ep in members ==> ep in data
    requires Stamps(c) == MemberStamps(members[..|members| - 1], data)
    requires forall t :: SumAt(c, t) == MemberTotal(members[..|members| - 1], data, t)
    ensures Stamps(c + data[members[|members| - 1]]) == MemberStamps(members, data)
    ensures forall t :: SumAt(c + data[members[|members| - 1]], t) == MemberTotal(members, data, t)
  {
    var init, last := members[..|members| - 1], members[|members| - 1];
    assert members == init + [last];
    var d := c + data[last];
    assert Stamps(d) == Stamps(c) + Stamps(data[last]);
    forall t | t in MemberStamps(members, data) ensures t in Stamps(d) {
      var ep, x :| ep in members && x in data[ep] && x.timestamp == t;
      if ep != last { assert ep in init; }
    }
    forall t ensures SumAt(d, t) == MemberTotal(members, data, t) {
      SumAtConcat(c, data[last], t);
    }
  }

  /**
   * What the group view is: ascending timestamps, exactly the timestamps some
   * member has a reading at, and at each the sum of every member reading
   * stamped exactly then.
   */
  predicate IsGroupSeries(total: seq<Reading>, members: seq<Endpoint>, data: map<Endpoint, seq<Reading>>)
    requires forall ep :: ep in members ==> ep in data
  {
    && Ascending(total)
    && Stamps(total) == MemberStamps(members, data)
    && forall k :: 0 <= k < |total| ==> total[k].flowRate == MemberTotal(members, data, total[k].timestamp)
  }

  /** Member j is the first member without a series. */
  predicate FirstUnknown(members: seq<Endpoint>, data: map<Endpoint, seq<Reading>>, j: int) {
    0 <= j < |members| && members[j] !in data && forall i :: 0 <= i < j ==> members[i] in data
  }

  /** Why the group view cannot be computed: a member has no series (the `KeyError` of the loop). */
  datatype GroupError = UnknownEndpoint(ep: Endpoint)

  /**
   * The group view of the realtime page: concatenate the member series in
   * member order, then group and sum. The first member without a series stops
   * the loop with an error naming it.
   */
  method GroupSeries(members: seq<Endpoint>, data: map<Endpoint, seq<Reading>>)
    returns (r: Result<seq<Reading>, GroupError>)
    ensures r.Err? <==> exists ep :: ep in members && ep !in data
    ensures r.Err? ==> exists j :: FirstUnknown(members, data, j) && members[j] == r.error.ep
    ensures r.Ok? ==> (forall ep :: ep in members ==> ep in data) && IsGroupSeries(r.value, members, data)
  {
    var combined := [];
    var i := 0;
    while i < |members|
      invariant 0 <= i <= |members|
      invariant forall k :: 0 <= k < i ==> members[k] in data
      invariant combined == Combined(members[..i], data)
    {
      if members[i] !in data {
        return Err(UnknownEndpoint(members[i]));
      }
      assert members[..i + 1][..i] == members[..i];
      combined := combined + data[members[i]];
      i := i + 1;
    }
    assert members[..i] == members;
    var total := GroupBy(combined);
    forall k | 0 <= k < |total|
      ensures total[k].flowRate == MemberTotal(members, data, total[k].timestamp)
    {
      AscendingSumAt(total, k);
    }
    r := Ok(total);
  }

  lemma SumAtAbsent(rows: seq<Reading>, t: Timestamp)
    requires t !in Stamps(rows)
    ensures SumAt(rows, t) == 0
  {
  }

  /** A group series sums, at every instant, to the members' total there (zero where nobody has a reading). */
  lemma {:induction false} GroupSeriesSums(total: seq<Reading>, members: seq<Endpoint>, data: map<Endpoint, seq<Reading>>, t: Timestamp)
    requires forall ep :: ep in members ==> ep in data
    requires IsGroupSeries(total, members, data)
    ensures SumAt(total, t) == MemberTotal(members, data, t)
  {
    if t in Stamps(total) {
      var k :| 0 <= k < |total| && total[k].timestamp == t;
      AscendingSumAt(total, k);
    } else {
      SumAtAbsent(total, t);
      SumAtAbsent(Combined(members, data), t);
    }
  }

  lemma {:induction false} MemberTotalConcat(a: seq<Endpoint>, b: seq<Endpoint>, data: map<Endpoint, seq<Reading>>, t: Timestamp)
    requires forall ep :: ep in a + b ==> ep in data
    ensures MemberTotal(a + b, data, t) == MemberTotal(a, data, t) + MemberTotal(b, data, t)
    decreases |b|
  {
    if b == [] {
      assert a + b == a;
    } else {
      var ab := a + b;
      assert ab[..|ab| - 1] == a + b[..|b| - 1] && ab[|ab| - 1] == b[|b| - 1];
      MemberTotalConcat(a, b[..|b| - 1], data, t);
    }
  }

  /** Taking member j out of the list. */
  lemma RemoveMember(m: seq<Endpoint>, j: nat, data: map<Endpoint, seq<Reading>>, t: Timestamp)
    requires j < |m| && forall ep :: ep in m ==> ep in data
    ensures multiset(m) == multiset(m[..j] + m[j + 1..]) + multiset{m[j]}
    ensures forall ep :: ep in m[..j] + m[j + 1..] ==> ep in data
    ensures MemberTotal(m, data, t) == MemberTotal(m[..j] + m[j + 1..], data, t) + SumAt(data[m[j]], t)
  {
    assert m == m[..j] + [m[j]] + m[j + 1..];
    assert forall ep :: ep in m[..j] + m[j + 1..] ==> ep in m;
    MemberTotalConcat(m[..j] + [m[j]], m[j + 1..], data, t);
    MemberTotalConcat(m[..j], [m[j]], data, t);
    MemberTotalConcat(m[..j], m[j + 1..], data, t);
    assert [m[j]][..0] == [];
  }

  lemma MultisetCancel(a: multiset<Endpoint>, b: multiset<Endpoint>, x: Endpoint)
    requires a + multiset{x} == b + multiset{x}
    ensures a == b
  {
    forall e ensures a[e] == b[e] {
      assert (a + multiset{x})[e] == (b + multiset{x})[e];
    }
  }

  /** Listing the same members in another order does not change their total. */
  lemma {:induction false} MemberTotalPermutation(m1: seq<Endpoint>, m2: seq<Endpoint>, data: map<Endpoint, seq<Reading>>, t: Timestamp)
    requires forall ep :: ep in m1 ==> ep in data
    requires multiset(m1) == multiset(m2)
    ensures forall ep :: ep in m2 ==> ep in data
    ensures MemberTotal(m1, data, t) == MemberTotal(m2, data, t)
    decreases |m1|
  {
    assert forall ep :: ep in m2 <==> ep in multiset(m2);
    if m1 == [] {
      assert |multiset(m2)| == 0;
    } else {
      var init, last := m1[..|m1| - 1], m1[|m1| - 1];
      assert m1 == init + [last];
      assert last in multiset(m2);
      var j :| 0 <= j < |m2| && m2[j] == last;
      RemoveMember(m2, j, data, t);
      var rest := m2[..j] + m2[j + 1..];
      assert multiset(m1) == multiset(init) + multiset{last};
      MultisetCancel(multiset(init), multiset(rest), last);
      MemberTotalPermutation(init, rest, data, t);
    }
  }

  /**
   * The group view is determined by which endpoints are members, counted
   * with multiplicity: the order they are listed in does not matter.
   */
  lemma GroupSeriesOrderIrrelevant(t1: seq<Reading>, m1: seq<Endpoint>, t2: seq<Reading>, m2: seq<Endpoint>,
                                   data: map<Endpoint, seq<Reading>>)
    requires forall ep :: ep in m1 ==> ep in data
    requires multiset(m1) == multiset(m2)
    requires IsGroupSeries(t1, m1, data)
    requires (forall ep :: ep in m2 ==> ep in data) && IsGroupSeries(t2, m2, data)
    ensures t1 == t2
  {
    assert forall ep :: ep in m1 <==> ep in m2 by {
      assert forall ep :: ep in m1 <==> ep in multiset(m1);
      assert forall ep :: ep in m2 <==> ep in multiset(m2);
    }
    assert MemberStamps(m1, data) == MemberStamps(m2, data);
    forall t ensures SumAt(t1, t) == SumAt(t2, t) {
      GroupSeriesSums(t1, m1, data, t);
      GroupSeriesSums(t2, m2, data, t);
      MemberTotalPermutation(m1, m2, data, t);
    }
    AscendingUnique(t1, t2);
  }

  /** The group view of one member whose readings are already ascending is that member's series. */
  lemma SingleMember(total: seq<Reading>, ep: Endpoint, data: map<Endpoint, seq<Reading>>)
    requires ep in data && Ascending(data[ep])
    requires IsGroupSeries(total, [ep], data)
    ensures total == data[ep]
  {
    assert Combined([ep], data) == data[ep] by { assert [ep][..0] == []; }
    forall t ensures SumAt(total, t) == SumAt(data[ep], t) {
      GroupSeriesSums(total, [ep], data, t);
    }
    AscendingUnique(total, data[ep]);
  }

  lemma StampsEmpty(rows: seq<Reading>)
    ensures Stamps(rows) == {} ==> rows == []
  {
    if rows != [] { assert rows[0].timestamp in Stamps(rows); }
  }

  /** An empty group has an empty view. */
  lemma EmptyGroup(total: seq<Reading>, data: map<Endpoint, seq<Reading>>)
    requires IsGroupSeries(total, [], data)
    ensures total == []
  {
    assert MemberStamps([], data) == {};
    StampsEmpty(total);
  }

  /** Two endpoints reading 10 and 15 at the same instant give one group row of 25. */
  lemma SharedInstant(total: seq<Reading>, t: Timestamp)
    requires IsGroupSeries(total, ["EP_1", "EP_2"], map["EP_1" := [Reading(t, 10)], "EP_2" := [Reading(t, 15)]])
    ensures total == [Reading(t, 25)]
  {
    var members: seq<Endpoint> := ["EP_1", "EP_2"];
    var data := map["EP_1" := [Reading(t, 10)], "EP_2" := [Reading(t, 15)]];
    var expected := [Reading(t, 25)];
    assert MemberStamps(members, data) == {t};
    assert Stamps(expected) == {t};
    assert members[..1] == ["EP_1"] && members[..1][..0] == [];
    assert SumAt([Reading(t, 10)], t) == 10 by { ConsSumAt(Reading(t, 10), [], t); assert [Reading(t, 10)] + [] == [Reading(t, 10)]; }
    assert SumAt([Reading(t, 15)], t) == 15 by { ConsSumAt(Reading(t, 15), [], t); assert [Reading(t, 15)] + [] == [Reading(t, 15)]; }
    assert MemberTotal(members[..1], data, t) == 10;
    assert MemberTotal(members, data, t) == 25;
    assert IsGroupSeries(expected, members, data);
    GroupSeriesOrderIrrelevant(total, members, expected, members, data);
  }
}
