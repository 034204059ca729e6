/** The analytics page (`src/pages/Analytics.tsx`): totals of the three
    engagement counters, one chart row per property, and traffic visits
    grouped by source name. */
module Analytics {
  import opened Types
  import opened Seqs
  import opened Store

  // ---------------------------------------------------------------------
  // Totals
  // ---------------------------------------------------------------------

  /** `properties.reduce((sum, p) => sum + p.<counter>, 0)`: the counter
      added up from the left, starting at 0. */
  function ReduceCounter(ps: seq<Property>, m: Metric): (r: int)
    ensures (forall i :: 0 <= i < |ps| ==> ps[i].Counter(m) >= 0) ==> r >= 0
  {
    if ps == [] then 0 else ReduceCounter(ps[..|ps| - 1], m) + ps[|ps| - 1].Counter(m)
  }

  /** The sum from the left is the sum from the right. */
  lemma {:induction false} ReduceCounterIsTotal(ps: seq<Property>, m: Metric)
    ensures ReduceCounter(ps, m) == CounterTotal(ps, m)
    decreases |ps|
  {
    if ps != [] {
      var n := |ps| - 1;
      ReduceCounterIsTotal(ps[..n], m);
      CounterTotalSnoc(ps[..n], ps[n], m);
      assert ps[..n] + [ps[n]] == ps;
    }
  }

  lemma {:induction false} CounterTotalSnoc(ps: seq<Property>, p: Property, m: Metric)
    ensures CounterTotal(ps + [p], m) == CounterTotal(ps, m) + p.Counter(m)
    decreases |ps|
  {
    if ps != [] {
      assert (ps + [p])[1..] == ps[1..] + [p];
      CounterTotalSnoc(ps[1..], p, m);
    }
  }

  /** `totalViews`, `totalClicks` and `totalScans`: each `reduce` yields the
      counter's total over the collection. */
  function TotalViews(ps: seq<Property>): (r: int)
    ensures r == CounterTotal(ps, Views)
  {
    ReduceCounterIsTotal(ps, Views);
    ReduceCounter(ps, Views)
  }

  function TotalClicks(ps: seq<Property>): (r: int)
    ensures r == CounterTotal(ps, LinkClicks)
  {
    ReduceCounterIsTotal(ps, LinkClicks);
    ReduceCounter(ps, LinkClicks)
  }

  function TotalScans(ps: seq<Property>): (r: int)
    ensures r == CounterTotal(ps, QrCodeScans)
  {
    ReduceCounterIsTotal(ps, QrCodeScans);
    ReduceCounter(ps, QrCodeScans)
  }

  /** Number of properties in `ps` whose id is `id`. */
  function CountWithId(ps: seq<Property>, id: string): nat
  {
    if ps == [] then 0 else (if ps[0].id == id then 1 else 0) + CountWithId(ps[1..], id)
  }

  /** An increment raises the page's total for that metric by the number
      of properties carrying the id (one in a valid store) and leaves the
      other two totals alone. */
  lemma {:induction false} IncrementRaisesTotal(ps: seq<Property>, id: string, m: Metric, k: Metric)
    ensures var r := IncrementPropertyMetric(State(ps, [], [], []), id, m).properties;
      CounterTotal(r, k) == CounterTotal(ps, k) + (if k == m then CountWithId(ps, id) else 0)
    decreases |ps|
  {
    if ps != [] {
      var r := IncrementPropertyMetric(State(ps, [], [], []), id, m).properties;
      var r' := IncrementPropertyMetric(State(ps[1..], [], [], []), id, m).properties;
      assert r[1..] == r';
      IncrementRaisesTotal(ps[1..], id, m, k);
    }
  }

  /** A property id that occurs once is counted once. */
  lemma {:induction false} CountWithIdOfDistinct(ps: seq<Property>, id: string)
    requires Distinct(PropertyIds(ps)) && id in PropertyIds(ps)
    ensures CountWithId(ps, id) == 1
    decreases |ps|
  {
    var rest := ps[1..];
    assert PropertyIds(rest) == PropertyIds(ps)[1..];
    if ps[0].id == id {
      CountWithIdAbsent(rest, id);
    } else {
      CountWithIdOfDistinct(rest, id);
    }
  }

  lemma {:induction false} CountWithIdAbsent(ps: seq<Property>, id: string)
    requires id !in PropertyIds(ps)
    ensures CountWithId(ps, id) == 0
    decreases |ps|
  {
    if ps != [] {
      assert PropertyIds(ps[1..]) == PropertyIds(ps)[1..];
      CountWithIdAbsent(ps[1..], id);
    }
  }

  // ---------------------------------------------------------------------
  // Property performance rows
  // ---------------------------------------------------------------------

  datatype PropertyRow = PropertyRow(name: string, views: int, clicks: int, scans: int)

  /** `propertyData`: one row per property, in collection order, labelled
      with the title and copying the three counters. */
  function PropertyData(ps: seq<Property>): (r: seq<PropertyRow>)
    ensures |r| == |ps|
    ensures forall i :: 0 <= i < |ps| ==>
      r[i] == PropertyRow(ps[i].listing.title, ps[i].views, ps[i].linkClicks, ps[i].qrCodeScans)
  {
    seq(|ps|, i requires 0 <= i < |ps| =>
      PropertyRow(ps[i].listing.title, ps[i].views, ps[i].linkClicks, ps[i].qrCodeScans))
  }

  function RowViews(rows: seq<PropertyRow>): int
  {
    if rows == [] then 0 else rows[0].views + RowViews(rows[1..])
  }

  /** The chart's view bars add up to the views card. */
  lemma {:induction false} RowsAddUpToTotal(ps: seq<Property>)
    ensures RowViews(PropertyData(ps)) == TotalViews(ps)
    decreases |ps|
  {
    if ps != [] {
      assert PropertyData(ps)[1..] == PropertyData(ps[1..]);
      RowsAddUpToTotal(ps[1..]);
    }
  }

  // ---------------------------------------------------------------------
  // Traffic grouped by source name
  // ---------------------------------------------------------------------

  datatype TrafficDatum = TrafficDatum(name: string, visits: int)

  function DatumNames(d: seq<TrafficDatum>): (r: seq<string>)
    ensures |r| == |d| && forall i :: 0 <= i < |d| ==> r[i] == d[i].name
  {
    seq(|d|, i requires 0 <= i < |d| => d[i].name)
  }

  function DatumTotal(d: seq<TrafficDatum>): int
  {
    if d == [] then 0 else d[0].visits + DatumTotal(d[1..])
  }

  /** The reducer's step: add the source's visits to the first entry with
      its name, or push a new entry for it. */
  function Accumulate(acc: seq<TrafficDatum>, src: TrafficSource): (r: seq<TrafficDatum>)
    ensures |acc| <= |r| <= |acc| + 1
  {
    if acc == [] then [TrafficDatum(src.name, src.visits)]
    else if acc[0].name == src.name then [acc[0].(visits := acc[0].visits + src.visits)] + acc[1..]
    else [acc[0]] + Accumulate(acc[1..], src)
  }

  /** Position of the first entry called `name`, or `|acc|` when there is
      none: where `acc.find(d => d.name === name)` lands. */
  function NameIndex(acc: seq<TrafficDatum>, name: string): (r: nat)
    ensures r <= |acc|
  {
    if acc == [] then 0 else if acc[0].name == name then 0 else 1 + NameIndex(acc[1..], name)
  }

  lemma {:induction false} NameIndexIsFirstIndex(acc: seq<TrafficDatum>, name: string)
    ensures NameIndex(acc, name) == FirstIndex(DatumNames(acc), name)
    decreases |acc|
  {
    if acc != [] {
      assert DatumNames(acc)[0] == acc[0].name;
      if acc[0].name != name {
        assert DatumNames(acc)[1..] == DatumNames(acc[1..]);
        NameIndexIsFirstIndex(acc[1..], name);
      }
    }
  }

  /** The step changes the entry `find` lands on, or appends one when it
      finds none, and leaves every other entry as it was. */
  lemma {:induction false} AccumulateEntries(acc: seq<TrafficDatum>, src: TrafficSource)
    ensures var r := Accumulate(acc, src);
      var f := NameIndex(acc, src.name);
      && |r| == (if f < |acc| then |acc| else |acc| + 1)
      && (forall i :: 0 <= i < |acc| && i != f ==> r[i] == acc[i])
      && (f < |acc| ==> r[f] == acc[f].(visits := acc[f].visits + src.visits))
      && (f == |acc| ==> r[f] == TrafficDatum(src.name, src.visits))
    decreases |acc|
  {
    var r := Accumulate(acc, src);
    if acc != [] && acc[0].name == src.name {
      assert r[1..] == acc[1..];
      forall i | 0 < i < |acc| ensures r[i] == acc[i] {
        assert r[i] == r[1..][i - 1];
      }
    } else if acc != [] {
      var rest := Accumulate(acc[1..], src);
      AccumulateEntries(acc[1..], src);
      var g := NameIndex(acc[1..], src.name);
      assert r == [acc[0]] + rest;
      forall i | 0 < i < |acc| && i != 1 + g ensures r[i] == acc[i] {
        assert r[i] == rest[i - 1] && acc[i] == acc[1..][i - 1];
      }
    }
  }

  /** The step keeps existing names in place and appends a new one. */
  lemma AccumulateNames(acc: seq<TrafficDatum>, src: TrafficSource)
    ensures DatumNames(Accumulate(acc, src)) ==
      if src.name in DatumNames(acc) then DatumNames(acc) else DatumNames(acc) + [src.name]
  {
    var r := Accumulate(acc, src);
    var names := DatumNames(acc);
    var expected := if src.name in names then names else names + [src.name];
    AccumulateEntries(acc, src);
    NameIndexIsFirstIndex(acc, src.name);
    assert |DatumNames(r)| == |expected|;
    forall i | 0 <= i < |r| ensures DatumNames(r)[i] == expected[i] {
      if i < |acc| {
        assert names[i] == acc[i].name;
      }
    }
  }

  /** The step adds the source's visits to the first entry with its name
      and to no other, or to the new entry it appends. */
  lemma AccumulateVisits(acc: seq<TrafficDatum>, src: TrafficSource)
    ensures var r := Accumulate(acc, src);
      && |r| >= |acc|
      && (forall i :: 0 <= i < |acc| ==>
            r[i].visits == acc[i].visits + (if i == FirstIndex(DatumNames(acc), src.name) then src.visits else 0))
      && (src.name !in DatumNames(acc) ==> |r| == |acc| + 1 && r[|acc|].visits == src.visits)
      && DatumTotal(r) == DatumTotal(acc) + src.visits
  {
    AccumulateEntries(acc, src);
    NameIndexIsFirstIndex(acc, src.name);
    AccumulateTotal(acc, src);
  }

  lemma {:induction false} AccumulateTotal(acc: seq<TrafficDatum>, src: TrafficSource)
    ensures DatumTotal(Accumulate(acc, src)) == DatumTotal(acc) + src.visits
    decreases |acc|
  {
    var r := Accumulate(acc, src);
    if acc != [] && acc[0].name == src.name {
      assert r[1..] == acc[1..];
    } else if acc != [] {
      AccumulateTotal(acc[1..], src);
      assert r[1..] == Accumulate(acc[1..], src);
    }
  }

  /** `trafficData`: `trafficSources.reduce(...)` from the empty list. */
  function TrafficData(ts: seq<TrafficSource>): (r: seq<TrafficDatum>)
    ensures |r| <= |ts|
    ensures ts != [] ==> r != []
  {
    if ts == [] then [] else Accumulate(TrafficData(ts[..|ts| - 1]), ts[|ts| - 1])
  }

  /** Sum of visits over the sources called `name`. */
  function VisitsNamed(ts: seq<TrafficSource>, name: string): int
  {
    if ts == [] then 0
    else VisitsNamed(ts[..|ts| - 1], name) + (if ts[|ts| - 1].name == name then ts[|ts| - 1].visits else 0)
  }

  lemma {:induction false} VisitsNamedAbsent(ts: seq<TrafficSource>, name: string)
    requires name !in TrafficNames(ts)
    ensures VisitsNamed(ts, name) == 0
    decreases |ts|
  {
    if ts != [] {
      var ts' := ts[..|ts| - 1];
      assert TrafficNames(ts') == TrafficNames(ts)[..|ts| - 1];
      VisitsNamedAbsent(ts', name);
    }
  }

  lemma TrafficNamesSnoc(ts: seq<TrafficSource>)
    requires ts != []
    ensures TrafficNames(ts) == TrafficNames(ts[..|ts| - 1]) + [ts[|ts| - 1].name]
  {
  }

  /** The grouped traffic lists every source name exactly once, in order of
      first appearance. */
  lemma {:induction false} TrafficDataNames(ts: seq<TrafficSource>)
    ensures IsKeyOrder(DatumNames(TrafficData(ts)), TrafficNames(ts))
    decreases |ts|
  {
    if ts != [] {
      var n := |ts| - 1;
      var prefix := ts[..n];
      TrafficDataNames(prefix);
      var acc := TrafficData(prefix);
      AccumulateNames(acc, ts[n]);
      TrafficNamesSnoc(ts);
      KeyOrderStep(DatumNames(acc), TrafficNames(prefix), ts[n].name, DatumNames(TrafficData(ts)), TrafficNames(ts));
    }
  }

  /** No visit is lost or counted twice by the grouping. */
  lemma {:induction false} TrafficDataTotal(ts: seq<TrafficSource>)
    ensures DatumTotal(TrafficData(ts)) == TotalVisits(ts)
    decreases |ts|
  {
    if ts != [] {
      var n := |ts| - 1;
      TrafficDataTotal(ts[..n]);
      AccumulateVisits(TrafficData(ts[..n]), ts[n]);
    }
  }

  /** Every entry of `d` holds the visits of all sources in `ts` with its name. */
  ghost predicate EntriesHoldSums(d: seq<TrafficDatum>, ts: seq<TrafficSource>) {
    forall i :: 0 <= i < |d| ==> d[i].visits == VisitsNamed(ts, d[i].name)
  }

  /** One reducer step keeps "each entry holds the visits of its name". */
  lemma {:induction false} AccumulateKeepsSums(acc: seq<TrafficDatum>, prefix: seq<TrafficSource>, src: TrafficSource, i: nat)
    requires IsKeyOrder(DatumNames(acc), TrafficNames(prefix))
    requires EntriesHoldSums(acc, prefix)
    requires i < |Accumulate(acc, src)|
    ensures var d := Accumulate(acc, src);
      d[i].visits == VisitsNamed(prefix + [src], d[i].name)
  {
    var ts := prefix + [src];
    assert ts[..|ts| - 1] == prefix;
    if i < |acc| {
      AccumulateKeepsOldSum(acc, prefix, src, i);
    } else {
      AccumulateStartsNewSum(acc, prefix, src, i);
    }
  }

  lemma AccumulateKeepsOldSum(acc: seq<TrafficDatum>, prefix: seq<TrafficSource>, src: TrafficSource, i: nat)
    requires Distinct(DatumNames(acc))
    requires EntriesHoldSums(acc, prefix)
    requires i < |acc|
    ensures var d := Accumulate(acc, src);
      i < |d| && d[i].name == acc[i].name &&
      d[i].visits == VisitsNamed(prefix, acc[i].name) + (if acc[i].name == src.name then src.visits else 0)
  {
    var d := Accumulate(acc, src);
    var names := DatumNames(acc);
    AccumulateNames(acc, src);
    AccumulateVisits(acc, src);
    assert d[i].name == DatumNames(d)[i] == names[i];
    if acc[i].name == src.name {
      assert names[i] == src.name;
      assert FirstIndex(names, src.name) == i;
    } else {
      assert names[i] != src.name;
    }
  }

  lemma AccumulateStartsNewSum(acc: seq<TrafficDatum>, prefix: seq<TrafficSource>, src: TrafficSource, i: nat)
    requires forall k :: k in DatumNames(acc) <==> k in TrafficNames(prefix)
    requires |acc| <= i < |Accumulate(acc, src)|
    ensures var d := Accumulate(acc, src);
      d[i].name == src.name && d[i].visits == src.visits && VisitsNamed(prefix, src.name) == 0
  {
    var d := Accumulate(acc, src);
    AccumulateNames(acc, src);
    AccumulateVisits(acc, src);
    assert src.name !in DatumNames(acc);
    assert d[i].name == DatumNames(d)[i];
    VisitsNamedAbsent(prefix, src.name);
  }

  /** Each grouped entry holds the visits of all sources with its name. */
  lemma {:induction false} TrafficDataVisits(ts: seq<TrafficSource>)
    ensures EntriesHoldSums(TrafficData(ts), ts)
    decreases |ts|
  {
    if ts != [] {
      var n := |ts| - 1;
      var prefix := ts[..n];
      TrafficDataVisits(prefix);
      TrafficDataNames(prefix);
      var acc := TrafficData(prefix);
      assert prefix + [ts[n]] == ts;
      assert TrafficData(ts) == Accumulate(acc, ts[n]);
      forall i | 0 <= i < |TrafficData(ts)|
        ensures TrafficData(ts)[i].visits == VisitsNamed(ts, TrafficData(ts)[i].name)
      {
        AccumulateKeepsSums(TrafficData(prefix), prefix, ts[n], i);
      }
    }
  }

  /** The three facts together: a grouping by name that keeps every visit. */
  lemma TrafficDataSpec(ts: seq<TrafficSource>)
    ensures var d := TrafficData(ts);
      && IsKeyOrder(DatumNames(d), TrafficNames(ts))
      && EntriesHoldSums(d, ts)
      && DatumTotal(d) == TotalVisits(ts)
  {
    TrafficDataNames(ts);
    TrafficDataVisits(ts);
    TrafficDataTotal(ts);
  }

  /** Grouping keeps each name once, so it never yields more entries than
      there are sources, and exactly as many iff no name repeats. */
  lemma TrafficDataLength(ts: seq<TrafficSource>)
    ensures |TrafficData(ts)| <= |ts|
    ensures |TrafficData(ts)| == |ts| <==> Distinct(TrafficNames(ts))
  {
    TrafficDataSpec(ts);
    KeyOrderLength(DatumNames(TrafficData(ts)), TrafficNames(ts));
  }
}
