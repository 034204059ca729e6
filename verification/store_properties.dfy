/** Properties of the store operations that relate several calls or hold
    over every reachable state: identifier uniqueness, one traffic record
    per source and day, exact counter arithmetic, no-op on unknown ids. */
module StoreProperties {
  import opened Types
  import opened Seqs
  import opened Store

  // ---------------------------------------------------------------------
  // The store's invariant
  // ---------------------------------------------------------------------

  /** At most one traffic record per (source name, day). */
  ghost predicate OneRecordPerSourceAndDay(ts: seq<TrafficSource>) {
    forall i, j :: 0 <= i < j < |ts| ==> !(ts[i].name == ts[j].name && ts[i].date == ts[j].date)
  }

  /** Identifiers are unique within each collection, and traffic is kept
      as one record per source and day. */
  ghost predicate Valid(s: State) {
    && Distinct(PropertyIds(s.properties))
    && Distinct(ListIds(s.lists))
    && Distinct(InquiryIds(s.inquiries))
    && Distinct(TrafficIds(s.trafficSources))
    && OneRecordPerSourceAndDay(s.trafficSources)
  }

  lemma InitialIsValid()
    ensures Valid(Initial)
  {
  }

  lemma CreateListPreservesValid(s: State, name: string, freshId: string, now: int)
    requires Valid(s) && freshId !in ListIds(s.lists)
    ensures Valid(CreateList(s, name, freshId, now))
  {
    var r := CreateList(s, name, freshId, now);
    assert ListIds(r.lists) == ListIds(s.lists) + [freshId];
  }

  lemma AddPropertyToListPreservesValid(s: State, listId: string, p: Property)
    requires Valid(s)
    ensures Valid(AddPropertyToList(s, listId, p))
  {
    assert ListIds(AddPropertyToList(s, listId, p).lists) == ListIds(s.lists);
  }

  /** Given a fresh id, `addProperty` keeps property ids pairwise distinct. */
  lemma AddPropertyPreservesValid(s: State, l: Listing, freshId: string, created: int, updated: int)
    requires Valid(s) && freshId !in PropertyIds(s.properties)
    ensures Valid(AddProperty(s, l, freshId, created, updated))
  {
    var r := AddProperty(s, l, freshId, created, updated);
    assert PropertyIds(r.properties) == PropertyIds(s.properties) + [freshId];
  }

  /** A patch without an `id` field cannot break id uniqueness. */
  lemma UpdatePropertyPreservesValid(s: State, id: string, u: Patch, clock: nat -> int)
    requires Valid(s) && u.id.None?
    ensures Valid(UpdateProperty(s, id, u, clock))
  {
    assert PropertyIds(UpdateProperty(s, id, u, clock).properties) == PropertyIds(s.properties);
  }

  lemma {:induction false} FilterKeepsIdsDistinct(ps: seq<Property>, keep: Property -> bool)
    requires Distinct(PropertyIds(ps))
    ensures Distinct(PropertyIds(Filter(ps, keep)))
    decreases |ps|
  {
    if ps != [] {
      var rest := ps[1..];
      assert Distinct(PropertyIds(rest)) by {
        forall i, j | 0 <= i < j < |rest| ensures rest[i].id != rest[j].id {
          assert rest[i] == ps[i + 1] && rest[j] == ps[j + 1];
        }
      }
      FilterKeepsIdsDistinct(rest, keep);
      if keep(ps[0]) {
        var f := Filter(rest, keep);
        var r := [ps[0]] + f;
        assert Filter(ps, keep) == r;
        forall i, j | 0 <= i < j < |r| ensures r[i].id != r[j].id {
          if i == 0 {
            assert r[j] in rest;
            var k :| 0 <= k < |rest| && rest[k] == r[j];
            assert ps[k + 1] == r[j];
          } else {
            assert r[i] == f[i - 1] && r[j] == f[j - 1];
          }
        }
      }
    }
  }

  lemma DeletePropertyPreservesValid(s: State, id: string)
    requires Valid(s)
    ensures Valid(DeleteProperty(s, id))
  {
    FilterKeepsIdsDistinct(s.properties, (p: Property) => p.id != id);
  }

  lemma AddInquiryPreservesValid(s: State, d: InquiryDraft, freshId: string, now: int)
    requires Valid(s) && freshId !in InquiryIds(s.inquiries)
    ensures Valid(AddInquiry(s, d, freshId, now))
  {
    var r := AddInquiry(s, d, freshId, now);
    assert InquiryIds(r.inquiries) == InquiryIds(s.inquiries) + [freshId];
  }

  lemma UpdateInquiryStatusPreservesValid(s: State, id: string, status: InquiryStatus)
    requires Valid(s)
    ensures Valid(UpdateInquiryStatus(s, id, status))
  {
    assert InquiryIds(UpdateInquiryStatus(s, id, status).inquiries) == InquiryIds(s.inquiries);
  }

  lemma IncrementPropertyMetricPreservesValid(s: State, id: string, m: Metric)
    requires Valid(s)
    ensures Valid(IncrementPropertyMetric(s, id, m))
  {
    assert PropertyIds(IncrementPropertyMetric(s, id, m).properties) == PropertyIds(s.properties);
  }

  // ---------------------------------------------------------------------
  // recordTraffic
  // ---------------------------------------------------------------------

  /** Raising one record's visits by one raises the total by one. */
  lemma {:induction false} TotalVisitsBump(ts: seq<TrafficSource>, ts': seq<TrafficSource>, k: nat)
    requires |ts'| == |ts| && k < |ts|
    requires ts'[k].visits == ts[k].visits + 1
    requires forall i :: 0 <= i < |ts| && i != k ==> ts'[i].visits == ts[i].visits
    ensures TotalVisits(ts') == TotalVisits(ts) + 1
    decreases |ts|
  {
    var n := |ts| - 1;
    if k == n {
      TotalVisitsSame(ts[..n], ts'[..n]);
    } else {
      TotalVisitsBump(ts[..n], ts'[..n], k);
    }
  }

  lemma {:induction false} TotalVisitsSame(ts: seq<TrafficSource>, ts': seq<TrafficSource>)
    requires |ts'| == |ts|
    requires forall i :: 0 <= i < |ts| ==> ts'[i].visits == ts[i].visits
    ensures TotalVisits(ts') == TotalVisits(ts)
    decreases |ts|
  {
    if ts != [] {
      TotalVisitsSame(ts[..|ts| - 1], ts'[..|ts| - 1]);
    }
  }

  /** The lookup returns the record at the first index that matches. */
  lemma {:induction false} FindDayRecordAt(ts: seq<TrafficSource>, name: string, today: string, k: nat)
    requires k < |ts| && IsDayRecord(ts[k], name, today)
    requires forall j :: 0 <= j < k ==> !IsDayRecord(ts[j], name, today)
    ensures FindDayRecord(ts, name, today) == Some(ts[k])
    decreases k
  {
    if k > 0 {
      FindDayRecordAt(ts[1..], name, today, k - 1);
    }
  }

  /** With distinct ids, a matching record gains exactly one visit and no
      other record changes; the total goes up by one. */
  lemma RecordTrafficExisting(s: State, name: string, today: string, freshId: string, k: nat)
    requires Valid(s) && k < |s.trafficSources|
    requires FindDayRecord(s.trafficSources, name, today) == Some(s.trafficSources[k])
    ensures var r := RecordTraffic(s, name, today, freshId).trafficSources;
      && |r| == |s.trafficSources|
      && r[k] == s.trafficSources[k].(visits := s.trafficSources[k].visits + 1)
      && (forall i :: 0 <= i < |r| && i != k ==> r[i] == s.trafficSources[i])
      && TotalVisits(r) == TotalVisits(s.trafficSources) + 1
  {
    var ts := s.trafficSources;
    var rts := RecordTraffic(s, name, today, freshId).trafficSources;
    assert forall i :: 0 <= i < |ts| && i != k ==> ts[i].id != ts[k].id;
    TotalVisitsBump(ts, rts, k);
  }

  lemma RecordTrafficExistingKeepsValid(s: State, name: string, today: string, freshId: string, k: nat)
    requires Valid(s) && k < |s.trafficSources|
    requires FindDayRecord(s.trafficSources, name, today) == Some(s.trafficSources[k])
    ensures Valid(RecordTraffic(s, name, today, freshId))
  {
    var r := RecordTraffic(s, name, today, freshId);
    var ts := s.trafficSources;
    var rts := AddVisit(ts, ts[k].id);
    assert r.trafficSources == rts;
    assert TrafficIds(rts) == TrafficIds(ts);
    forall i, j | 0 <= i < j < |rts|
      ensures !(rts[i].name == rts[j].name && rts[i].date == rts[j].date)
    {
      assert rts[i].name == ts[i].name && rts[i].date == ts[i].date;
      assert rts[j].name == ts[j].name && rts[j].date == ts[j].date;
    }
    assert OneRecordPerSourceAndDay(rts);
  }

  lemma RecordTrafficNewKeepsValid(s: State, name: string, today: string, freshId: string)
    requires Valid(s) && freshId !in TrafficIds(s.trafficSources)
    requires forall t :: t in s.trafficSources ==> !IsDayRecord(t, name, today)
    ensures var r := RecordTraffic(s, name, today, freshId).trafficSources;
      && r == s.trafficSources + [TrafficSource(freshId, name, 1, today)]
      && Valid(RecordTraffic(s, name, today, freshId))
      && TotalVisits(r) == TotalVisits(s.trafficSources) + 1
  {
    var ts := s.trafficSources;
    var rts := RecordTraffic(s, name, today, freshId).trafficSources;
    assert rts[..|ts|] == ts;
    assert TrafficIds(rts) == TrafficIds(ts) + [freshId];
    assert forall i :: 0 <= i < |ts| ==> ts[i] in ts;
  }

  /** `recordTraffic` keeps the store valid and adds exactly one visit in
      total. When a record for `(name, today)` exists the number of records
      stays the same; otherwise one record with one visit is appended.
      Either way a record for `(name, today)` is then present, and by
      validity it is the only one. */
  lemma RecordTrafficSpec(s: State, name: string, today: string, freshId: string)
    requires Valid(s) && freshId !in TrafficIds(s.trafficSources)
    ensures var r := RecordTraffic(s, name, today, freshId);
      && Valid(r)
      && TotalVisits(r.trafficSources) == TotalVisits(s.trafficSources) + 1
      && ((exists t :: t in s.trafficSources && IsDayRecord(t, name, today))
            <==> |r.trafficSources| == |s.trafficSources|)
      && (exists t :: t in r.trafficSources && IsDayRecord(t, name, today))
  {
    var ts := s.trafficSources;
    var found := FindDayRecord(ts, name, today);
    if found.Some? {
      var k :| 0 <= k < |ts| && ts[k] == found.value;
      RecordTrafficExisting(s, name, today, freshId, k);
      RecordTrafficExistingKeepsValid(s, name, today, freshId, k);
      var rts := RecordTraffic(s, name, today, freshId).trafficSources;
      assert IsDayRecord(rts[k], name, today);
    } else {
      RecordTrafficNewKeepsValid(s, name, today, freshId);
      var rts := RecordTraffic(s, name, today, freshId).trafficSources;
      assert IsDayRecord(rts[|ts|], name, today);
    }
  }

  /** A visit for the day of the last record, when no earlier record is
      for that day and none shares its id, bumps just that record. */
  lemma RecordTrafficBumpsLast(s: State, name: string, today: string, freshId: string,
                               prefix: seq<TrafficSource>, last: TrafficSource)
    requires s.trafficSources == prefix + [last] && IsDayRecord(last, name, today)
    requires forall t :: t in prefix ==> !IsDayRecord(t, name, today)
    requires last.id !in TrafficIds(prefix)
    ensures RecordTraffic(s, name, today, freshId).trafficSources == prefix + [last.(visits := last.visits + 1)]
  {
    var ts := s.trafficSources;
    var n := |prefix|;
    forall j | 0 <= j < n ensures ts[j] == prefix[j] && !IsDayRecord(ts[j], name, today) {
      assert prefix[j] in prefix;
    }
    FindDayRecordAt(ts, name, today, n);
    AddVisitToLast(prefix, last);
  }

  /** Bumping the id of the last record, when no earlier record has it,
      changes only that record. */
  lemma AddVisitToLast(prefix: seq<TrafficSource>, last: TrafficSource)
    requires last.id !in TrafficIds(prefix)
    ensures AddVisit(prefix + [last], last.id) == prefix + [last.(visits := last.visits + 1)]
  {
    var r := AddVisit(prefix + [last], last.id);
    forall j | 0 <= j < |prefix| ensures r[j] == prefix[j] {
      assert TrafficIds(prefix)[j] == prefix[j].id;
    }
  }

  /** Three visits from the same source on one day, starting from no record
      for that day, leave exactly one record for it, holding three visits,
      and change no other record. */
  lemma RecordTrafficThreeTimesSameDay(s: State, name: string, today: string, id1: string, id2: string, id3: string)
    requires forall t :: t in s.trafficSources ==> !IsDayRecord(t, name, today)
    requires id1 !in TrafficIds(s.trafficSources)
    ensures var r := RecordTraffic(RecordTraffic(RecordTraffic(s, name, today, id1), name, today, id2), name, today, id3);
      r.trafficSources == s.trafficSources + [TrafficSource(id1, name, 3, today)]
  {
    var rec := TrafficSource(id1, name, 1, today);
    var s1 := RecordTraffic(s, name, today, id1);
    assert s1.trafficSources == s.trafficSources + [rec];
    var s2 := RecordTraffic(s1, name, today, id2);
    RecordTrafficBumpsLast(s1, name, today, id2, s.trafficSources, rec);
    RecordTrafficBumpsLast(s2, name, today, id3, s.trafficSources, rec.(visits := 2));
  }

  // ---------------------------------------------------------------------
  // Unknown identifiers change nothing
  // ---------------------------------------------------------------------

  lemma UnknownIdsAreNoOps(s: State, id: string, p: Property, u: Patch, clock: nat -> int,
                           status: InquiryStatus, m: Metric)
    ensures id !in ListIds(s.lists) ==> AddPropertyToList(s, id, p) == s
    ensures id !in PropertyIds(s.properties) ==> UpdateProperty(s, id, u, clock) == s
    ensures id !in PropertyIds(s.properties) ==> DeleteProperty(s, id) == s
    ensures id !in PropertyIds(s.properties) ==> IncrementPropertyMetric(s, id, m) == s
    ensures id !in InquiryIds(s.inquiries) ==> UpdateInquiryStatus(s, id, status) == s
  {
    if id !in ListIds(s.lists) {
      assert AddPropertyToList(s, id, p).lists == s.lists;
    }
    if id !in PropertyIds(s.properties) {
      assert UpdateProperty(s, id, u, clock).properties == s.properties;
      assert IncrementPropertyMetric(s, id, m).properties == s.properties;
      assert forall q :: q in s.properties ==> q.id != id;
      FilterKeepsAll(s.properties, (q: Property) => q.id != id);
    }
    if id !in InquiryIds(s.inquiries) {
      assert UpdateInquiryStatus(s, id, status).inquiries == s.inquiries;
    }
  }

  // ---------------------------------------------------------------------
  // Lists hold snapshots, by value and with repetition
  // ---------------------------------------------------------------------

  /** Adding the same property twice grows the list by two: the store does
      not deduplicate membership. */
  lemma AddPropertyToListTwice(s: State, listId: string, p: Property)
    ensures var r := AddPropertyToList(AddPropertyToList(s, listId, p), listId, p);
      forall i :: 0 <= i < |s.lists| && s.lists[i].id == listId ==>
        && r.lists[i].properties == s.lists[i].properties + [p, p]
        && |r.lists[i].properties| == |s.lists[i].properties| + 2
  {
    var r1 := AddPropertyToList(s, listId, p);
    var r := AddPropertyToList(r1, listId, p);
    forall i | 0 <= i < |s.lists| && s.lists[i].id == listId
      ensures r.lists[i].properties == s.lists[i].properties + [p, p]
    {
      assert r.lists[i].properties == (s.lists[i].properties + [p]) + [p];
    }
  }

  /** Deleting a property leaves every list's snapshot of it in place, and
      later edits of the global entry do not reach the lists either. */
  lemma ListsKeepSnapshots(s: State, listId: string, p: Property, u: Patch, clock: nat -> int)
    ensures var s1 := AddPropertyToList(s, listId, p);
      && UpdateProperty(s1, p.id, u, clock).lists == s1.lists
      && DeleteProperty(s1, p.id).lists == s1.lists
      && forall i :: 0 <= i < |s1.lists| && s1.lists[i].id == listId ==>
           p in DeleteProperty(s1, p.id).lists[i].properties
  {
    var s1 := AddPropertyToList(s, listId, p);
    forall i | 0 <= i < |s1.lists| && s1.lists[i].id == listId
      ensures p in s1.lists[i].properties
    {
      assert s1.lists[i].properties[|s1.lists[i].properties| - 1] == p;
    }
  }

  // ---------------------------------------------------------------------
  // updateProperty
  // ---------------------------------------------------------------------

  /** Updating the title sets the title and the modification time of the
      matching properties, and nothing else about them. */
  lemma UpdateTitle(s: State, id: string, title: string, clock: nat -> int)
    ensures var r := UpdateProperty(s, id, NoChange.(title := Some(title)), clock);
      forall i :: 0 <= i < |s.properties| && s.properties[i].id == id ==>
        r.properties[i] == s.properties[i].(listing := s.properties[i].listing.(title := title), updatedAt := clock(i))
  {
  }

  /** The modification time always comes from the clock, even when the
      patch carries one. */
  lemma UpdateStampsNow(s: State, id: string, u: Patch, clock: nat -> int)
    requires u.updatedAt.Some?
    ensures var r := UpdateProperty(s, id, u, clock);
      forall i :: 0 <= i < |s.properties| && s.properties[i].id == id ==> r.properties[i].updatedAt == clock(i)
  {
  }

  /** A patch that names no counter leaves every counter where it was. */
  lemma UpdateKeepsCounters(s: State, id: string, u: Patch, clock: nat -> int)
    requires KeepsIdentityAndCounters(u)
    ensures var r := UpdateProperty(s, id, u, clock);
      forall i, m :: 0 <= i < |s.properties| ==>
        r.properties[i].Counter(m) == s.properties[i].Counter(m) && r.properties[i].id == s.properties[i].id
  {
  }

  // ---------------------------------------------------------------------
  // incrementPropertyMetric
  // ---------------------------------------------------------------------

  /** `incrementPropertyMetric` applied `n` times in a row. */
  function IncrementTimes(s: State, id: string, m: Metric, n: nat): State
  {
    if n == 0 then s else IncrementPropertyMetric(IncrementTimes(s, id, m, n - 1), id, m)
  }

  /** Incrementing a metric `n` times raises it by exactly `n` on matching
      properties and leaves the other two counters, every other field and
      every other property untouched. */
  lemma {:induction false} IncrementTimesExact(s: State, id: string, m: Metric, n: nat)
    ensures var r := IncrementTimes(s, id, m, n);
      && |r.properties| == |s.properties|
      && (forall i :: 0 <= i < |s.properties| && s.properties[i].id != id ==>
            r.properties[i] == s.properties[i])
      && (forall i :: 0 <= i < |s.properties| && s.properties[i].id == id ==>
            r.properties[i] == s.properties[i].WithCounter(m, s.properties[i].Counter(m) + n))
      && r.lists == s.lists && r.inquiries == s.inquiries && r.trafficSources == s.trafficSources
  {
    if n > 0 {
      IncrementTimesExact(s, id, m, n - 1);
      var prev := IncrementTimes(s, id, m, n - 1);
      var r := IncrementPropertyMetric(prev, id, m);
      forall i | 0 <= i < |s.properties| && s.properties[i].id == id
        ensures r.properties[i] == s.properties[i].WithCounter(m, s.properties[i].Counter(m) + n)
      {
        var p := s.properties[i];
        assert prev.properties[i] == p.WithCounter(m, p.Counter(m) + n - 1);
        assert prev.properties[i].id == id;
        match m
        case Views =>
        case QrCodeScans =>
        case LinkClicks =>
      }
    }
  }

  /** No counter of any property ever goes down through an increment. */
  lemma IncrementNeverLowers(s: State, id: string, m: Metric)
    ensures var r := IncrementPropertyMetric(s, id, m);
      forall i, k :: 0 <= i < |s.properties| ==> r.properties[i].Counter(k) >= s.properties[i].Counter(k)
  {
  }
}
