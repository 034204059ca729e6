/** The dashboard (`src/pages/Dashboard.tsx`): creating a list from a
    prompted name, the tracking link of a list, and the de-duplicated view
    of a list's members that the page renders. */
module Dashboard {
  import opened Types
  import opened Seqs
  import opened Store

  // ---------------------------------------------------------------------
  // Creating a list
  // ---------------------------------------------------------------------

  /** `handleCreateList`: `prompt` yields a string or nothing (cancel); a
      list is created only for a non-empty name. */
  function HandleCreateList(s: State, input: Option<string>, freshId: string, now: int): (r: State)
    ensures input.Some? && input.value != "" ==>
      && |r.lists| == |s.lists| + 1
      && r.lists[..|s.lists|] == s.lists
      && r.lists[|s.lists|] == PropertyList(freshId, input.value, [], now)
    ensures input.None? || input.value == "" ==> r == s
    ensures r.properties == s.properties && r.inquiries == s.inquiries
    ensures r.trafficSources == s.trafficSources
  {
    match input
    case Some(name) => if name != "" then CreateList(s, name, freshId, now) else s
    case None => s
  }

  // ---------------------------------------------------------------------
  // Tracking link
  // ---------------------------------------------------------------------

  const TrackPath := "/track/"

  /** The public link of a list: origin, then `/track/`, then the list id. */
  function TrackingLink(origin: string, listId: string): (r: string)
    ensures |r| == |origin| + |TrackPath| + |listId|
    ensures r[..|origin|] == origin
    ensures r[|origin|..|origin| + |TrackPath|] == TrackPath
    ensures r[|origin| + |TrackPath|..] == listId
  {
    origin + TrackPath + listId
  }

  /** The characters `nanoid()` draws list ids from: `A-Z`, `a-z`, `0-9`,
      `_` and `-`. */
  predicate IsIdChar(c: char) {
    ('A' <= c <= 'Z') || ('a' <= c <= 'z') || ('0' <= c <= '9') || c == '_' || c == '-'
  }

  /** A segment the browser and the router pass through unchanged: no
      separator, no query or fragment start, no escape, and not a dot
      segment. */
  predicate IsPlainSegment(seg: string) {
    && seg != "" && seg != "." && seg != ".."
    && '/' !in seg && '?' !in seg && '#' !in seg && '%' !in seg
  }

  /** The list id the route `track/:listId` reads back from a link on the
      same origin: the single path segment after `/track/`. A segment that
      the browser would cut at `?` or `#`, that the router would decode
      (`%`) or normalise away (`.`, `..`) yields no id. */
  function TrackedListId(origin: string, link: string): (r: Option<string>)
    ensures r.Some? ==> IsPlainSegment(r.value) && link == TrackingLink(origin, r.value)
    ensures r.None? ==> forall id :: IsPlainSegment(id) ==> link != TrackingLink(origin, id)
  {
    var n := |origin| + |TrackPath|;
    if |link| >= n && link[..|origin|] == origin && link[|origin|..n] == TrackPath && IsPlainSegment(link[n..])
    then
      assert link == link[..|origin|] + link[|origin|..n] + link[n..];
      Some(link[n..])
    else None
  }

  /** A list id drawn from the `nanoid()` alphabet survives the trip
      through its link: the tracking page opens the list the dashboard
      shared. */
  lemma TrackingLinkRoundTrip(origin: string, listId: string)
    requires listId != "" && forall c :: c in listId ==> IsIdChar(c)
    ensures TrackedListId(origin, TrackingLink(origin, listId)) == Some(listId)
  {
    assert '.' !in listId && '/' !in listId && '?' !in listId && '#' !in listId && '%' !in listId;
  }

  // ---------------------------------------------------------------------
  // De-duplicated members: `new Map(list.properties.map(p => [p.id, p]))`
  // ---------------------------------------------------------------------

  /** One entry of a JavaScript `Map` from property id to property. */
  datatype MapEntry = MapEntry(key: string, value: Property)

  function Keys(m: seq<MapEntry>): (r: seq<string>)
    ensures |r| == |m| && forall i :: 0 <= i < |m| ==> r[i] == m[i].key
  {
    seq(|m|, i requires 0 <= i < |m| => m[i].key)
  }

  /** `Array.from(map.values())`: the values in insertion order. */
  function Values(m: seq<MapEntry>): (r: seq<Property>)
    ensures |r| == |m| && forall i :: 0 <= i < |m| ==> r[i] == m[i].value
  {
    seq(|m|, i requires 0 <= i < |m| => m[i].value)
  }

  /** `map.set(k, v)`: overwrite the value of an existing key in place, or
      insert the key at the end. */
  function MapSet(m: seq<MapEntry>, k: string, v: Property): (r: seq<MapEntry>)
    ensures |m| <= |r| <= |m| + 1
  {
    if m == [] then [MapEntry(k, v)]
    else if m[0].key == k then [MapEntry(k, v)] + m[1..]
    else [m[0]] + MapSet(m[1..], k, v)
  }

  /** Position of the first entry with key `k`, or `|m|` when there is none. */
  function KeyIndex(m: seq<MapEntry>, k: string): (r: nat)
    ensures r <= |m|
  {
    if m == [] then 0 else if m[0].key == k then 0 else 1 + KeyIndex(m[1..], k)
  }

  lemma {:induction false} KeyIndexIsFirstIndex(m: seq<MapEntry>, k: string)
    ensures KeyIndex(m, k) == FirstIndex(Keys(m), k)
    decreases |m|
  {
    if m != [] {
      assert Keys(m)[0] == m[0].key;
      if m[0].key != k {
        assert Keys(m)[1..] == Keys(m[1..]);
        KeyIndexIsFirstIndex(m[1..], k);
      }
    }
  }

  /** `set` replaces the first entry with the key by `(k, v)`, or appends
      `(k, v)` when the key is new; every other entry stays where it was. */
  lemma {:induction false} MapSetEntries(m: seq<MapEntry>, k: string, v: Property)
    ensures var r := MapSet(m, k, v);
      var f := KeyIndex(m, k);
      && |r| == (if f < |m| then |m| else |m| + 1)
      && (forall i :: 0 <= i < |m| && i != f ==> r[i] == m[i])
      && r[f] == MapEntry(k, v)
    decreases |m|
  {
    var r := MapSet(m, k, v);
    if m != [] && m[0].key == k {
      assert r[1..] == m[1..];
      forall i | 0 < i < |m| ensures r[i] == m[i] {
        assert r[i] == r[1..][i - 1];
      }
    } else if m != [] {
      var rest := MapSet(m[1..], k, v);
      MapSetEntries(m[1..], k, v);
      var g := KeyIndex(m[1..], k);
      assert r == [m[0]] + rest;
      forall i | 0 < i < |m| && i != 1 + g ensures r[i] == m[i] {
        assert r[i] == rest[i - 1] && m[i] == m[1..][i - 1];
      }
    }
  }

  lemma MapSetKeys(m: seq<MapEntry>, k: string, v: Property)
    ensures Keys(MapSet(m, k, v)) == if k in Keys(m) then Keys(m) else Keys(m) + [k]
  {
    var r := MapSet(m, k, v);
    var keys := Keys(m);
    var expected := if k in keys then keys else keys + [k];
    MapSetEntries(m, k, v);
    KeyIndexIsFirstIndex(m, k);
    assert |Keys(r)| == |expected|;
    forall i | 0 <= i < |r| ensures Keys(r)[i] == expected[i] {
      if i < |m| {
        assert keys[i] == m[i].key;
      }
    }
  }

  /** `set` gives the first entry with the key the new value (or appends
      one) and leaves every other entry's value alone. */
  lemma MapSetValues(m: seq<MapEntry>, k: string, v: Property)
    ensures var r := MapSet(m, k, v);
      && |r| >= |m|
      && (forall i :: 0 <= i < |m| ==>
            r[i].value == if i == FirstIndex(Keys(m), k) then v else m[i].value)
      && (k !in Keys(m) ==> |r| == |m| + 1 && r[|m|] == MapEntry(k, v))
  {
    MapSetEntries(m, k, v);
    KeyIndexIsFirstIndex(m, k);
  }

  /** `new Map(entries)`: the entries set one after another. */
  function BuildMap(ps: seq<Property>): (r: seq<MapEntry>)
    ensures |r| <= |ps|
  {
    if ps == [] then [] else MapSet(BuildMap(ps[..|ps| - 1]), ps[|ps| - 1].id, ps[|ps| - 1])
  }

  /** `uniqueProperties`: never more entries than members, and the member
      added last is always among them. */
  function UniqueProperties(ps: seq<Property>): (r: seq<Property>)
    ensures |r| <= |ps|
    ensures ps != [] ==> ps[|ps| - 1] in r
  {
    var m := BuildMap(ps);
    if ps == [] then Values(m)
    else
      BuildMapHoldsLast(ps);
      ValueOfEntry(m, MapEntry(ps[|ps| - 1].id, ps[|ps| - 1]));
      Values(m)
  }

  /** The map holds the member set last under its id. */
  lemma BuildMapHoldsLast(ps: seq<Property>)
    ensures ps != [] ==> MapEntry(ps[|ps| - 1].id, ps[|ps| - 1]) in BuildMap(ps)
  {
    if ps != [] {
      var last := ps[|ps| - 1];
      var m := BuildMap(ps[..|ps| - 1]);
      MapSetEntries(m, last.id, last);
      assert MapSet(m, last.id, last)[KeyIndex(m, last.id)] == MapEntry(last.id, last);
    }
  }

  lemma ValueOfEntry(m: seq<MapEntry>, e: MapEntry)
    requires e in m
    ensures e.value in Values(m)
  {
    var k :| 0 <= k < |m| && m[k] == e;
    assert Values(m)[k] == e.value;
  }

  lemma PropertyIdsSnoc(ps: seq<Property>)
    requires ps != []
    ensures PropertyIds(ps) == PropertyIds(ps[..|ps| - 1]) + [ps[|ps| - 1].id]
  {
  }

  /** Every entry holds the last member of `ps` that has its key as id. */
  ghost predicate HoldsLastSnapshots(m: seq<MapEntry>, ps: seq<Property>) {
    forall i :: 0 <= i < |m| ==>
      m[i].key in PropertyIds(ps) && m[i].value == ps[LastIndex(PropertyIds(ps), m[i].key)]
  }

  lemma {:induction false} BuildMapKeys(ps: seq<Property>)
    ensures IsKeyOrder(Keys(BuildMap(ps)), PropertyIds(ps))
    decreases |ps|
  {
    if ps != [] {
      var n := |ps| - 1;
      var prefix := ps[..n];
      BuildMapKeys(prefix);
      var m := BuildMap(prefix);
      var k := ps[n].id;
      MapSetKeys(m, k, ps[n]);
      PropertyIdsSnoc(ps);
      KeyOrderStep(Keys(m), PropertyIds(prefix), k, Keys(BuildMap(ps)), PropertyIds(ps));
    }
  }

  /** The entry a `set` leaves in an old position keeps its key, and holds
      the new value exactly when the key is the one being set. */
  lemma {:induction false} MapSetAt(m: seq<MapEntry>, k: string, v: Property, i: nat)
    requires Distinct(Keys(m)) && i < |m|
    ensures var r := MapSet(m, k, v);
      i < |r| && r[i].key == m[i].key && r[i].value == if m[i].key == k then v else m[i].value
  {
    var r := MapSet(m, k, v);
    MapSetKeys(m, k, v);
    MapSetValues(m, k, v);
    assert Keys(r)[i] == Keys(m)[i];
    var f := FirstIndex(Keys(m), k);
    if m[i].key == k {
      assert Keys(m)[i] == k;
      assert f == i;
    } else {
      assert Keys(m)[i] != k;
      assert f != i;
    }
  }

  /** One `set` keeps "each entry holds the last snapshot with its id". */
  lemma {:induction false} MapSetKeepsLastSnapshots(m: seq<MapEntry>, prefix: seq<Property>, p: Property, i: nat)
    requires IsKeyOrder(Keys(m), PropertyIds(prefix))
    requires HoldsLastSnapshots(m, prefix)
    requires i < |MapSet(m, p.id, p)|
    ensures var r := MapSet(m, p.id, p);
      r[i].key in PropertyIds(prefix + [p]) &&
      r[i].value == (prefix + [p])[LastIndex(PropertyIds(prefix + [p]), r[i].key)]
  {
    var r := MapSet(m, p.id, p);
    var ps := prefix + [p];
    var ids := PropertyIds(prefix);
    assert PropertyIds(ps) == ids + [p.id];
    if i < |m| {
      MapSetAt(m, p.id, p, i);
      var key := m[i].key;
      assert key in ids;
      LastIndexAppend(ids, p.id, key);
      if key != p.id {
        var j := LastIndex(ids, key);
        assert ps[j] == prefix[j];
      }
    } else {
      MapSetKeys(m, p.id, p);
      MapSetValues(m, p.id, p);
      assert p.id !in Keys(m);
      assert r[i] == MapEntry(p.id, p);
      LastIndexAppend(ids, p.id, p.id);
    }
  }

  lemma {:induction false} BuildMapValues(ps: seq<Property>)
    ensures HoldsLastSnapshots(BuildMap(ps), ps)
    decreases |ps|
  {
    if ps != [] {
      var n := |ps| - 1;
      var prefix := ps[..n];
      BuildMapValues(prefix);
      BuildMapKeys(prefix);
      assert prefix + [ps[n]] == ps;
      forall i | 0 <= i < |BuildMap(ps)|
        ensures BuildMap(ps)[i].key in PropertyIds(ps) &&
                BuildMap(ps)[i].value == ps[LastIndex(PropertyIds(ps), BuildMap(ps)[i].key)]
      {
        MapSetKeepsLastSnapshots(BuildMap(prefix), prefix, ps[n], i);
      }
    }
  }

  /** What the dashboard shows of a list: each member id once, in order of
      first addition, each shown with the snapshot added LAST under that
      id. It is never longer than the membership, and exactly as long iff
      no id repeats. */
  lemma UniquePropertiesSpec(ps: seq<Property>)
    ensures var u := UniqueProperties(ps);
      && IsKeyOrder(PropertyIds(u), PropertyIds(ps))
      && (forall i :: 0 <= i < |u| ==>
            u[i].id in PropertyIds(ps) && u[i] == ps[LastIndex(PropertyIds(ps), u[i].id)])
      && |u| <= |ps|
      && (|u| == |ps| <==> Distinct(PropertyIds(ps)))
  {
    var m := BuildMap(ps);
    var u := UniqueProperties(ps);
    BuildMapKeys(ps);
    BuildMapValues(ps);
    forall i | 0 <= i < |m| ensures u[i].id == m[i].key {
      assert PropertyIds(ps)[LastIndex(PropertyIds(ps), m[i].key)] == m[i].key;
    }
    assert PropertyIds(u) == Keys(m);
    KeyOrderLength(Keys(m), PropertyIds(ps));
  }
}
