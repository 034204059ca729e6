/** The client-side store (`src/lib/store.ts`): four collections and the
    nine operations that map one snapshot of them to the next.

    The store's three sources of nondeterminism are parameters here: a
    fresh identifier (`nanoid()`), the current time in milliseconds
    (`Date.now()`), and the current day key (`toISOString().split('T')[0]`).
    No operation signals "not found": an unknown identifier leaves the
    state as it was. */
module Store {
  import opened Types
  import opened Seqs

  /** A named list of property snapshots. Membership holds copies of
      properties, not references, and may repeat a property. */
  datatype PropertyList = PropertyList(id: string, name: string, properties: seq<Property>, createdAt: int)

  datatype State = State(
    properties: seq<Property>,
    lists: seq<PropertyList>,
    inquiries: seq<CustomerInquiry>,
    trafficSources: seq<TrafficSource>)

  /** The state the store starts from before anything is persisted. */
  const Initial := State([], [], [], [])

  function ListIds(ls: seq<PropertyList>): (r: seq<string>)
    ensures |r| == |ls| && forall i :: 0 <= i < |ls| ==> r[i] == ls[i].id
  {
    seq(|ls|, i requires 0 <= i < |ls| => ls[i].id)
  }

  // ---------------------------------------------------------------------
  // Arguments of addInquiry and updateProperty
  // ---------------------------------------------------------------------

  /** `Omit<CustomerInquiry, 'id' | 'createdAt'>`: status and source come
      from the caller and are stored as given. */
  datatype InquiryDraft = InquiryDraft(
    propertyId: string,
    name: string,
    email: string,
    phone: string,
    message: string,
    source: InquirySource,
    status: InquiryStatus)

  /** `Partial<Property>`: each field is either absent or a new value. Any
      field may be present, including the identifier and the counters. */
  datatype Patch = Patch(
    id: Option<string>,
    title: Option<string>,
    developer: Option<string>,
    price: Option<int>,
    rentalValue: Option<int>,
    securityDeposit: Option<int>,
    furnishingStatus: Option<Furnishing>,
    superArea: Option<int>,
    availability: Option<Availability>,
    floorNumber: Option<int>,
    totalFloors: Option<int>,
    bathrooms: Option<int>,
    constructionAge: Option<int>,
    address: Option<string>,
    landmarks: Option<seq<string>>,
    overlooking: Option<seq<string>>,
    description: Option<string>,
    amenities: Option<seq<string>>,
    images: Option<seq<string>>,
    tenantPreferences: Option<seq<string>>,
    createdAt: Option<int>,
    updatedAt: Option<int>,
    views: Option<int>,
    qrCodeScans: Option<int>,
    linkClicks: Option<int>)

  /** The patch with no field present. */
  const NoChange: Patch := Patch(
    None, None, None, None, None, None, None, None, None, None, None, None, None,
    None, None, None, None, None, None, None, None, None, None, None, None)

  /** A patch that leaves the identifier and all three counters alone. */
  predicate KeepsIdentityAndCounters(u: Patch) {
    u.id.None? && u.views.None? && u.qrCodeScans.None? && u.linkClicks.None?
  }

  /** `{ ...p, ...updates }`: every field present in the patch replaces the
      property's own. The empty patch changes nothing, and a patch without
      an id or counters keeps them. */
  function Merge(p: Property, u: Patch): (r: Property)
    ensures u == NoChange ==> r == p
    ensures KeepsIdentityAndCounters(u) ==> r.id == p.id && forall m :: r.Counter(m) == p.Counter(m)
  {
    p.(
      id := u.id.GetOr(p.id),
      listing := p.listing.(
        title := u.title.GetOr(p.listing.title),
        developer := u.developer.GetOr(p.listing.developer),
        price := u.price.GetOr(p.listing.price),
        rentalValue := u.rentalValue.GetOr(p.listing.rentalValue),
        securityDeposit := u.securityDeposit.GetOr(p.listing.securityDeposit),
        furnishingStatus := u.furnishingStatus.GetOr(p.listing.furnishingStatus),
        superArea := u.superArea.GetOr(p.listing.superArea),
        availability := u.availability.GetOr(p.listing.availability),
        floorNumber := u.floorNumber.GetOr(p.listing.floorNumber),
        totalFloors := u.totalFloors.GetOr(p.listing.totalFloors),
        bathrooms := u.bathrooms.GetOr(p.listing.bathrooms),
        constructionAge := u.constructionAge.GetOr(p.listing.constructionAge),
        address := u.address.GetOr(p.listing.address),
        landmarks := u.landmarks.GetOr(p.listing.landmarks),
        overlooking := u.overlooking.GetOr(p.listing.overlooking),
        description := u.description.GetOr(p.listing.description),
        amenities := u.amenities.GetOr(p.listing.amenities),
        images := u.images.GetOr(p.listing.images),
        tenantPreferences := u.tenantPreferences.GetOr(p.listing.tenantPreferences)),
      createdAt := u.createdAt.GetOr(p.createdAt),
      updatedAt := u.updatedAt.GetOr(p.updatedAt),
      views := u.views.GetOr(p.views),
      qrCodeScans := u.qrCodeScans.GetOr(p.qrCodeScans),
      linkClicks := u.linkClicks.GetOr(p.linkClicks))
  }

  /** Spreading the same patch a second time changes nothing more. */
  lemma MergeIdempotent(p: Property, u: Patch)
    ensures Merge(Merge(p, u), u) == Merge(p, u)
  {
  }

  // ---------------------------------------------------------------------
  // The nine operations
  // ---------------------------------------------------------------------

  /** `createList(name)`: appends one empty list; earlier lists keep their
      values and their order. Names need not be unique. */
  function CreateList(s: State, name: string, freshId: string, now: int): (r: State)
    ensures |r.lists| == |s.lists| + 1
    ensures r.lists[..|s.lists|] == s.lists
    ensures r.lists[|s.lists|] == PropertyList(freshId, name, [], now)
    ensures r.properties == s.properties && r.inquiries == s.inquiries
    ensures r.trafficSources == s.trafficSources
  {
    s.(lists := s.lists + [PropertyList(freshId, name, [], now)])
  }

  /** `addPropertyToList(listId, property)`: every list whose id matches
      gets the property value appended; no other list changes. */
  function AddPropertyToList(s: State, listId: string, p: Property): (r: State)
    ensures |r.lists| == |s.lists|
    ensures forall i :: 0 <= i < |s.lists| && s.lists[i].id != listId ==> r.lists[i] == s.lists[i]
    ensures forall i :: 0 <= i < |s.lists| && s.lists[i].id == listId ==>
      && r.lists[i].properties == s.lists[i].properties + [p]
      && r.lists[i].id == listId
      && r.lists[i].name == s.lists[i].name
      && r.lists[i].createdAt == s.lists[i].createdAt
    ensures r.properties == s.properties && r.inquiries == s.inquiries
    ensures r.trafficSources == s.trafficSources
  {
    s.(lists := seq(|s.lists|, i requires 0 <= i < |s.lists| =>
      if s.lists[i].id == listId
      then s.lists[i].(properties := s.lists[i].properties + [p])
      else s.lists[i]))
  }

  /** `addProperty(property)`: appends the listing under a fresh id, with
      all three counters at zero. The two timestamps come from two
      separate reads of the clock, `created` and `updated`. */
  function AddProperty(s: State, l: Listing, freshId: string, created: int, updated: int): (r: State)
    ensures |r.properties| == |s.properties| + 1
    ensures r.properties[..|s.properties|] == s.properties
    ensures var p := r.properties[|s.properties|];
      && p.id == freshId && p.listing == l
      && p.createdAt == created && p.updatedAt == updated
      && forall m :: p.Counter(m) == 0
    ensures r.lists == s.lists && r.inquiries == s.inquiries
    ensures r.trafficSources == s.trafficSources
  {
    s.(properties := s.properties + [Property(freshId, l, created, updated, 0, 0, 0)])
  }

  /** `updateProperty(id, updates)`: every property whose id matches is
      merged with the patch and then stamped from the clock, so the patch
      cannot set `updatedAt`; the others are kept as they are. The map
      reads `Date.now()` once per match: `clock(i)` is the reading taken
      when it reaches position `i`, so two matches may get different
      times. */
  function UpdateProperty(s: State, id: string, u: Patch, clock: nat -> int): (r: State)
    ensures |r.properties| == |s.properties|
    ensures forall i :: 0 <= i < |s.properties| && s.properties[i].id != id ==>
      r.properties[i] == s.properties[i]
    ensures forall i :: 0 <= i < |s.properties| && s.properties[i].id == id ==>
      r.properties[i].updatedAt == clock(i) && r.properties[i] == Merge(s.properties[i], u).(updatedAt := clock(i))
    ensures r.lists == s.lists && r.inquiries == s.inquiries
    ensures r.trafficSources == s.trafficSources
  {
    s.(properties := seq(|s.properties|, i requires 0 <= i < |s.properties| =>
      if s.properties[i].id == id
      then Merge(s.properties[i], u).(updatedAt := clock(i))
      else s.properties[i]))
  }

  /** `deleteProperty(id)`: drops every property with that id from the
      global collection only. Lists keep their snapshots and inquiries
      keep their references: there is no cascade. */
  function DeleteProperty(s: State, id: string): (r: State)
    ensures id !in PropertyIds(r.properties)
    ensures forall p :: p in r.properties <==> p in s.properties && p.id != id
    ensures IsSubsequence(r.properties, s.properties)
    ensures |r.properties| == CountWhere(s.properties, (p: Property) => p.id != id)
    ensures r.lists == s.lists && r.inquiries == s.inquiries
    ensures r.trafficSources == s.trafficSources
  {
    var kept := Filter(s.properties, (p: Property) => p.id != id);
    assert forall i :: 0 <= i < |kept| ==> kept[i] in kept;
    s.(properties := kept)
  }

  /** `addInquiry(inquiry)`: appends the draft under a fresh id with
      `createdAt = now`; status and source are stored as given. */
  function AddInquiry(s: State, d: InquiryDraft, freshId: string, now: int): (r: State)
    ensures |r.inquiries| == |s.inquiries| + 1
    ensures r.inquiries[..|s.inquiries|] == s.inquiries
    ensures var q := r.inquiries[|s.inquiries|];
      && q.id == freshId && q.createdAt == now
      && q.propertyId == d.propertyId && q.name == d.name && q.email == d.email
      && q.phone == d.phone && q.message == d.message
      && q.source == d.source && q.status == d.status
    ensures r.properties == s.properties && r.lists == s.lists
    ensures r.trafficSources == s.trafficSources
  {
    s.(inquiries := s.inquiries + [CustomerInquiry(freshId, d.propertyId, d.name, d.email, d.phone,
                                                   d.message, d.source, now, d.status)])
  }

  /** `updateInquiryStatus(id, status)`: sets the status of every inquiry
      whose id matches, whatever its current status; nothing else changes. */
  function UpdateInquiryStatus(s: State, id: string, status: InquiryStatus): (r: State)
    ensures |r.inquiries| == |s.inquiries|
    ensures forall i :: 0 <= i < |s.inquiries| ==>
      r.inquiries[i] == if s.inquiries[i].id == id then s.inquiries[i].(status := status) else s.inquiries[i]
    ensures r.properties == s.properties && r.lists == s.lists
    ensures r.trafficSources == s.trafficSources
  {
    s.(inquiries := seq(|s.inquiries|, i requires 0 <= i < |s.inquiries| =>
      if s.inquiries[i].id == id then s.inquiries[i].(status := status) else s.inquiries[i]))
  }

  /** Whether record `t` is the one for source `name` on day `today`. */
  predicate IsDayRecord(t: TrafficSource, name: string, today: string) {
    t.name == name && t.date == today
  }

  /** `trafficSources.find(...)`: the first record for `(name, today)`. */
  function FindDayRecord(ts: seq<TrafficSource>, name: string, today: string): (r: Option<TrafficSource>)
    ensures r.Some? ==> r.value in ts && IsDayRecord(r.value, name, today)
    ensures r.None? <==> forall t :: t in ts ==> !IsDayRecord(t, name, today)
    ensures r.Some? ==> exists i :: 0 <= i < |ts| && ts[i] == r.value &&
                                 (forall j :: 0 <= j < i ==> !IsDayRecord(ts[j], name, today))
  {
    if ts == [] then None
    else if IsDayRecord(ts[0], name, today) then Some(ts[0])
    else
      var r := FindDayRecord(ts[1..], name, today);
      if r.Some? then
        assert forall j :: 1 <= j < |ts| ==> ts[j] == ts[1..][j - 1];
        r
      else r
  }

  /** Every record whose id is `id` gains one visit; nothing else about
      any record changes. */
  function AddVisit(ts: seq<TrafficSource>, id: string): (r: seq<TrafficSource>)
    ensures |r| == |ts|
    ensures forall i :: 0 <= i < |ts| ==>
      && r[i].id == ts[i].id && r[i].name == ts[i].name && r[i].date == ts[i].date
      && r[i].visits == ts[i].visits + (if ts[i].id == id then 1 else 0)
  {
    seq(|ts|, i requires 0 <= i < |ts| =>
      if ts[i].id == id then ts[i].(visits := ts[i].visits + 1) else ts[i])
  }

  /** `recordTraffic(sourceName)`: when a record for `(name, today)`
      exists, every record carrying that record's id gains one visit;
      otherwise one record with a single visit is appended. */
  function RecordTraffic(s: State, name: string, today: string, freshId: string): (r: State)
    ensures var found := FindDayRecord(s.trafficSources, name, today);
      && (found.Some? ==> r.trafficSources == AddVisit(s.trafficSources, found.value.id))
      && (found.None? ==> r.trafficSources == s.trafficSources + [TrafficSource(freshId, name, 1, today)])
    ensures r.properties == s.properties && r.lists == s.lists && r.inquiries == s.inquiries
  {
    match FindDayRecord(s.trafficSources, name, today)
    case Some(existing) => s.(trafficSources := AddVisit(s.trafficSources, existing.id))
    case None => s.(trafficSources := s.trafficSources + [TrafficSource(freshId, name, 1, today)])
  }

  /** `incrementPropertyMetric(id, metric)`: counter `m` of every property
      whose id matches goes up by one; everything else stays. */
  function IncrementPropertyMetric(s: State, id: string, m: Metric): (r: State)
    ensures |r.properties| == |s.properties|
    ensures forall i :: 0 <= i < |s.properties| && s.properties[i].id != id ==>
      r.properties[i] == s.properties[i]
    ensures forall i :: 0 <= i < |s.properties| && s.properties[i].id == id ==>
      r.properties[i] == s.properties[i].WithCounter(m, s.properties[i].Counter(m) + 1)
    ensures r.lists == s.lists && r.inquiries == s.inquiries
    ensures r.trafficSources == s.trafficSources
  {
    s.(properties := seq(|s.properties|, i requires 0 <= i < |s.properties| =>
      var p := s.properties[i];
      if p.id == id then p.WithCounter(m, p.Counter(m) + 1) else p))
  }

  // ---------------------------------------------------------------------
  // Lookup the pages share: `properties.find(p => p.id === id)`
  // ---------------------------------------------------------------------

  /** The first property with the given id, or nothing when none has it. */
  function FindProperty(ps: seq<Property>, id: string): (r: Option<Property>)
    ensures r.None? <==> id !in PropertyIds(ps)
    ensures r.Some? ==> r.value.id == id && r.value == ps[FirstIndex(PropertyIds(ps), id)]
    ensures r.Some? ==> forall i :: 0 <= i < FirstIndex(PropertyIds(ps), id) ==> ps[i].id != id
  {
    var k := FirstIndex(PropertyIds(ps), id);
    if k < |ps| then Some(ps[k]) else None
  }
}
