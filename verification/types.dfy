/** The entity records of the listing manager (`src/lib/types.ts`): a
    property with its engagement counters, a traffic source and a customer
    inquiry, with their string-literal enumerations as datatypes. */
module Types {

  datatype Option<T> = None | Some(value: T) {
    function GetOr(default: T): T {
      match this
      case Some(v) => v
      case None => default
    }
  }

  // ---------------------------------------------------------------------
  // String-literal enumerations. Each has its label (the string the
  // program stores and compares) and a parser that is its exact inverse.
  // ---------------------------------------------------------------------

  datatype Furnishing = Furnished | SemiFurnished | Unfurnished

  function FurnishingLabel(f: Furnishing): string {
    match f
    case Furnished => "Furnished"
    case SemiFurnished => "Semi-Furnished"
    case Unfurnished => "Unfurnished"
  }

  /** The furnishing status a string names, if it names one. */
  function ParseFurnishing(s: string): (r: Option<Furnishing>)
    ensures r.Some? ==> FurnishingLabel(r.value) == s
    ensures r.None? ==> forall f :: FurnishingLabel(f) != s
  {
    if s == "Furnished" then Some(Furnished)
    else if s == "Semi-Furnished" then Some(SemiFurnished)
    else if s == "Unfurnished" then Some(Unfurnished)
    else None
  }

  datatype Availability = Immediate | Within15Days | Within30Days | After30Days

  function AvailabilityLabel(a: Availability): string {
    match a
    case Immediate => "Immediate"
    case Within15Days => "Within 15 Days"
    case Within30Days => "Within 30 Days"
    case After30Days => "After 30 Days"
  }

  function ParseAvailability(s: string): (r: Option<Availability>)
    ensures r.Some? ==> AvailabilityLabel(r.value) == s
    ensures r.None? ==> forall a :: AvailabilityLabel(a) != s
  {
    if s == "Immediate" then Some(Immediate)
    else if s == "Within 15 Days" then Some(Within15Days)
    else if s == "Within 30 Days" then Some(Within30Days)
    else if s == "After 30 Days" then Some(After30Days)
    else None
  }

  datatype InquirySource = Form | WhatsApp

  function SourceLabel(s: InquirySource): string {
    match s
    case Form => "Form"
    case WhatsApp => "WhatsApp"
  }

  function ParseSource(s: string): (r: Option<InquirySource>)
    ensures r.Some? ==> SourceLabel(r.value) == s
    ensures r.None? ==> forall src :: SourceLabel(src) != s
  {
    if s == "Form" then Some(Form)
    else if s == "WhatsApp" then Some(WhatsApp)
    else None
  }

  datatype InquiryStatus = New | Contacted | Scheduled | Closed

  function StatusLabel(s: InquiryStatus): string {
    match s
    case New => "New"
    case Contacted => "Contacted"
    case Scheduled => "Scheduled"
    case Closed => "Closed"
  }

  function ParseStatus(s: string): (r: Option<InquiryStatus>)
    ensures r.Some? ==> StatusLabel(r.value) == s
    ensures r.None? ==> forall st :: StatusLabel(st) != s
  {
    if s == "New" then Some(New)
    else if s == "Contacted" then Some(Contacted)
    else if s == "Scheduled" then Some(Scheduled)
    else if s == "Closed" then Some(Closed)
    else None
  }

  /** Each enumeration's labels are pairwise different, so a stored label
      determines the value: parsing a label gives back that value. */
  lemma LabelsRoundTrip(f: Furnishing, a: Availability, src: InquirySource, st: InquiryStatus)
    ensures ParseFurnishing(FurnishingLabel(f)) == Some(f)
    ensures ParseAvailability(AvailabilityLabel(a)) == Some(a)
    ensures ParseSource(SourceLabel(src)) == Some(src)
    ensures ParseStatus(StatusLabel(st)) == Some(st)
  {
  }

  /** The furnishing status ranges over exactly three strings. */
  lemma FurnishingLabelsExactly(s: string)
    ensures ParseFurnishing(s).Some? <==> s in {"Furnished", "Semi-Furnished", "Unfurnished"}
  {
  }

  /** Availability ranges over exactly four strings. */
  lemma AvailabilityLabelsExactly(s: string)
    ensures ParseAvailability(s).Some? <==>
      s in {"Immediate", "Within 15 Days", "Within 30 Days", "After 30 Days"}
  {
  }

  /** An inquiry's source is one of two strings and its status one of four. */
  lemma InquiryLabelsExactly(s: string)
    ensures ParseSource(s).Some? <==> s in {"Form", "WhatsApp"}
    ensures ParseStatus(s).Some? <==> s in {"New", "Contacted", "Scheduled", "Closed"}
  {
  }

  // ---------------------------------------------------------------------
  // Records. JavaScript numbers are modelled as mathematical integers.
  // ---------------------------------------------------------------------

  /** Everything a property carries except its identity, its timestamps and
      its counters: `Omit<Property, 'id' | 'createdAt' | 'updatedAt' |
      'views' | 'qrCodeScans' | 'linkClicks'>`, the argument of
      `addProperty`. Sequence fields keep display order. */
  datatype Listing = Listing(
    title: string,
    developer: string,
    price: int,
    rentalValue: int,
    securityDeposit: int,
    furnishingStatus: Furnishing,
    superArea: int,
    availability: Availability,
    floorNumber: int,
    totalFloors: int,
    bathrooms: int,
    constructionAge: int,
    address: string,
    landmarks: seq<string>,
    overlooking: seq<string>,
    description: string,
    amenities: seq<string>,
    images: seq<string>,
    tenantPreferences: seq<string>)

  /** The three engagement counters a property carries. */
  datatype Metric = Views | QrCodeScans | LinkClicks

  datatype Property = Property(
    id: string,
    listing: Listing,
    createdAt: int,
    updatedAt: int,
    views: int,
    qrCodeScans: int,
    linkClicks: int)
  {
    /** The counter `m` of this property (`p[metric]`). */
    function Counter(m: Metric): int {
      match m
      case Views => views
      case QrCodeScans => qrCodeScans
      case LinkClicks => linkClicks
    }

    /** This property with counter `m` set to `v` (`{ ...p, [metric]: v }`). */
    function WithCounter(m: Metric, v: int): (r: Property)
      ensures r.Counter(m) == v
      ensures forall other :: other != m ==> r.Counter(other) == Counter(other)
      ensures r.id == id && r.listing == listing
      ensures r.createdAt == createdAt && r.updatedAt == updatedAt
    {
      match m
      case Views => this.(views := v)
      case QrCodeScans => this.(qrCodeScans := v)
      case LinkClicks => this.(linkClicks := v)
    }
  }

  datatype TrafficSource = TrafficSource(id: string, name: string, visits: int, date: string)

  datatype CustomerInquiry = CustomerInquiry(
    id: string,
    propertyId: string,
    name: string,
    email: string,
    phone: string,
    message: string,
    source: InquirySource,
    createdAt: int,
    status: InquiryStatus)

  // ---------------------------------------------------------------------
  // Projections used by the store's invariants and the pages.
  // ---------------------------------------------------------------------

  function PropertyIds(ps: seq<Property>): (r: seq<string>)
    ensures |r| == |ps| && forall i :: 0 <= i < |ps| ==> r[i] == ps[i].id
  {
    seq(|ps|, i requires 0 <= i < |ps| => ps[i].id)
  }

  function InquiryIds(qs: seq<CustomerInquiry>): (r: seq<string>)
    ensures |r| == |qs| && forall i :: 0 <= i < |qs| ==> r[i] == qs[i].id
  {
    seq(|qs|, i requires 0 <= i < |qs| => qs[i].id)
  }

  function TrafficIds(ts: seq<TrafficSource>): (r: seq<string>)
    ensures |r| == |ts| && forall i :: 0 <= i < |ts| ==> r[i] == ts[i].id
  {
    seq(|ts|, i requires 0 <= i < |ts| => ts[i].id)
  }

  function TrafficNames(ts: seq<TrafficSource>): (r: seq<string>)
    ensures |r| == |ts| && forall i :: 0 <= i < |ts| ==> r[i] == ts[i].name
  {
    seq(|ts|, i requires 0 <= i < |ts| => ts[i].name)
  }

  /** Sum of `visits` over a sequence of traffic sources. */
  function TotalVisits(ts: seq<TrafficSource>): int
  {
    if ts == [] then 0 else TotalVisits(ts[..|ts| - 1]) + ts[|ts| - 1].visits
  }

  /** Sum of counter `m` over a sequence of properties. */
  function CounterTotal(ps: seq<Property>, m: Metric): int
  {
    if ps == [] then 0 else ps[0].Counter(m) + CounterTotal(ps[1..], m)
  }
}
