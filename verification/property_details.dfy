/** The property details page (`src/pages/PropertyDetails.tsx`): which
    property the route shows, the image carousel, the contact form's
    inquiry, the QR download counter, and the "similar properties" strip. */
module PropertyDetails {
  import opened Types
  import opened Seqs
  import opened Store
  import Inquiries

  // ---------------------------------------------------------------------
  // The displayed property
  // ---------------------------------------------------------------------

  /** The property the route `properties/:id` shows: the first one whose id
      equals the route parameter. An absent parameter matches nothing, and
      `None` is the "Property Not Found" branch. */
  function ShownProperty(ps: seq<Property>, routeId: Option<string>): (r: Option<Property>)
    ensures routeId.None? ==> r.None?
    ensures routeId.Some? ==> (r.None? <==> routeId.value !in PropertyIds(ps))
    ensures r.Some? ==> r.value in ps && r.value.id == routeId.value
    ensures r.Some? ==> forall i :: 0 <= i < |ps| && ps[i].id == routeId.value ==>
      r.value == ps[FirstIndex(PropertyIds(ps), routeId.value)] && FirstIndex(PropertyIds(ps), routeId.value) <= i
  {
    match routeId
    case None => None
    case Some(id) => FindProperty(ps, id)
  }

  /** Once the property is deleted, its page takes the not-found branch. */
  lemma DeletedPropertyNotFound(s: State, id: string)
    ensures ShownProperty(DeleteProperty(s, id).properties, Some(id)).None?
  {
  }

  // ---------------------------------------------------------------------
  // Image carousel
  // ---------------------------------------------------------------------

  /** `handleImageNavigation('next')` on `images.length == n`. */
  function NextImage(i: int, n: int): (r: int)
    ensures 0 <= i < n ==> 0 <= r < n
    ensures i == n - 1 ==> r == 0
    ensures i != n - 1 ==> r == i + 1
  {
    if i == n - 1 then 0 else i + 1
  }

  /** `handleImageNavigation('prev')` on `images.length == n`. */
  function PrevImage(i: int, n: int): (r: int)
    ensures 0 <= i < n ==> 0 <= r < n
    ensures i == 0 ==> r == n - 1
    ensures i != 0 ==> r == i - 1
  {
    if i == 0 then n - 1 else i - 1
  }

  /** With at least one image (the only case in which the buttons render),
      "prev" undoes "next" and "next" undoes "prev". */
  lemma NavigationUndoes(i: int, n: int)
    requires 0 <= i < n
    ensures PrevImage(NextImage(i, n), n) == i
    ensures NextImage(PrevImage(i, n), n) == i
  {
  }

  /** `k` presses of "next". */
  function NextTimes(i: int, n: int, k: nat): int
  {
    if k == 0 then i else NextImage(NextTimes(i, n, k - 1), n)
  }

  /** Within one lap, `k` presses of "next" from index `i` advance `k`
      places, wrapping past the last image once. */
  lemma {:induction false} NextTimesWraps(i: int, n: int, k: nat)
    requires 0 <= i < n && k <= n
    ensures NextTimes(i, n, k) == if i + k < n then i + k else i + k - n
    decreases k
  {
    if k > 0 {
      NextTimesWraps(i, n, k - 1);
    }
  }

  /** `n` presses of "next" on `n` images come back to the start. */
  lemma FullLapReturns(i: int, n: int)
    requires 0 <= i < n
    ensures NextTimes(i, n, n) == i
  {
    NextTimesWraps(i, n, n);
  }

  /** From an in-range index every run of "next" presses stays in range. */
  lemma {:induction false} NextTimesInRange(i: int, n: int, k: nat)
    requires 0 <= i < n
    ensures 0 <= NextTimes(i, n, k) < n
    decreases k
  {
    if k > 0 {
      NextTimesInRange(i, n, k - 1);
    }
  }

  /** The index is `useState(0)`, set on mount only: following a "similar
      property" link re-renders the same page for another property and keeps
      the index. An index at or past the new image count never wraps again:
      "next" only counts up, and "prev" followed by "next" does not return. */
  lemma {:induction false} StaleIndexNeverWraps(i: int, n: int, k: nat)
    requires n <= i
    ensures NextTimes(i, n, k) == i + k
    decreases k
  {
    if k > 0 {
      StaleIndexNeverWraps(i, n, k - 1);
    }
  }

  /** The smallest case: index 2, carried over from a property with three
      images to one with two. */
  lemma StaleIndexExample()
    ensures NextImage(2, 2) == 3
    ensures NextImage(PrevImage(2, 2), 2) == 0 != 2
  {
  }

  /** The index after the route's property changes from `from` to `to`,
      with the evident intent: a different property starts at its first
      image, the same one keeps its place. */
  function IndexAfterRouteChange(i: int, from: string, to: string): int
  {
    if from == to then i else 0
  }

  /** With the reset, a carousel that was in range for the same property,
      or that comes to a property with at least one image, stays in range
      through any run of "next" presses. */
  lemma {:induction false} ResetKeepsInRange(i: int, from: string, to: string, n: int, k: nat)
    requires n > 0
    requires from == to ==> 0 <= i < n
    ensures 0 <= NextTimes(IndexAfterRouteChange(i, from, to), n, k) < n
  {
    NextTimesInRange(IndexAfterRouteChange(i, from, to), n, k);
  }

  // ---------------------------------------------------------------------
  // Contact form
  // ---------------------------------------------------------------------

  /** The contact form's four text fields. */
  datatype InquiryForm = InquiryForm(name: string, email: string, phone: string, message: string)

  /** The form as it starts and as it is reset after a submission. */
  const EmptyInquiryForm := InquiryForm("", "", "", "")

  /** The argument `handleInquirySubmit` passes to `addInquiry`. */
  function InquiryFor(shown: Property, form: InquiryForm): (d: InquiryDraft)
    ensures d.propertyId == shown.id
    ensures d.source == Form && d.status == New
    ensures d.name == form.name && d.email == form.email
    ensures d.phone == form.phone && d.message == form.message
  {
    InquiryDraft(shown.id, form.name, form.email, form.phone, form.message, Form, New)
  }

  /** `handleInquirySubmit`: stores the inquiry and resets the form. */
  function SubmitInquiry(s: State, shown: Property, form: InquiryForm, freshId: string, now: int): (r: (State, InquiryForm))
    ensures r.1 == EmptyInquiryForm
    ensures |r.0.inquiries| == |s.inquiries| + 1 && r.0.inquiries[..|s.inquiries|] == s.inquiries
    ensures var q := r.0.inquiries[|s.inquiries|];
      q.id == freshId && q.propertyId == shown.id && q.source == Form && q.status == New && q.createdAt == now
    ensures var q := r.0.inquiries[|s.inquiries|];
      q.name == form.name && q.email == form.email && q.phone == form.phone && q.message == form.message
    ensures r.0.properties == s.properties && r.0.lists == s.lists && r.0.trafficSources == s.trafficSources
  {
    (AddInquiry(s, InquiryFor(shown, form), freshId, now), EmptyInquiryForm)
  }

  /** A submitted inquiry appears on the inquiries page under "New" and is
      titled with the property it was sent from. */
  lemma SubmittedInquiryOnInquiriesPage(s: State, routeId: string, form: InquiryForm, freshId: string, now: int)
    requires ShownProperty(s.properties, Some(routeId)).Some?
    requires ShownProperty(s.properties, Some(routeId)).value.listing.title != ""
    ensures var shown := ShownProperty(s.properties, Some(routeId)).value;
      var r := SubmitInquiry(s, shown, form, freshId, now).0;
      var q := r.inquiries[|s.inquiries|];
      && q in Inquiries.FilterInquiries(r.inquiries, "New")
      && Inquiries.PropertyTitle(r.properties, q.propertyId) == shown.listing.title
  {
    var shown := ShownProperty(s.properties, Some(routeId)).value;
    var r := SubmitInquiry(s, shown, form, freshId, now).0;
    assert r.inquiries[|s.inquiries|] in r.inquiries;
  }

  // ---------------------------------------------------------------------
  // QR download
  // ---------------------------------------------------------------------

  /** `handleQRCodeDownload`: counts one QR scan for the shown property. */
  function QrCodeDownload(s: State, shown: Property): (r: State)
    ensures |r.properties| == |s.properties|
    ensures forall i :: 0 <= i < |s.properties| ==>
      r.properties[i] == if s.properties[i].id == shown.id
        then s.properties[i].(qrCodeScans := s.properties[i].qrCodeScans + 1)
        else s.properties[i]
    ensures r.lists == s.lists && r.inquiries == s.inquiries && r.trafficSources == s.trafficSources
  {
    IncrementPropertyMetric(s, shown.id, QrCodeScans)
  }

  // ---------------------------------------------------------------------
  // Similar properties
  // ---------------------------------------------------------------------

  /** The candidates for the strip: every other property that the price
      test `near` accepts, in collection order. */
  function Candidates(ps: seq<Property>, shown: Property, near: Property -> bool): (r: seq<Property>)
    ensures forall p :: p in r <==> p in ps && p.id != shown.id && near(p)
    ensures IsSubsequence(r, ps)
    ensures |r| == CountWhere(ps, (p: Property) => p.id != shown.id && near(p))
  {
    Filter(ps, (p: Property) => p.id != shown.id && near(p))
  }

  /** `similarProperties`: the first three candidates. */
  function SimilarProperties(ps: seq<Property>, shown: Property, near: Property -> bool): (r: seq<Property>)
    ensures |r| <= 3
    ensures forall p :: p in r ==> p in ps && p.id != shown.id && near(p)
    ensures IsSubsequence(r, ps)
  {
    var c := Candidates(ps, shown, near);
    var r := if |c| <= 3 then c else c[..3];
    PrefixIsSubsequence(r, c);
    SubsequenceTransitive(r, c, ps);
    r
  }

  /** The strip drops a candidate only when it is already full. */
  lemma SimilarDropsOnlyWhenFull(ps: seq<Property>, shown: Property, near: Property -> bool, p: Property)
    requires p in ps && p.id != shown.id && near(p)
    requires p !in SimilarProperties(ps, shown, near)
    ensures |SimilarProperties(ps, shown, near)| == 3
  {
  }
}
