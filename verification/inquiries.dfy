/** The inquiries page (`src/pages/Inquiries.tsx`): the status filter, the
    title shown for an inquiry's property, and the status selector. */
module Inquiries {
  import opened Types
  import opened Seqs
  import opened Store

  /** The filter value that shows every inquiry; the other options of the
      selector are the status labels. */
  const ShowAll := "all"

  /** The title shown when an inquiry's property cannot be found or has an
      empty title. */
  const UnknownProperty := "Unknown Property"

  /** Whether inquiry `q` passes the selector's value `statusFilter`. */
  predicate Shown(statusFilter: string, q: CustomerInquiry) {
    statusFilter == ShowAll || StatusLabel(q.status) == statusFilter
  }

  /** `filteredInquiries`: everything for `all`, otherwise the inquiries
      whose status label equals the filter value, in collection order. */
  function FilterInquiries(qs: seq<CustomerInquiry>, statusFilter: string): (r: seq<CustomerInquiry>)
    ensures statusFilter == ShowAll ==> r == qs
    ensures IsSubsequence(r, qs)
    ensures statusFilter != ShowAll ==>
      forall q :: q in r <==> q in qs && StatusLabel(q.status) == statusFilter
  {
    var keep := (q: CustomerInquiry) => Shown(statusFilter, q);
    if statusFilter == ShowAll then
      FilterKeepsAll(qs, keep);
      Filter(qs, keep)
    else
      Filter(qs, keep)
  }

  /** A filter value that is neither `all` nor a status label shows nothing. */
  lemma {:induction false} UnknownFilterShowsNothing(qs: seq<CustomerInquiry>, statusFilter: string)
    requires statusFilter != ShowAll && ParseStatus(statusFilter).None?
    ensures FilterInquiries(qs, statusFilter) == []
    decreases |qs|
  {
    if qs != [] {
      assert StatusLabel(qs[0].status) != statusFilter;
      UnknownFilterShowsNothing(qs[1..], statusFilter);
    }
  }

  /** The four status views together show every inquiry exactly once. */
  lemma {:induction false} StatusFiltersPartition(qs: seq<CustomerInquiry>)
    ensures |FilterInquiries(qs, "New")| + |FilterInquiries(qs, "Contacted")|
          + |FilterInquiries(qs, "Scheduled")| + |FilterInquiries(qs, "Closed")| == |qs|
    decreases |qs|
  {
    if qs != [] {
      StatusFiltersPartition(qs[1..]);
    }
  }

  /** `getPropertyTitle(propertyId)`: the title of the first property with
      that id; a missing property or an empty title shows as unknown. */
  function PropertyTitle(ps: seq<Property>, propertyId: string): (r: string)
    ensures propertyId !in PropertyIds(ps) ==> r == UnknownProperty
    ensures propertyId in PropertyIds(ps) ==>
      var p := ps[FirstIndex(PropertyIds(ps), propertyId)];
      r == if p.listing.title == "" then UnknownProperty else p.listing.title
  {
    match FindProperty(ps, propertyId)
    case Some(p) => if p.listing.title != "" then p.listing.title else UnknownProperty
    case None => UnknownProperty
  }

  /** Deleting a property leaves the inquiries about it in place, and the
      page then shows them as about an unknown property. */
  lemma DeletedPropertyShowsUnknown(s: State, q: CustomerInquiry)
    requires q in s.inquiries
    ensures var r := DeleteProperty(s, q.propertyId);
      q in r.inquiries && PropertyTitle(r.properties, q.propertyId) == UnknownProperty
  {
  }

  /** `handleStatusChange(inquiryId, newStatus)`: forwards to the store,
      so every inquiry with that id takes the new status and nothing else
      changes. */
  function HandleStatusChange(s: State, inquiryId: string, newStatus: InquiryStatus): (r: State)
    ensures |r.inquiries| == |s.inquiries|
    ensures forall i :: 0 <= i < |s.inquiries| ==>
      && r.inquiries[i].id == s.inquiries[i].id
      && r.inquiries[i].status == (if s.inquiries[i].id == inquiryId then newStatus else s.inquiries[i].status)
      && r.inquiries[i].(status := s.inquiries[i].status) == s.inquiries[i]
    ensures r.properties == s.properties && r.lists == s.lists && r.trafficSources == s.trafficSources
  {
    UpdateInquiryStatus(s, inquiryId, newStatus)
  }

  /** After a status change the inquiry is listed under its new status and
      under no other; inquiries with other ids keep their place in every
      view; the unfiltered view keeps its length. */
  lemma StatusChangeMovesInquiry(s: State, i: nat, newStatus: InquiryStatus, statusFilter: string)
    requires i < |s.inquiries|
    ensures var r := HandleStatusChange(s, s.inquiries[i].id, newStatus).inquiries;
      && |FilterInquiries(r, ShowAll)| == |s.inquiries|
      && r[i].id == s.inquiries[i].id
      && (r[i] in FilterInquiries(r, statusFilter) <==>
            statusFilter == ShowAll || statusFilter == StatusLabel(newStatus))
  {
    var r := HandleStatusChange(s, s.inquiries[i].id, newStatus).inquiries;
    assert r[i] in r;
  }

  lemma OtherInquiriesKeepTheirView(s: State, inquiryId: string, newStatus: InquiryStatus, statusFilter: string, j: nat)
    requires j < |s.inquiries| && s.inquiries[j].id != inquiryId
    ensures var r := HandleStatusChange(s, inquiryId, newStatus).inquiries;
      r[j] == s.inquiries[j] &&
      (r[j] in FilterInquiries(r, statusFilter) <==> s.inquiries[j] in FilterInquiries(s.inquiries, statusFilter))
  {
    var r := HandleStatusChange(s, inquiryId, newStatus).inquiries;
    assert r[j] in r && s.inquiries[j] in s.inquiries;
  }
}
