# Property lists, inquiries and traffic: a Dafny model

This project models the core of a small real-estate web application.
Agents build named lists of property listings, share each list through a
tracking link, and follow engagement: views, QR-code scans and link clicks
per property, and visits per traffic source and day. They also handle the
customer inquiries sent from a property page.

All state lives in one client-side store (`src/lib/store.ts`). It holds
four collections: properties, lists, inquiries and traffic sources. Nine
operations each map one snapshot of the store to the next. The pages
derive views from that state:

- the price/furnishing/availability filter;
- the analytics totals and the traffic grouped by source name;
- the dashboard's de-duplicated list members and tracking links;
- the inquiry status filter;
- the property page's carousel, contact form and "similar properties" strip;
- the add-to-list form with its comma-separated fields.

The model is functional. Every entity is an immutable datatype, every
collection a sequence, and every operation a pure function. The store's
sources of nondeterminism are parameters of the operations that use them:

- `nanoid()` becomes a fresh identifier;
- each `Date.now()` call becomes its own timestamp parameter, so two
  reads in one expression may differ; where a `.map` callback reads the
  clock once per element, the parameter is a clock function indexed by
  the element's position;
- the `toISOString().split('T')[0]` day key becomes a string.

A freshness assumption on the identifier appears only in the lemmas that
need it (unique ids). The operations themselves accept any identifier.

Modules, one per file:

| module | file | models |
|---|---|---|
| `Seqs` | seqs.dfy | `filter`, subsequences, first/last occurrence, the key order a JavaScript `Map` keeps |
| `Types` | types.dfy | `src/lib/types.ts`: records and their string enumerations |
| `Store` | store.dfy | `src/lib/store.ts`: state and the nine operations |
| `StoreProperties` | store_properties.dfy | invariants the operations keep, and their multi-step behaviour |
| `PropertyFilters` | property_filters.dfy | `src/components/PropertyFilters.tsx` and the filter of `src/pages/Properties.tsx` |
| `Analytics` | analytics.dfy | `src/pages/Analytics.tsx` |
| `Dashboard` | dashboard.dfy | `src/pages/Dashboard.tsx` |
| `Inquiries` | inquiries.dfy | `src/pages/Inquiries.tsx` |
| `PropertyDetails` | property_details.dfy | `src/pages/PropertyDetails.tsx` |
| `PropertyForm` | property_form.dfy | `src/components/PropertyForm.tsx` |

Behaviour of the code that the model keeps as written:

- `recordTraffic` finds the first record for (source, today). It then
  adds a visit to every record that shares that record's id. "Exactly one
  more visit in total" therefore holds only while record ids are distinct.
  The store's validity invariant guarantees this, and the lemmas assume it.
- `updateProperty` takes a `Partial<Property>`. A patch can therefore
  overwrite the id and the counters. Only `updatedAt` is always reset
  afterwards. Id uniqueness and counter preservation are proved for
  patches that leave those fields out.
- Every entry the add-to-list form submits has the id `""`. The dashboard
  de-duplicates a list's members by id. A list holding several form
  entries therefore shows only the last one submitted
  (`PropertyForm.FormEntriesCollapse`).
- `getPropertyTitle` uses `||`, so a property whose title is empty shows
  as "Unknown Property", the same as a missing one.

## Model

| member | source | states |
|---|---|---|
| `Types.LabelsRoundTrip` | src/lib/types.ts:8-45 | each enumeration's labels are pairwise different: parsing a value's label gives back that value |
| `Types.FurnishingLabelsExactly` | src/lib/types.ts:8 | a furnishing status is exactly one of "Furnished", "Semi-Furnished", "Unfurnished" |
| `Types.AvailabilityLabelsExactly` | src/lib/types.ts:10 | availability is exactly one of "Immediate", "Within 15 Days", "Within 30 Days", "After 30 Days" |
| `Types.InquiryLabelsExactly` | src/lib/types.ts:43-45 | an inquiry source is "Form" or "WhatsApp"; a status is one of "New", "Contacted", "Scheduled", "Closed" |
| `Store.CreateList` | src/lib/store.ts:37-48 | exactly one list is appended, with the given id, name, time and no members; earlier lists keep their order; the other collections are untouched |
| `Store.AddPropertyToList` | src/lib/store.ts:50-57 | the given value is appended to each list with that id; other lists and the other collections are untouched |
| `Store.AddProperty` | src/lib/store.ts:59-73 | one property is appended with the fresh id, `createdAt` and `updatedAt` from the two separate clock reads, and all three counters at 0; earlier properties keep their order |
| `Store.UpdateProperty` | src/lib/store.ts:75-82 | length and order kept; each matching entry becomes the spread of the patch with `updatedAt` set last, from its own clock read; the others are unchanged |
| `Store.Merge` | src/lib/store.ts:79 | `{ ...p, ...updates }`: the empty patch leaves the property as it is; a patch without an id or counters keeps them |
| `Types.WithCounter` | src/lib/store.ts:137 | `{ ...p, [metric]: v }`: the named counter becomes `v`; the other counters, the id and the listing are unchanged |
| `Types.Property.Counter` | src/lib/store.ts:137 | `p[metric]`: the counter the metric names (helper, no contract) |
| `Store.MergeIdempotent` | src/lib/store.ts:79 | spreading the same patch twice gives the same property as spreading it once |
| `Store.DeleteProperty` | src/lib/store.ts:84-87 | no property with that id remains; the rest stay, in order (a subsequence), each as many times as it occurred; lists, inquiries and traffic are untouched (no cascade) |
| `Store.AddInquiry` | src/lib/store.ts:89-95 | one inquiry is appended with the fresh id and time; the caller's fields, source and status are stored unchanged |
| `Store.UpdateInquiryStatus` | src/lib/store.ts:97-102 | only the status of matching inquiries changes, from any status to any status |
| `Store.FindDayRecord` | src/lib/store.ts:107-109 | the result is the first record for (source, day), or nothing exactly when there is none |
| `Store.AddVisit` | src/lib/store.ts:113-117 | every record with the id gains one visit; nothing else changes |
| `Store.RecordTraffic` | src/lib/store.ts:104-132 | with a record for (source, day), the visits of that record's id go up; otherwise one record with one visit is appended |
| `Store.IncrementPropertyMetric` | src/lib/store.ts:134-139 | matching properties gain one on the named counter; everything else is unchanged |
| `Store.FindProperty` | src/pages/PropertyDetails.tsx:14 | the first property with the id, or nothing exactly when no property has it |
| `StoreProperties.InitialIsValid` | src/lib/store.ts:32-35 | the empty store satisfies the invariant (unique ids per collection, one traffic record per source and day) |
| `StoreProperties.CreateListPreservesValid` | src/lib/store.ts:37-48 | with a fresh id, creating a list keeps the invariant |
| `StoreProperties.AddPropertyToListPreservesValid` | src/lib/store.ts:50-57 | adding to a list keeps the invariant, duplicates included |
| `StoreProperties.AddPropertyPreservesValid` | src/lib/store.ts:59-73 | with a fresh id, property ids stay pairwise distinct |
| `StoreProperties.UpdatePropertyPreservesValid` | src/lib/store.ts:75-82 | a patch without an id keeps the invariant |
| `StoreProperties.FilterKeepsIdsDistinct` | src/lib/store.ts:86 | filtering a collection with distinct ids keeps them distinct |
| `StoreProperties.DeletePropertyPreservesValid` | src/lib/store.ts:84-87 | deleting keeps the invariant |
| `StoreProperties.AddInquiryPreservesValid` | src/lib/store.ts:89-95 | with a fresh id, inquiry ids stay distinct |
| `StoreProperties.UpdateInquiryStatusPreservesValid` | src/lib/store.ts:97-102 | a status change keeps the invariant |
| `StoreProperties.IncrementPropertyMetricPreservesValid` | src/lib/store.ts:134-139 | an increment keeps the invariant |
| `StoreProperties.TotalVisitsBump` | src/lib/store.ts:113-117 | raising one record's visits by one raises the total by one |
| `StoreProperties.FindDayRecordAt` | src/lib/store.ts:107-109 | the lookup returns the record at the first matching index |
| `StoreProperties.RecordTrafficExisting` | src/lib/store.ts:111-119 | with distinct ids, the found record gains exactly one visit, no other record changes, and the total rises by one |
| `StoreProperties.RecordTrafficExistingKeepsValid` | src/lib/store.ts:111-119 | bumping an existing record keeps the invariant |
| `StoreProperties.RecordTrafficNewKeepsValid` | src/lib/store.ts:121-131 | without a record for the day, one record with one visit is appended; the invariant holds; the total rises by one |
| `StoreProperties.RecordTrafficSpec` | src/lib/store.ts:104-132 | the invariant is kept; total visits rise by exactly one; the record count is unchanged iff a record for (source, day) existed; afterwards one exists |
| `StoreProperties.RecordTrafficBumpsLast` | src/lib/store.ts:111-118 | a visit for the day of the last record, when it is the only one for that day and its id is unique, bumps just that record |
| `StoreProperties.RecordTrafficThreeTimesSameDay` | src/lib/store.ts:104-132 | three visits on one day from a source with no record leave one new record with three visits |
| `StoreProperties.UnknownIdsAreNoOps` | src/lib/store.ts:50-139 | an id that matches nothing leaves the state unchanged, for every id-taking operation |
| `StoreProperties.AddPropertyToListTwice` | src/lib/store.ts:54 | adding the same property twice grows the list by two: duplicates are allowed |
| `StoreProperties.ListsKeepSnapshots` | src/lib/store.ts:75-87 | updating or deleting the global property leaves every list's snapshot of it in place |
| `StoreProperties.UpdateTitle` | src/lib/store.ts:75-82 | a title patch changes only the title and `updatedAt` of matching properties |
| `StoreProperties.UpdateStampsNow` | src/lib/store.ts:79 | each match's `updatedAt` comes from its own clock read even when the patch carries one |
| `StoreProperties.UpdateKeepsCounters` | src/lib/store.ts:79 | a patch naming no counter and no id leaves counters and ids unchanged |
| `StoreProperties.IncrementTimesExact` | src/lib/store.ts:134-139 | `n` increments raise the counter by exactly `n` on matching properties and leave the other counters and properties unchanged |
| `StoreProperties.IncrementNeverLowers` | src/lib/store.ts:137 | no counter of any property ever decreases under an increment |
| `PropertyFilters.HandlePriceChange` | src/components/PropertyFilters.tsx:33-37 | only the chosen bound is written; the other bound and both selections are kept |
| `PropertyFilters.Toggle` | src/components/PropertyFilters.tsx:40-42 | a present value is removed wherever it occurs, and the result is a subsequence holding every other occurrence, as many times as in the input; an absent one is appended at the end |
| `PropertyFilters.ToggleFurnishing` | src/components/PropertyFilters.tsx:39-44 | the value's membership flips and every other value's membership is kept; price range and availability are unchanged |
| `PropertyFilters.ToggleAvailability` | src/components/PropertyFilters.tsx:46-51 | the value's membership flips and every other value's membership is kept; price range and furnishing are unchanged |
| `PropertyFilters.ToggleTwiceAbsent` | src/components/PropertyFilters.tsx:39-44 | toggling an absent value twice restores the selection |
| `PropertyFilters.ToggleTwicePresent` | src/components/PropertyFilters.tsx:40-42 | toggling a present value twice drops its repetitions and moves it to the end |
| `PropertyFilters.ToggleFurnishingTwice` | src/components/PropertyFilters.tsx:39-44 | a double furnishing toggle of an unchecked value restores the whole filter state |
| `PropertyFilters.ToggleAvailabilityTwice` | src/components/PropertyFilters.tsx:46-51 | a double availability toggle of an unchecked value restores the whole filter state |
| `PropertyFilters.FilteredProperties` | src/pages/Properties.tsx:17-26 | a subsequence of the properties; a property is kept iff its price is within both inclusive bounds and an empty or matching selection admits its furnishing and its availability |
| `PropertyFilters.Matches` | src/pages/Properties.tsx:18-25 | the per-property test: price within both inclusive bounds, and each selection empty or containing the property's label |
| `PropertyFilters.EmptySelectionsFilterOnlyByPrice` | src/pages/Properties.tsx:21-24 | with nothing checked, only the price range filters |
| `PropertyFilters.InitialFiltersShowWholeRange` | src/pages/Properties.tsx:11-26 | the initial filters show exactly the properties priced in [0, 1000000], hence all of them when all are in range |
| `PropertyFilters.WiderSelectionKeepsMatches` | src/pages/Properties.tsx:21-22 | checking one more box in a non-empty selection keeps every property that passed |
| `Analytics.IncrementRaisesTotal` | src/pages/Analytics.tsx:9-11 | an increment raises that metric's total by the number of properties with the id, and leaves the other two totals alone |
| `Analytics.CountWithIdOfDistinct` | src/pages/Analytics.tsx:9-11 | with distinct ids a present id is counted once, so a total rises by exactly one |
| `Analytics.ReduceCounterIsTotal` | src/pages/Analytics.tsx:9-11 | the `reduce` from 0, adding left to right, equals the counter's total over the collection |
| `Analytics.ReduceCounter` | src/pages/Analytics.tsx:9-11 | the `reduce` from 0 over non-negative counters is non-negative (its equality with the counter total is `ReduceCounterIsTotal`) |
| `Analytics.TotalViews` | src/pages/Analytics.tsx:9 | the `reduce` over `p.views` is the views total |
| `Analytics.TotalClicks` | src/pages/Analytics.tsx:10 | the `reduce` over `p.linkClicks` is the link-click total |
| `Analytics.TotalScans` | src/pages/Analytics.tsx:11 | the `reduce` over `p.qrCodeScans` is the QR-scan total |
| `Analytics.Accumulate` | src/pages/Analytics.tsx:22-28 | the reducer step grows the accumulator by at most one entry |
| `Analytics.AccumulateEntries` | src/pages/Analytics.tsx:23-28 | the step changes only the entry `find` lands on (adding the visits) or appends a new entry when `find` finds none; every other entry is kept |
| `Analytics.PropertyData` | src/pages/Analytics.tsx:14-19 | one row per property, in order, with the title and the three counters copied |
| `Analytics.RowsAddUpToTotal` | src/pages/Analytics.tsx:9-19 | the rows' views add up to the total views |
| `Analytics.AccumulateNames` | src/pages/Analytics.tsx:23-28 | the reducer step keeps the names it had and adds the source's name at the end iff it was missing |
| `Analytics.AccumulateVisits` | src/pages/Analytics.tsx:23-28 | the reducer step adds the source's visits to the first entry with its name and to no other, or appends a new entry; the total rises by the source's visits |
| `Analytics.TrafficDataNames` | src/pages/Analytics.tsx:22-30 | the grouped names are pairwise distinct, are exactly the source names, and follow first appearance |
| `Analytics.TrafficDataTotal` | src/pages/Analytics.tsx:22-30 | grouping preserves total visits |
| `Analytics.TrafficData` | src/pages/Analytics.tsx:22-30 | the grouping has at most one entry per source, and at least one when there are sources |
| `Analytics.AccumulateKeepsSums` | src/pages/Analytics.tsx:23-28 | one reducer step keeps every entry equal to the visits of all sources with its name |
| `Analytics.TrafficDataVisits` | src/pages/Analytics.tsx:22-30 | each grouped entry holds the sum of visits of all sources with that name |
| `Analytics.TrafficDataSpec` | src/pages/Analytics.tsx:22-30 | the grouping is by name, in first-appearance order, with per-name sums and the total preserved |
| `Analytics.TrafficDataLength` | src/pages/Analytics.tsx:22-30 | the grouping is no longer than the sources, and equally long iff the names are distinct |
| `Dashboard.HandleCreateList` | src/pages/Dashboard.tsx:15-20 | a list is created iff the prompt returns a non-empty name; a cancelled or empty prompt changes nothing |
| `Dashboard.TrackingLink` | src/pages/Dashboard.tsx:23 | the link is the origin, then `/track/`, then the list id |
| `Dashboard.TrackedListId` | src/App.tsx:24 | for links spelled exactly as the dashboard builds them (lower-case `/track/`, no trailing slash): an id is read iff the link is the origin, `/track/` and one plain segment (non-empty, not `.` or `..`, no `/`, `?`, `#` or `%`), and the link is that id's tracking link |
| `Dashboard.TrackingLinkRoundTrip` | src/pages/Dashboard.tsx:23 | for every non-empty id over the `nanoid()` alphabet, the tracking route reads back the id of the list whose link the dashboard shares |
| `Dashboard.MapSetEntries` | src/pages/Dashboard.tsx:56 | `set` replaces the first entry with the key by the new pair, or appends the pair when the key is new; every other entry is kept in place |
| `Dashboard.MapSetKeys` | src/pages/Dashboard.tsx:56 | `Map.set` keeps the key order and appends a new key at the end |
| `Dashboard.MapSetValues` | src/pages/Dashboard.tsx:56 | `Map.set` overwrites the value of an existing key in place and leaves the other values |
| `Dashboard.MapSet` | src/pages/Dashboard.tsx:56 | one `set` adds at most one entry |
| `Dashboard.BuildMap` | src/pages/Dashboard.tsx:56 | `new Map(entries)` has at most one entry per member |
| `Dashboard.BuildMapHoldsLast` | src/pages/Dashboard.tsx:56 | the map holds the member set last under its id |
| `Dashboard.UniqueProperties` | src/pages/Dashboard.tsx:55-57 | the shown members are no more than the list's, and the member added last is always shown |
| `Dashboard.BuildMapKeys` | src/pages/Dashboard.tsx:55-57 | the map's keys are the members' ids, once each, in order of first occurrence |
| `Dashboard.MapSetAt` | src/pages/Dashboard.tsx:56 | with distinct keys, an old position keeps its key and takes the new value iff its key is the one set |
| `Dashboard.MapSetKeepsLastSnapshots` | src/pages/Dashboard.tsx:55-57 | one insertion keeps every entry holding the last member with its key |
| `Dashboard.BuildMapValues` | src/pages/Dashboard.tsx:55-57 | each map entry holds the last member with its id |
| `Dashboard.UniquePropertiesSpec` | src/pages/Dashboard.tsx:55-57 | shown members have distinct ids, exactly the list's ids, ordered by first occurrence, each the last snapshot with that id; never longer than the list, equally long iff no id repeats |
| `Inquiries.Shown` | src/pages/Inquiries.tsx:16-18 | the filter's callback: "all" or the inquiry's status label equals the selector value (helper, no contract) |
| `Inquiries.FilterInquiries` | src/pages/Inquiries.tsx:16-18 | "all" shows every inquiry; any other value shows exactly the inquiries with that status label, in order |
| `Inquiries.UnknownFilterShowsNothing` | src/pages/Inquiries.tsx:16-18 | a filter value that is neither "all" nor a status label shows nothing |
| `Inquiries.StatusFiltersPartition` | src/pages/Inquiries.tsx:16-18 | the four status views together hold every inquiry exactly once |
| `Inquiries.PropertyTitle` | src/pages/Inquiries.tsx:20-23 | the first matching property's title when non-empty; "Unknown Property" when no property has the id or the title is empty |
| `Inquiries.DeletedPropertyShowsUnknown` | src/pages/Inquiries.tsx:20-23 | after its property is deleted an inquiry stays and is titled "Unknown Property" |
| `Inquiries.HandleStatusChange` | src/pages/Inquiries.tsx:25-27 | the inquiries with the id take the new status; nothing else changes |
| `Inquiries.StatusChangeMovesInquiry` | src/pages/Inquiries.tsx:25-27 | after a change the inquiry is listed under "all" and its new status and under no other |
| `Inquiries.OtherInquiriesKeepTheirView` | src/pages/Inquiries.tsx:25-27 | inquiries with other ids keep their place in every view |
| `PropertyDetails.ShownProperty` | src/pages/PropertyDetails.tsx:14-34 | the first property whose id equals the route id; not found exactly when none has it or the route has no id |
| `PropertyDetails.DeletedPropertyNotFound` | src/pages/PropertyDetails.tsx:14-34 | a deleted property's page takes the not-found branch |
| `PropertyDetails.NextImage` | src/pages/PropertyDetails.tsx:47-49 | from the last index "next" wraps to 0, otherwise adds one; from an in-range index it stays in range |
| `PropertyDetails.PrevImage` | src/pages/PropertyDetails.tsx:43-45 | from 0 "prev" wraps to the last index, otherwise subtracts one; from an in-range index it stays in range |
| `PropertyDetails.NavigationUndoes` | src/pages/PropertyDetails.tsx:41-51 | from an in-range index, "prev" undoes "next" and "next" undoes "prev" |
| `PropertyDetails.NextTimesWraps` | src/pages/PropertyDetails.tsx:47-49 | within one lap, `k` presses of "next" advance `k` places, wrapping once |
| `PropertyDetails.FullLapReturns` | src/pages/PropertyDetails.tsx:41-51 | from an in-range index, as many presses of "next" as there are images come back to the start |
| `PropertyDetails.NextTimesInRange` | src/pages/PropertyDetails.tsx:47-49 | from an in-range index, any number of "next" presses stays in range |
| `PropertyDetails.StaleIndexNeverWraps` | src/pages/PropertyDetails.tsx:15-49 | an index kept across a "similar property" link at or past the new image count only counts up under "next" and never wraps |
| `PropertyDetails.StaleIndexExample` | src/pages/PropertyDetails.tsx:15-49 | index 2 on two images: "next" gives 3, and "prev" then "next" gives 0, not 2 |
| `PropertyDetails.IndexAfterRouteChange` | src/pages/PropertyDetails.tsx:15 | the corrected index on a route change: 0 for another property, kept for the same one (helper, no contract; see `ResetKeepsInRange`) |
| `PropertyDetails.ResetKeepsInRange` | src/pages/PropertyDetails.tsx:15-49 | with the index reset to 0 when the route's property changes, any run of "next" presses on a property with images stays in range |
| `PropertyDetails.InquiryFor` | src/pages/PropertyDetails.tsx:55-60 | the inquiry names the shown property, has source "Form" and status "New", and carries the form's fields |
| `PropertyDetails.SubmitInquiry` | src/pages/PropertyDetails.tsx:53-63 | one inquiry for the shown property is appended with the form's name, email, phone and message, source "Form" and status "New"; the form is reset |
| `PropertyDetails.SubmittedInquiryOnInquiriesPage` | src/pages/PropertyDetails.tsx:53-63 | a submitted inquiry is listed under "New" and titled with the property it came from |
| `PropertyDetails.QrCodeDownload` | src/pages/PropertyDetails.tsx:36-39 | the shown property's QR scans rise by one; nothing else changes |
| `PropertyDetails.Candidates` | src/pages/PropertyDetails.tsx:72-76 | exactly the other properties the price test accepts, in collection order, each as many times as it occurs |
| `PropertyDetails.SimilarProperties` | src/pages/PropertyDetails.tsx:72-77 | at most three, never the shown property, a subsequence of the collection |
| `PropertyDetails.SimilarDropsOnlyWhenFull` | src/pages/PropertyDetails.tsx:72-77 | a candidate is left out only when three are already shown |
| `PropertyForm.LeadingSpace` | src/components/PropertyForm.tsx:47 | counts exactly the whitespace before the first other character |
| `PropertyForm.TrailingSpace` | src/components/PropertyForm.tsx:47 | counts exactly the whitespace after the last other character |
| `PropertyForm.Trim` | src/components/PropertyForm.tsx:47-50 | the part between leading and trailing whitespace: no whitespace at either end, empty iff all whitespace |
| `PropertyForm.TrimKeepsClean` | src/components/PropertyForm.tsx:47-50 | a string without whitespace at its ends is its own trim |
| `PropertyForm.TrimIdempotent` | src/components/PropertyForm.tsx:47-50 | trimming twice is trimming once |
| `PropertyForm.Split` | src/components/PropertyForm.tsx:47-50 | one piece more than there are commas; no piece holds a comma |
| `PropertyForm.SplitJoin` | src/components/PropertyForm.tsx:47-50 | joining the pieces with commas gives the input back |
| `PropertyForm.JoinSplit` | src/components/PropertyForm.tsx:47-50 | splitting a comma-join of comma-free pieces gives the pieces back |
| `PropertyForm.ParseList` | src/components/PropertyForm.tsx:47-50 | commas + 1 items, in order, each the trimmed piece, none with whitespace at either end |
| `PropertyForm.NoCommaOneItem` | src/components/PropertyForm.tsx:47-50 | an input without a comma is one item, the input trimmed |
| `PropertyForm.ParseListRoundTrip` | src/components/PropertyForm.tsx:47-50 | items without commas or outer whitespace come back unchanged from their comma-join |
| `PropertyForm.ListingOf` | src/components/PropertyForm.tsx:36-50 | the four list fields are the split-and-trimmed comma inputs; title, developer, the seven numbers, furnishing, availability, address, description and images are copied from the form |
| `PropertyForm.Entry` | src/components/PropertyForm.tsx:36-56 | the entry has the empty id, zero counters, the form's listing, and `createdAt`/`updatedAt` from the two separate clock reads |
| `PropertyForm.SubmitForm` | src/components/PropertyForm.tsx:36 | the entry is appended to the list with the form's list id; the global properties, inquiries, traffic sources and every list's id, name and creation time are unchanged |
| `PropertyForm.InitialFormEntry` | src/components/PropertyForm.tsx:12-56 | the untouched form submits zero numbers, "Furnished", "Immediate", no images, and each comma list as a single empty item |
| `PropertyForm.AddImages` | src/components/PropertyForm.tsx:60-67 | new images follow the existing ones, both in order; nothing else changes |
| `PropertyForm.FormEntriesCollapse` | src/components/PropertyForm.tsx:38 | members that all came from the form share one id, so the dashboard shows only the last |
| `PropertyForm.TwoSubmissionsShowOnce` | src/components/PropertyForm.tsx:36-56 | two submissions to a list of form entries leave the dashboard showing only the second |

## Left out

- Persistence: zustand's `create` and `persist` and the localStorage round trip (src/lib/store.ts:1-2, 29-31, 140-143). They are a foreign library and I/O. The model starts from the empty store.
- `nanoid()`, `Date.now()` and the ISO day key are parameters. Their values, and the formatting of the day key, are not modelled.
- JavaScript numbers are mathematical integers. Fractions, NaN, infinities and rounding of large values are not modelled.
- `Number(...)` conversion in the form (src/components/PropertyForm.tsx:39-46). It is floating-point string parsing, so `FormData` holds the converted numbers.
- PropertyDetails.SimilarProperties: the price-ratio test `Math.abs(p.price - property.price) / property.price <= 0.2` is floating-point division that can divide by zero. It is a caller-supplied predicate `near`, so only the self-exclusion and the cap of three are stated.
- Dashboard.TrackedListId: a link whose segment the browser or router would rewrite (cut at `?` or `#`, decode `%`-escapes, resolve `.` or `..`) yields no id, rather than the rewritten one. Ids from `nanoid()` never contain those characters. The router also matches `track` case-insensitively and accepts a trailing slash (`/TRACK/abc`, `/track/abc/`); the model reads no id from such links.
- Store.Merge: a patch field is either absent or a value. A key present with the value `undefined`, which the spread copies over the property's field, is not modelled.
- PropertyDetails.FullLapReturns: the carousel's periodicity is stated for one lap of presses, not as a general modular formula.
- PropertyDetails.NextImage, PrevImage and NavigationUndoes: the range and undo properties hold from an in-range index only. The page keeps a stale index across a "similar property" link (see "## Findings").
- StoreProperties.RecordTrafficSpec: "exactly one more visit" is proved under distinct record ids (the store invariant). The code adds a visit to every record sharing the found record's id.
- StoreProperties.UpdatePropertyPreservesValid: proved only for patches without an `id`. A `Partial<Property>` patch can rewrite the id.
- `prompt`, `navigator.clipboard`, `setTimeout`, `window.location`, `window.open`, `encodeURIComponent`, `URL.createObjectURL`, `toLocaleString`, WhatsApp URLs and QR rendering. These are browser integrations. Their results are inputs: the prompt's answer, the origin and the image URLs.
- All JSX rendering and React hooks. Component state (open forms, copied flags, chosen list) is plain data or is not modelled.
- src/components/Layout.tsx, src/components/PropertyCard.tsx and src/pages/TrackingPage.tsx are routing and rendering glue. So is src/App.tsx, beyond the shape of the tracking route.
- `AddPropertyModal`, imported by src/pages/Properties.tsx, is not part of this model.

## Findings

| source | as written | input that shows it | evidently intended | confidence | as-written member | corrected member |
|---|---|---|---|---|---|---|
| src/pages/PropertyDetails.tsx:15, 47-49, 87, 278-280 | the image index is `useState(0)`, so it is set on mount only; a "similar property" link re-renders the same page for another property and keeps the index | on a property with three images, press "next" twice (index 2), follow a link to a similar property with two images: `images[2]` is undefined, "next" gives 3, 4, … and never wraps, and "prev" then "next" gives 0 | the index starts at 0 whenever the shown property changes | medium; not executed | `PropertyDetails.StaleIndexNeverWraps`, `PropertyDetails.StaleIndexExample` | `PropertyDetails.ResetKeepsInRange` |
