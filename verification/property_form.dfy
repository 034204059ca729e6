/** The "add property to list" form (`src/components/PropertyForm.tsx`):
    splitting and trimming the comma-separated fields, building the list
    entry, and adding images. */
module PropertyForm {
  import opened Types
  import opened Seqs
  import opened Store
  import Dashboard

  // ---------------------------------------------------------------------
  // `String.prototype.trim`
  // ---------------------------------------------------------------------

  /** The characters `trim` strips: ECMAScript's WhiteSpace and
      LineTerminator code points. */
  predicate IsJsSpace(c: char) {
    || c == '\t' || c == '\n' || c == '\U{000B}' || c == '\U{000C}' || c == '\r'
    || c == ' ' || c == '\U{00A0}' || c == '\U{1680}'
    || ('\U{2000}' <= c <= '\U{200A}')
    || c == '\U{2028}' || c == '\U{2029}' || c == '\U{202F}' || c == '\U{205F}'
    || c == '\U{3000}' || c == '\U{FEFF}'
  }

  /** Number of whitespace characters at the start of `s`. */
  function LeadingSpace(s: string): (n: nat)
    ensures n <= |s|
    ensures forall k :: 0 <= k < n ==> IsJsSpace(s[k])
    ensures n < |s| ==> !IsJsSpace(s[n])
  {
    if s == [] || !IsJsSpace(s[0]) then 0 else 1 + LeadingSpace(s[1..])
  }

  /** Number of whitespace characters at the end of `s`. */
  function TrailingSpace(s: string): (n: nat)
    ensures n <= |s|
    ensures forall k :: |s| - n <= k < |s| ==> IsJsSpace(s[k])
    ensures n < |s| ==> !IsJsSpace(s[|s| - n - 1])
  {
    if s == [] || !IsJsSpace(s[|s| - 1]) then 0 else 1 + TrailingSpace(s[..|s| - 1])
  }

  /** `s.trim()`: the part of `s` between its leading and its trailing
      whitespace. The result neither starts nor ends with whitespace, and
      it is empty exactly when `s` is all whitespace. */
  function Trim(s: string): (r: string)
    ensures |r| <= |s|
    ensures r == [] || (!IsJsSpace(r[0]) && !IsJsSpace(r[|r| - 1]))
    ensures LeadingSpace(s) + |r| <= |s| && r == s[LeadingSpace(s)..LeadingSpace(s) + |r|]
    ensures forall k :: LeadingSpace(s) + |r| <= k < |s| ==> IsJsSpace(s[k])
    ensures r == [] <==> forall k :: 0 <= k < |s| ==> IsJsSpace(s[k])
  {
    var a := LeadingSpace(s);
    if a == |s| then [] else s[a..|s| - TrailingSpace(s)]
  }

  /** A string without whitespace at either end is its own trim. */
  lemma TrimKeepsClean(s: string)
    requires s == [] || (!IsJsSpace(s[0]) && !IsJsSpace(s[|s| - 1]))
    ensures Trim(s) == s
  {
    if s != [] {
      assert LeadingSpace(s) == 0;
      assert TrailingSpace(s) == 0;
    }
  }

  lemma TrimIdempotent(s: string)
    ensures Trim(Trim(s)) == Trim(s)
  {
    TrimKeepsClean(Trim(s));
  }

  // ---------------------------------------------------------------------
  // `String.prototype.split` on a one-character separator
  // ---------------------------------------------------------------------

  /** Number of occurrences of `c` in `s`. */
  function Occurrences(s: string, c: char): nat
  {
    if s == [] then 0 else (if s[0] == c then 1 else 0) + Occurrences(s[1..], c)
  }

  lemma {:induction false} OccurrencesAbsent(s: string, c: char)
    requires c !in s
    ensures Occurrences(s, c) == 0
    decreases |s|
  {
    if s != [] {
      assert forall x :: x in s[1..] ==> x in s;
      OccurrencesAbsent(s[1..], c);
    }
  }

  lemma {:induction false} OccurrencesAtFirst(s: string, c: char)
    requires c in s
    ensures Occurrences(s, c) == 1 + Occurrences(s[FirstIndex(s, c) + 1..], c)
    decreases |s|
  {
    if s[0] != c {
      assert c in s[1..];
      OccurrencesAtFirst(s[1..], c);
      assert s[1..][FirstIndex(s[1..], c) + 1..] == s[FirstIndex(s, c) + 1..];
    }
  }

  /** `s.split(sep)`: the pieces between consecutive separators, one more
      than there are separators; no piece holds a separator. */
  function Split(s: string, sep: char): (r: seq<string>)
    ensures |r| == Occurrences(s, sep) + 1
    ensures forall k :: 0 <= k < |r| ==> sep !in r[k]
    decreases |s|
  {
    var i := FirstIndex(s, sep);
    if i == |s| then
      OccurrencesAbsent(s, sep);
      [s]
    else
      OccurrencesAtFirst(s, sep);
      assert forall x :: x in s[..i] ==> x != sep;
      [s[..i]] + Split(s[i + 1..], sep)
  }

  /** `pieces.join(sep)`. */
  function Join(pieces: seq<string>, sep: char): string
  {
    if |pieces| == 0 then []
    else if |pieces| == 1 then pieces[0]
    else pieces[0] + [sep] + Join(pieces[1..], sep)
  }

  /** Joining the pieces back with the separator gives the input. */
  lemma {:induction false} SplitJoin(s: string, sep: char)
    ensures Join(Split(s, sep), sep) == s
    decreases |s|
  {
    var i := FirstIndex(s, sep);
    if i < |s| {
      var rest := Split(s[i + 1..], sep);
      assert Split(s, sep) == [s[..i]] + rest;
      assert ([s[..i]] + rest)[1..] == rest;
      SplitJoin(s[i + 1..], sep);
      assert s == s[..i] + [sep] + s[i + 1..];
    } else {
      assert Split(s, sep) == [s];
    }
  }

  /** Splitting a join of separator-free pieces gives the pieces back. */
  lemma {:induction false} JoinSplit(pieces: seq<string>, sep: char)
    requires |pieces| >= 1
    requires forall k :: 0 <= k < |pieces| ==> sep !in pieces[k]
    ensures Split(Join(pieces, sep), sep) == pieces
    decreases |pieces|
  {
    if |pieces| > 1 {
      var head := pieces[0];
      var rest := Join(pieces[1..], sep);
      var s := head + [sep] + rest;
      assert Join(pieces, sep) == s;
      assert s[|head|] == sep;
      assert forall k :: 0 <= k < |head| ==> s[k] == head[k];
      assert FirstIndex(s, sep) == |head|;
      assert s[..|head|] == head && s[|head| + 1..] == rest;
      JoinSplit(pieces[1..], sep);
      assert pieces == [head] + pieces[1..];
    }
  }

  // ---------------------------------------------------------------------
  // Comma-separated fields: `value.split(',').map(s => s.trim())`
  // ---------------------------------------------------------------------

  /** A comma-separated field as stored: one trimmed piece per piece of the
      split, in order. */
  function ParseList(s: string): (r: seq<string>)
    ensures |r| == Occurrences(s, ',') + 1
    ensures forall k :: 0 <= k < |r| ==>
      && r[k] == Trim(Split(s, ',')[k])
      && ',' !in r[k]
      && (r[k] == [] || (!IsJsSpace(r[k][0]) && !IsJsSpace(r[k][|r[k]| - 1])))
  {
    var pieces := Split(s, ',');
    seq(|pieces|, k requires 0 <= k < |pieces| => Trim(pieces[k]))
  }

  /** An input without a comma is one item: the input trimmed. */
  lemma NoCommaOneItem(s: string)
    requires ',' !in s
    ensures ParseList(s) == [Trim(s)]
  {
    OccurrencesAbsent(s, ',');
  }

  /** Items typed without stray whitespace or commas come back unchanged
      when written comma-separated. */
  lemma {:induction false} ParseListRoundTrip(items: seq<string>)
    requires |items| >= 1
    requires forall k :: 0 <= k < |items| ==>
      ',' !in items[k] && (items[k] == [] || (!IsJsSpace(items[k][0]) && !IsJsSpace(items[k][|items[k]| - 1])))
    ensures ParseList(Join(items, ',')) == items
  {
    JoinSplit(items, ',');
    forall k | 0 <= k < |items| ensures Trim(items[k]) == items[k] {
      TrimKeepsClean(items[k]);
    }
  }

  // ---------------------------------------------------------------------
  // The form and the entry it submits
  // ---------------------------------------------------------------------

  /** The form's fields. Numeric fields hold the numbers the inputs convert
      to; the four list fields hold the raw comma-separated text. */
  datatype FormData = FormData(
    title: string,
    developer: string,
    price: int,
    rentalValue: int,
    securityDeposit: int,
    furnishingStatus: Furnishing,
    superArea: int,
    availability: Availability,
    floorNumber: int,
    totalFloors: int,
    bathrooms: int,
    constructionAge: int,
    address: string,
    description: string,
    landmarks: string,
    overlooking: string,
    amenities: string,
    tenantPreferences: string,
    images: seq<string>)

  /** The form as it opens: empty text (which converts to 0), "Furnished",
      "Immediate" and no images. */
  const InitialFormData := FormData("", "", 0, 0, 0, Furnished, 0, Immediate, 0, 0, 0, 0,
                                    "", "", "", "", "", "", [])

  /** The listing part of the submitted entry: the four comma lists are
      split and trimmed, every other field is copied from the form. */
  function ListingOf(f: FormData): (l: Listing)
    ensures l.landmarks == ParseList(f.landmarks) && l.overlooking == ParseList(f.overlooking)
    ensures l.amenities == ParseList(f.amenities) && l.tenantPreferences == ParseList(f.tenantPreferences)
    ensures l.title == f.title && l.developer == f.developer && l.address == f.address
    ensures l.description == f.description && l.images == f.images
    ensures l.furnishingStatus == f.furnishingStatus && l.availability == f.availability
    ensures l.price == f.price && l.rentalValue == f.rentalValue && l.securityDeposit == f.securityDeposit
    ensures l.superArea == f.superArea && l.floorNumber == f.floorNumber && l.totalFloors == f.totalFloors
    ensures l.bathrooms == f.bathrooms && l.constructionAge == f.constructionAge
  {
    Listing(f.title, f.developer, f.price, f.rentalValue, f.securityDeposit, f.furnishingStatus,
            f.superArea, f.availability, f.floorNumber, f.totalFloors, f.bathrooms,
            f.constructionAge, f.address, ParseList(f.landmarks), ParseList(f.overlooking),
            f.description, ParseList(f.amenities), f.images, ParseList(f.tenantPreferences))
  }

  /** The property `handleSubmit` builds: the empty id and zero counters.
      The two timestamps come from two separate reads of the clock,
      `created` and `updated`. */
  function Entry(f: FormData, created: int, updated: int): (p: Property)
    ensures p.id == "" && p.views == 0 && p.qrCodeScans == 0 && p.linkClicks == 0
    ensures p.createdAt == created && p.updatedAt == updated
    ensures p.listing == ListingOf(f)
  {
    Property("", ListingOf(f), created, updated, 0, 0, 0)
  }

  /** `handleSubmit`: the entry goes into the list the form was opened
      for, never into the global collection. */
  function SubmitForm(s: State, listId: string, f: FormData, created: int, updated: int): (r: State)
    ensures r.properties == s.properties
    ensures r.inquiries == s.inquiries && r.trafficSources == s.trafficSources
    ensures |r.lists| == |s.lists|
    ensures forall i :: 0 <= i < |s.lists| ==>
      r.lists[i].properties == if s.lists[i].id == listId
        then s.lists[i].properties + [Entry(f, created, updated)]
        else s.lists[i].properties
    ensures forall i :: 0 <= i < |s.lists| ==> r.lists[i].(properties := s.lists[i].properties) == s.lists[i]
  {
    AddPropertyToList(s, listId, Entry(f, created, updated))
  }

  /** Submitting the form untouched stores zero numbers, "Furnished",
      "Immediate", no images, and each comma list as one empty item (the
      split of empty text is one empty piece). */
  lemma InitialFormEntry(created: int, updated: int)
    ensures var l := Entry(InitialFormData, created, updated).listing;
      && l.title == "" && l.price == 0 && l.images == []
      && l.furnishingStatus == Furnished && l.availability == Immediate
      && l.landmarks == [""] && l.overlooking == [""]
      && l.amenities == [""] && l.tenantPreferences == [""]
  {
  }

  /** `handleImageAdd`: new images go after the existing ones; nothing else
      in the form changes. */
  function AddImages(f: FormData, newImages: seq<string>): (r: FormData)
    ensures |r.images| == |f.images| + |newImages|
    ensures r.images[..|f.images|] == f.images && r.images[|f.images|..] == newImages
    ensures r.(images := f.images) == f
  {
    f.(images := f.images + newImages)
  }

  // ---------------------------------------------------------------------
  // All form entries share one id
  // ---------------------------------------------------------------------

  /** Members that all came through the form share the id `""`, so the
      dashboard shows a single one of them: the last submitted. */
  lemma FormEntriesCollapse(ps: seq<Property>)
    requires |ps| > 0
    requires forall i :: 0 <= i < |ps| ==> ps[i].id == ""
    ensures Dashboard.UniqueProperties(ps) == [ps[|ps| - 1]]
  {
    var u := Dashboard.UniqueProperties(ps);
    var ids := PropertyIds(ps);
    Dashboard.UniquePropertiesSpec(ps);
    var uids := PropertyIds(u);
    assert ids[0] == "";
    assert "" in uids;
    assert forall k :: 0 <= k < |uids| ==> uids[k] in ids;
    assert forall k :: 0 <= k < |uids| ==> uids[k] == "";
    KeyOrderLengthBound(uids, [""]);
    assert ids[|ps| - 1] == "";
    assert LastIndex(ids, "") == |ps| - 1;
  }

  /** Two submissions of the form to a list that holds only form entries
      leave the dashboard showing just the second one. */
  lemma TwoSubmissionsShowOnce(s: State, i: nat, f1: FormData, created1: int, updated1: int,
                                f2: FormData, created2: int, updated2: int)
    requires i < |s.lists|
    requires forall j :: 0 <= j < |s.lists[i].properties| ==> s.lists[i].properties[j].id == ""
    ensures var r := SubmitForm(SubmitForm(s, s.lists[i].id, f1, created1, updated1), s.lists[i].id, f2, created2, updated2);
      Dashboard.UniqueProperties(r.lists[i].properties) == [Entry(f2, created2, updated2)]
  {
    var ps := s.lists[i].properties + [Entry(f1, created1, updated1)] + [Entry(f2, created2, updated2)];
    FormEntriesCollapse(ps);
  }
}
