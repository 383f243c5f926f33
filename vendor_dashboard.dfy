/** The vendor's dashboard: searching events, the Make Offer / Applied guard, building the booking
    row for an offer with its 5% commission, the status badge, and the offer modal's state. */
module VendorDashboard {
  import opened Records
  import opened Seqs
  import opened Text

  // ---------------------------------------------------------------------------------------------
  // Search

  /** The lower-cased event name contains the (already lower-cased) query. */
  function NameMatches(e: Event, query: string): (r: bool)
    ensures r <==> exists i :: OccursAt(query, Lower(e.name), i)
  {
    Includes(Lower(e.name), query)
  }

  /** The filtered event list for a lower-cased query: all events when it is empty. */
  function SearchResults(events: seq<Event>, query: string): (r: seq<Event>)
    ensures IsSubsequence(r, events)
  {
    if query == "" then
      SubsequenceReflexive(events); events
    else
      FilterIsSubsequence(events, (e: Event) => NameMatches(e, query));
      Filter(events, (e: Event) => NameMatches(e, query))
  }

  /** The search keeps exactly the events whose lower-cased name contains the query, each as many
      times as it is listed, in their order; the empty query keeps every event, which is the same
      list the general filter gives. */
  lemma SearchSpec(events: seq<Event>, query: string)
    ensures SearchResults(events, query) == Filter(events, (e: Event) => NameMatches(e, query))
    ensures IsSubsequence(SearchResults(events, query), events)
    ensures forall e :: e in SearchResults(events, query) <==>
              e in events && exists i :: OccursAt(query, Lower(e.name), i)
    ensures forall e :: multiset(SearchResults(events, query))[e] ==
              if exists i :: OccursAt(query, Lower(e.name), i) then multiset(events)[e] else 0
    ensures query == "" ==> SearchResults(events, query) == events
  {
    var p := (e: Event) => NameMatches(e, query);
    if query == "" {
      forall i | 0 <= i < |events| ensures p(events[i]) {
        EmptyIncluded(Lower(events[i].name));
      }
      FilterKeepsAll(events, p);
    }
    forall e ensures multiset(Filter(events, p))[e] == if p(e) then multiset(events)[e] else 0 {
      FilterMultiplicity(events, p, e);
    }
  }

  // ---------------------------------------------------------------------------------------------
  // The "already applied" guard

  /** `myBookings.some(b => b.event_id === eventId)`. */
  function AlreadyApplied(bookings: seq<Booking>, eventId: string): (r: bool)
    ensures r <==> exists k :: 0 <= k < |bookings| && bookings[k].eventId == eventId
  {
    if bookings == [] then false
    else bookings[0].eventId == eventId || AlreadyApplied(bookings[1..], eventId)
  }

  /** Changing a booking's status (to declined, say) never re-opens the Make Offer button:
      the guard looks at event ids only. */
  lemma AppliedWhateverStatus(bookings: seq<Booking>, k: nat, status: string, eventId: string)
    requires k < |bookings|
    ensures AlreadyApplied(bookings[k := bookings[k].(status := status)], eventId)
         == AlreadyApplied(bookings, eventId)
  {
    var changed := bookings[k := bookings[k].(status := status)];
    assert forall j :: 0 <= j < |bookings| ==> changed[j].eventId == bookings[j].eventId;
  }

  // ---------------------------------------------------------------------------------------------
  // The offer

  /** The platform's cut of a negotiated price. */
  const COMMISSION_RATE: real := 0.05

  /** `offerPrice * 0.05`, in exact arithmetic. */
  function Commission(price: real): (c: real)
    ensures c * 20.0 == price
    ensures price > 0.0 ==> 0.0 < c < price
  {
    price * COMMISSION_RATE
  }

  /** The booking row inserted for an offer of `price` by `vendorId` on event `e`. */
  function BuildDraft(e: Event, vendorId: string, price: real): (d: BookingDraft)
    ensures d.eventId == e.id && d.vendorId == vendorId
    ensures d.agreedFee == price && d.totalAmount == Numeric(price)
    ensures d.commissionAmount * 20.0 == price
    ensures d.status == PENDING
  {
    BookingDraft(e.id, vendorId, price, Numeric(price), Commission(price), PENDING)
  }

  /** A booking row as this dashboard creates it: agreed fee and total both the positive offered
      price, the 5% commission, pending. */
  predicate IsOffer(d: BookingDraft, vendorId: string)
  {
    && d.vendorId == vendorId
    && d.agreedFee > 0.0
    && d.totalAmount == Numeric(d.agreedFee)
    && d.commissionAmount == Commission(d.agreedFee)
    && d.status == PENDING
  }

  lemma ThreeThousandOffer(e: Event, vendorId: string)
    ensures BuildDraft(e, vendorId, 3000.0).commissionAmount == 150.0
    ensures IsOffer(BuildDraft(e, vendorId, 3000.0), vendorId)
  {
  }

  // ---------------------------------------------------------------------------------------------
  // Status badge

  datatype Badge = ApprovedBadge | PendingBadge | DeclinedBadge

  /** The badges a booking card shows: one conditional per known status name. */
  function Badges(status: string): (r: seq<Badge>)
    ensures |r| <= 1
    ensures |r| == 1 <==> IsKnownStatus(status)
    ensures PendingBadge in r <==> status == PENDING
    ensures ApprovedBadge in r <==> status == APPROVED
    ensures DeclinedBadge in r <==> status == DECLINED
  {
    assert PENDING[0] != APPROVED[0] && PENDING[0] != DECLINED[0] && APPROVED[0] != DECLINED[0];
    (if status == APPROVED then [ApprovedBadge] else [])
    + (if status == PENDING then [PendingBadge] else [])
    + (if status == DECLINED then [DeclinedBadge] else [])
  }

  // ---------------------------------------------------------------------------------------------
  // The dashboard's state

  /** No two bookings in `sent` are for the same event. */
  ghost predicate OneOfferPerEvent(sent: seq<Booking>)
  {
    forall i, j :: 0 <= i < j < |sent| ==> sent[i].eventId != sent[j].eventId
  }

  class Dashboard {
    var events: seq<Event>
    var filteredEvents: seq<Event>
    var searchQuery: string
    var myBookings: seq<Booking>
    var currentUserId: string
    /** The event whose Make Offer modal is open. */
    var bookingModalEvent: Option<Event>
    var offerPrice: real
    var isSubmitting: bool
    /** The insert awaiting the store's answer, if any. */
    var inFlight: Option<BookingDraft>
    /** Every booking this dashboard has inserted, oldest first. */
    ghost var sent: seq<Booking>

    ghost predicate Valid()
      reads this
    {
      && filteredEvents == SearchResults(events, searchQuery)
      && (forall b :: b in myBookings ==> b.vendorId == currentUserId)
      && (bookingModalEvent.Some? ==> !AlreadyApplied(myBookings, bookingModalEvent.value.id))
      && (isSubmitting <==> inFlight.Some?)
      && (inFlight.Some? ==>
            IsOffer(inFlight.value, currentUserId) && !AlreadyApplied(myBookings, inFlight.value.eventId))
      && (forall k :: 0 <= k < |sent| ==> sent[k] in myBookings && IsOffer(Draft(sent[k]), currentUserId))
      && OneOfferPerEvent(sent)
    }

    /** The page after its initial load: all events, and the bookings table restricted to this vendor. */
    constructor Load(userId: string, eventsData: seq<Event>, bookingsTable: seq<Booking>)
      ensures Valid()
      ensures events == eventsData && filteredEvents == eventsData && searchQuery == ""
      ensures myBookings == Filter(bookingsTable, (b: Booking) => b.vendorId == userId)
      ensures currentUserId == userId
      ensures bookingModalEvent == None && offerPrice == 0.0 && !isSubmitting
      ensures sent == []
    {
      events := eventsData;
      filteredEvents := eventsData;
      searchQuery := "";
      myBookings := Filter(bookingsTable, (b: Booking) => b.vendorId == userId);
      currentUserId := userId;
      bookingModalEvent := None;
      offerPrice := 0.0;
      isSubmitting := false;
      inFlight := None;
      sent := [];
    }

    /** Typing into the search box. */
    method HandleSearch(input: string)
      requires Valid()
      modifies this`searchQuery, this`filteredEvents
      ensures Valid()
      ensures searchQuery == Lower(input)
      ensures filteredEvents == SearchResults(events, Lower(input))
      ensures Lower(input) == "" ==> filteredEvents == events
    {
      var query := Lower(input);
      searchQuery := query;
      filteredEvents := SearchResults(events, query);
    }

    /** The Make Offer button of a listed event, shown only when the vendor has not applied to it. */
    method OpenBookingModal(e: Event)
      requires Valid()
      requires e in filteredEvents && !AlreadyApplied(myBookings, e.id)
      modifies this`bookingModalEvent, this`offerPrice
      ensures Valid()
      ensures bookingModalEvent == Some(e) && offerPrice == e.baseStallFee
    {
      bookingModalEvent := Some(e);
      offerPrice := e.baseStallFee;
    }

    /** Editing the negotiated price in the modal. */
    method EditOfferPrice(price: real)
      requires Valid()
      modifies this`offerPrice
      ensures Valid() && offerPrice == price
    {
      offerPrice := price;
    }

    /** The modal's Cancel button. */
    method CloseBookingModal()
      requires Valid()
      modifies this`bookingModalEvent
      ensures Valid() && bookingModalEvent == None
    {
      bookingModalEvent := None;
    }

    /** The Send Offer button is enabled: exactly when no insert awaits its answer and the price is positive. */
    function SendOfferEnabled(): (r: bool)
      reads this
      ensures Valid() ==> (r <==> inFlight.None? && offerPrice > 0.0)
    {
      !isSubmitting && offerPrice > 0.0
    }

    /** Pressing Send Offer (enabled only when not submitting and the price is positive): without a
        user or an open modal nothing happens; otherwise the booking row is sent to the store. */
    method SubmitBookingRequest() returns (insert: Option<BookingDraft>)
      requires Valid() && SendOfferEnabled()
      modifies this`isSubmitting, this`inFlight
      ensures Valid()
      ensures insert.Some? <==> currentUserId != "" && bookingModalEvent.Some?
      ensures insert.Some? ==>
                && insert.value == BuildDraft(bookingModalEvent.value, currentUserId, offerPrice)
                && IsOffer(insert.value, currentUserId)
                && !AlreadyApplied(myBookings, insert.value.eventId)
                && isSubmitting && inFlight == insert
      ensures insert.None? ==> isSubmitting == old(isSubmitting) && inFlight == old(inFlight)
    {
      if currentUserId == "" || bookingModalEvent.None? {
        return None;
      }
      isSubmitting := true;
      var draft := BuildDraft(bookingModalEvent.value, currentUserId, offerPrice);
      inFlight := Some(draft);
      insert := Some(draft);
    }

    /** The store answered the insert with an error: the modal stays open and Send is enabled again. */
    method InsertFailed(message: string)
      requires Valid() && inFlight.Some?
      modifies this`isSubmitting, this`inFlight
      ensures Valid() && !isSubmitting && inFlight == None
    {
      isSubmitting := false;
      inFlight := None;
    }

    /** The store accepted the insert under `newId` and the page reloads: the new booking heads the
        vendor's list (newest first), the search and the modal are reset. */
    method InsertSucceeded(newId: string)
      requires Valid() && inFlight.Some?
      modifies this
      ensures Valid()
      ensures myBookings == [Stored(old(inFlight.value), newId)] + old(myBookings)
      ensures sent == old(sent) + [Stored(old(inFlight.value), newId)]
      ensures AlreadyApplied(myBookings, old(inFlight.value.eventId))
      ensures events == old(events) && filteredEvents == events && searchQuery == ""
      ensures currentUserId == old(currentUserId)
      ensures bookingModalEvent == None && offerPrice == 0.0 && !isSubmitting && inFlight == None
    {
      var b := Stored(inFlight.value, newId);
      StoredDraftRoundTrip(inFlight.value, newId);
      forall k | 0 <= k < |sent| ensures sent[k].eventId != b.eventId {
        assert sent[k] in myBookings;
      }
      myBookings := [b] + myBookings;
      sent := sent + [b];
      filteredEvents := events;
      searchQuery := "";
      bookingModalEvent := None;
      offerPrice := 0.0;
      isSubmitting := false;
      inFlight := None;
    }
  }
}
