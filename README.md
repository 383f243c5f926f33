# Stall offers on the Festopiya dashboards

Festopiya is a marketplace where vendors book stalls at college fests (events) run by organizers, at a
price the vendor proposes. This project models the offer rules that live in the two dashboards:

- the **vendor dashboard** searches the event list, shows *Make Offer* only for events the vendor has
  not yet booked, opens an offer modal pre-filled with the event's base stall fee, and inserts a
  booking row (agreed fee = total amount = offered price, 5% commission, status `pending`);
- the **organizer dashboard** approves or declines pending requests, updates its local request list,
  and shows the revenue of approved requests and the approved / pending counts.

Modules:

- `Records` (`records.dfy`): the store rows (events, booking payloads, stored bookings) and the status names.
- `Seqs` (`seqs.dfy`): `filter` over sequences and the order-preserving subsequence relation.
- `Text` (`text.dfy`): `toLowerCase` and `includes`.
- `VendorDashboard` (`vendor_dashboard.dfy`): search, the already-applied guard, commission and the
  booking row, badges, and the `Dashboard` class holding the page state. Its invariant `Valid()`
  proves that every offer the page inserts has a positive price, a 5% commission and status `pending`,
  and that the page never inserts two offers for the same event, provided the bookings query of the
  initial load and of each reload after a successful insert succeeds (see "## Left out").
- `OrganizerDashboard` (`organizer_dashboard.dfy`): the status update of one request, the
  pending-only Approve/Decline guard, revenue and counts, and the `Dashboard` class with
  `UpdateStatus`.

Money is exact (`real`). The store and the browser are parameters: the initial fetch is the
constructors' arguments, and the outcome of an insert or update is an argument of the method that
receives it.

Where the code differs from the marketplace's intended design, the model follows the code:

- There is no net payout: the row stores `agreed_fee == total_amount == price`, and the 5% commission
  is recorded beside the price, not deducted from it. The "Net Stall Revenue" figure is the sum of `total_amount` over approved
  requests.
- A vendor cannot make a second offer on an event once any booking for it exists, whatever its status.
  A declined offer therefore also blocks a new one. The check is made only in the page, not in the store.
- The status write is unconditional: the store overwrites a settled booking
  (`SettledStatusCanBeOverwritten`). Only the page's pending-only buttons protect settled requests
  (`DecisionKeepsSettled`, `Dashboard.Decide`).

## Model

| member | source | states |
|---|---|---|
| `Text.Lower` | app/vendor/dashboard/page.tsx:66 | lower-casing keeps the length and every character, except that an upper-case ASCII letter becomes its lower-case form; the result has no upper-case ASCII letter |
| `Text.Includes` | app/vendor/dashboard/page.tsx:69 | `includes` holds exactly when the query occurs at some index of the string |
| `VendorDashboard.NameMatches` | app/vendor/dashboard/page.tsx:69 | an event matches iff the query occurs in its lower-cased name |
| `VendorDashboard.SearchResults` | app/vendor/dashboard/page.tsx:68-69 | the filtered list (all events for the empty query, the matching events otherwise) is an order-preserving subsequence of the events |
| `VendorDashboard.SearchSpec` | app/vendor/dashboard/page.tsx:65-70 | for every query the result is the filter by name match, an order-preserving subsequence of the events; an event is in it iff it is an event whose lower-cased name contains the query, and it appears as many times as in the events; the empty query gives all events |
| `VendorDashboard.Dashboard.HandleSearch` | app/vendor/dashboard/page.tsx:65-70 | the stored query is the lower-cased input; the filtered list is the search result for it and is the full list for an empty query |
| `VendorDashboard.Dashboard.Load` | app/vendor/dashboard/page.tsx:25-63 | after loading, all events are listed, the vendor's bookings are the bookings table restricted to this vendor (when that query succeeds), no modal is open and nothing has been sent |
| `VendorDashboard.Dashboard.OpenBookingModal` | app/vendor/dashboard/page.tsx:73-76 | the modal opens on the chosen event with the price set to its base stall fee; callable only for a listed event the vendor has not applied to (the Make Offer button, lines 203-214) |
| `VendorDashboard.Dashboard.EditOfferPrice` | app/vendor/dashboard/page.tsx:258-261 | the offered price becomes whatever the vendor typed |
| `VendorDashboard.Dashboard.CloseBookingModal` | app/vendor/dashboard/page.tsx:270-271 | the modal closes |
| `VendorDashboard.AlreadyApplied` | app/vendor/dashboard/page.tsx:181 | true iff some booking of the vendor has the event's id |
| `VendorDashboard.AppliedWhateverStatus` | app/vendor/dashboard/page.tsx:181 | changing any booking's status never changes whether the event counts as applied |
| `VendorDashboard.Commission` | app/vendor/dashboard/page.tsx:83-84 | the commission is exactly one twentieth of the price, and lies strictly between 0 and the price for a positive price |
| `VendorDashboard.BuildDraft` | app/vendor/dashboard/page.tsx:86-95 | the inserted row has the event's id, the vendor's id, agreed fee and total amount equal to the price, 5% commission and status `pending` |
| `VendorDashboard.ThreeThousandOffer` | app/vendor/dashboard/page.tsx:84-95 | an offer of 3000 carries a commission of 150 and is a well-formed offer |
| `VendorDashboard.Dashboard.SendOfferEnabled` | app/vendor/dashboard/page.tsx:276-278 | on a valid page, Send Offer is enabled iff no insert awaits its answer and the offered price is positive |
| `VendorDashboard.Dashboard.SubmitBookingRequest` | app/vendor/dashboard/page.tsx:79-95 | with no user or no open modal nothing is sent; otherwise the row built from the modal's event, the user and the price is sent, is a positive pending 5% offer for an event not yet applied to, and the page is submitting; callable only while Send Offer is enabled (line 278) |
| `VendorDashboard.Dashboard.InsertFailed` | app/vendor/dashboard/page.tsx:97-99 | after a failed insert the page is no longer submitting and keeps everything else |
| `VendorDashboard.Dashboard.InsertSucceeded` | app/vendor/dashboard/page.tsx:100-102 | after a successful insert and reload the new booking heads the vendor's list, the event now counts as applied, the search and modal are reset, and the invariant (one offer per event, every offer positive and pending) still holds |
| `VendorDashboard.Badges` | app/vendor/dashboard/page.tsx:146-148 | a card shows at most one badge, exactly one iff the status is approved, pending or declined, and each badge iff its own status |
| `OrganizerDashboard.Dashboard.Load` | app/organizer/dashboard/page.tsx:20-50 | after loading, the requests are the fetched bookings (unique ids) and no status write has been sent |
| `OrganizerDashboard.Target` | app/organizer/dashboard/page.tsx:52 | the written status is always approved or declined, never pending, and approved iff the decision is Approve |
| `OrganizerDashboard.SetStatus` | app/organizer/dashboard/page.tsx:59 | the rows with the given id get the new status; every other row, the length and the order are unchanged |
| `OrganizerDashboard.SetStatusKeepsIds` | app/organizer/dashboard/page.tsx:59 | the update keeps every id in place, so unique ids stay unique |
| `OrganizerDashboard.SetStatusAt` | app/organizer/dashboard/page.tsx:59 | with unique ids, updating the id at one index replaces that row only |
| `OrganizerDashboard.DistinctUpdatesCommute` | app/organizer/dashboard/page.tsx:59 | updates of two different ids give the same list in either order |
| `OrganizerDashboard.Dashboard.UpdateStatus` | app/organizer/dashboard/page.tsx:52-63 | the status write is always sent; it succeeds iff no error is returned; on success the list is the list with that id's status replaced, on failure it is unchanged |
| `OrganizerDashboard.RequestTile` | app/organizer/dashboard/page.tsx:123-131 | Approve/Decline are shown iff the request is pending; the approved label iff approved; anything else is labelled declined |
| `OrganizerDashboard.DecisionKeepsSettled` | app/organizer/dashboard/page.tsx:123-127 | a decision taken from a pending request's buttons sets that request's status and leaves every non-pending request as it was |
| `OrganizerDashboard.Dashboard.Decide` | app/organizer/dashboard/page.tsx:123-127 | clicking Approve/Decline on a pending request sends the status write for its id; it succeeds iff no error is returned; on success the list is the list with that request's status replaced, settled requests never change, the revenue grows by its amount iff approved, the pending count drops by one and the approved count grows by one iff approved; on failure nothing changes |
| `OrganizerDashboard.SettledStatusCanBeOverwritten` | app/organizer/dashboard/page.tsx:52-56 | the update does not check the current status: any approved or declined booking written with the other decision takes the new status |
| `OrganizerDashboard.AmountValue` | app/organizer/dashboard/page.tsx:68 | as in `Number(r.total_amount)` falling back to 0: a non-zero contribution is always a numeric amount equal to it, so a non-numeric amount contributes 0 |
| `OrganizerDashboard.SumTotals` | app/organizer/dashboard/page.tsx:68 | the `reduce` sum of the amounts is non-negative when every contribution is |
| `OrganizerDashboard.TotalRevenue` | app/organizer/dashboard/page.tsx:66-68 | the revenue (sum over the approved requests) is 0 when no request is approved |
| `OrganizerDashboard.ApprovedCount` | app/organizer/dashboard/page.tsx:171 | the approved count is at most the number of requests, and 0 iff no request is approved |
| `OrganizerDashboard.PendingCount` | app/organizer/dashboard/page.tsx:175 | the pending count is at most the number of requests, and 0 iff no request is pending |
| `OrganizerDashboard.RevenueAppend` | app/organizer/dashboard/page.tsx:66-68 | the revenue of two lists joined is the sum of their revenues |
| `OrganizerDashboard.RevenueOfOne` | app/organizer/dashboard/page.tsx:66-68 | one request contributes its numeric amount (0 when not a number) if approved, and 0 otherwise |
| `OrganizerDashboard.RevenueAround` | app/organizer/dashboard/page.tsx:66-68 | the revenue of a list is the prefix's plus the one request's contribution plus the suffix's |
| `OrganizerDashboard.RevenueIgnoresUnapproved` | app/organizer/dashboard/page.tsx:66-68 | adding or removing a request that is not approved, anywhere in the list, leaves the revenue unchanged |
| `OrganizerDashboard.RevenueNonNegative` | app/organizer/dashboard/page.tsx:66-68 | with non-negative amounts the revenue is non-negative |
| `OrganizerDashboard.CountsBounded` | app/organizer/dashboard/page.tsx:171-175 | approved count plus pending count never exceeds the number of requests |
| `OrganizerDashboard.ReplaceEffect` | app/organizer/dashboard/page.tsx:66-68 | replacing one request changes revenue and both counts by exactly the difference of the two requests' contributions |
| `OrganizerDashboard.DecisionEffect` | app/organizer/dashboard/page.tsx:52-68 | deciding a pending request: Approve adds its amount to the revenue and moves it from pending to approved count; Decline only lowers the pending count |
| `OrganizerDashboard.ThreeRequestsFigures` | app/organizer/dashboard/page.tsx:66-175 | requests approved 1000, approved 2000, pending 500 give revenue 3000, approved count 2 and pending count 1 |
| `OrganizerDashboard.CompleteAsWritten` | app/organizer/dashboard/page.tsx:59 | a completed click yields its render-time snapshot with the clicked id's status set: a row with that id is the snapshot's row with only its status changed, every other row is the snapshot's, whatever the current list holds |
| `OrganizerDashboard.CompleteOnCurrent` | app/organizer/dashboard/page.tsx:59 | a completed click yields the current list with the clicked id's status set: a row with that id is the current row with only its status changed, every other row is unchanged |
| `OrganizerDashboard.OverlappingClicksLoseUpdate` | app/organizer/dashboard/page.tsx:52-59 | two pending requests approved from the same render: after both writes succeed the first shows pending again |
| `OrganizerDashboard.OverlappingClicksKeepBoth` | app/organizer/dashboard/page.tsx:52-59 | applied to the current list, two decisions on different requests both take effect, in either completion order |

## Left out

- Store and identity calls (`supabase` queries, insert, update, `auth.getUser`): the fetched rows are constructor arguments, and insert/update outcomes are method arguments. Joined display columns (event name, vendor profile) are not modelled, nor is the store's ordering, except for the newest-first reload in `VendorDashboard.Dashboard.InsertSucceeded`.
- `VendorDashboard.Dashboard.InsertSucceeded`: `window.location.reload()` is modelled as a re-fetch of a store that nobody else changed, whose bookings query succeeds. The new row is put first, as the newest-first query would return it. If that query fails, the page keeps its initial empty booking list (app/vendor/dashboard/page.tsx:12, 55), Make Offer comes back for the event just offered on, and a second offer can be sent; the one-offer-per-event invariant does not cover that case.
- `VendorDashboard.Dashboard.Load`: the early return when no user is signed in leaves the page on its loading screen; the model always starts with a user id (possibly empty). A failed bookings query (app/vendor/dashboard/page.tsx:55) leaves the list empty (line 12), which is the load of an empty bookings table; Make Offer then shows for events the vendor already booked, and the one-offer-per-event invariant does not cover that case.
- `OrganizerDashboard.Dashboard.Load`: the early return when no user is signed in (app/organizer/dashboard/page.tsx:23) leaves the page on its loading screen; the model always starts with a user id. A failed bookings query (line 46) leaves the list empty, which is the load with no rows.
- `alert` messages, `router`, tabs, styling, date and number formatting, the loading flag.
- The chat (`ChatModal`) and its realtime subscription: concurrency plumbing whose logic is outside these dashboards.
- The vendor profile form, event creation form, landing page and layout: form field copying with no rules to state.
- Floating point: `offerPrice * 0.05` is exact `real` arithmetic here, so the rounding of JavaScript numbers is not modelled.
- `Text.Lower` lower-cases ASCII letters only; Unicode case mapping of `toLowerCase` is not modelled.
- The organizer dashboard's handler is modelled one click at a time (`UpdateStatus`, `Decide`); overlapping clicks are modelled only through `CompleteAsWritten` and `CompleteOnCurrent` (see Findings).

## Findings

| source | as written | input that shows it | evidently intended | confidence | as-written member | corrected member |
|---|---|---|---|---|---|---|
| app/organizer/dashboard/page.tsx:59 | on success the handler maps the `requests` list captured when the page last rendered, not the current list | two pending requests b1, b2; Approve b1 and then Approve b2 before either write returns; both writes succeed | both requests show approved; e.g. `setRequests(prev => prev.map(...))` | not executed; high | OrganizerDashboard.CompleteAsWritten, OrganizerDashboard.OverlappingClicksLoseUpdate | OrganizerDashboard.CompleteOnCurrent, OrganizerDashboard.OverlappingClicksKeepBoth |

After the lost update, b1 shows Approve/Decline again although the store holds it as approved. A Decline
then overwrites the stored approval, because the status write is unconditional. The class
`OrganizerDashboard.Dashboard` models one click at a time: `UpdateStatus` sends the write and applies its
answer in one step, so no other click can come in between, and there the as-written and corrected
behaviours give the same list.
