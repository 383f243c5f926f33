/** Rows of the record store that both dashboards read and write: events (stall listings),
    bookings (a vendor's priced offer on an event) and the three status names a booking carries. */
module Records {

  datatype Option<T> = None | Some(value: T)

  /** The status names written by the dashboards. The store column is free text. */
  const PENDING: string := "pending"
  const APPROVED: string := "approved"
  const DECLINED: string := "declined"

  predicate IsKnownStatus(status: string)
  {
    status == PENDING || status == APPROVED || status == DECLINED
  }

  /** A money amount as read back from the store: `Number(x)` of the column is either a number or NaN. */
  datatype Amount = Numeric(value: real) | NotANumber

  /** An event (fest) offering stalls; display-only columns (date, footfall, phone) are not modelled. */
  datatype Event = Event(id: string, organizerId: string, name: string, baseStallFee: real)

  /** The payload the vendor dashboard inserts into the bookings table: every column but the id. */
  datatype BookingDraft = BookingDraft(
    eventId: string,
    vendorId: string,
    agreedFee: real,
    totalAmount: Amount,
    commissionAmount: real,
    status: string)

  /** A stored booking row: the inserted columns plus the id the store assigned. */
  datatype Booking = Booking(
    id: string,
    eventId: string,
    vendorId: string,
    agreedFee: real,
    totalAmount: Amount,
    commissionAmount: real,
    status: string)

  /** The row the store holds after inserting `d` under the id `id`. */
  function Stored(d: BookingDraft, id: string): Booking
  {
    Booking(id, d.eventId, d.vendorId, d.agreedFee, d.totalAmount, d.commissionAmount, d.status)
  }

  /** The columns of a row other than its id. */
  function Draft(b: Booking): BookingDraft
  {
    BookingDraft(b.eventId, b.vendorId, b.agreedFee, b.totalAmount, b.commissionAmount, b.status)
  }

  /** Storing a payload and reading back its columns gives the payload again. */
  lemma StoredDraftRoundTrip(d: BookingDraft, id: string)
    ensures Draft(Stored(d, id)) == d && Stored(d, id).id == id
  {
  }
}
