/**
 * The PNR status page: the input keeps at most ten digits of whatever is
 * typed, and a search with exactly ten characters looks the booking up by
 * its PNR.
 */
module PnrStatus {
  import opened Wrappers
  import opened Text
  import opened Seqs
  import opened Records
  import opened BookTrain

  const PnrLength := 10

  /** `raw.replace(/\D/g, '').slice(0, 10)`: the digits of `raw`, at most ten of them. */
  function Sanitize(raw: string): (pnr: string)
    ensures AllDigits(pnr) && |pnr| <= PnrLength
    ensures pnr <= Filter(raw, IsDigit)
    ensures |pnr| == if |Filter(raw, IsDigit)| < PnrLength then |Filter(raw, IsDigit)| else PnrLength
  {
    Take(Filter(raw, IsDigit), PnrLength)
  }

  /** A string of at most ten digits is kept as it is. */
  lemma SanitizeKeepsPnr(s: string)
    requires AllDigits(s) && |s| <= PnrLength
    ensures Sanitize(s) == s
  {
    FilterAll(s, IsDigit);
  }

  /** Sanitising twice is sanitising once. */
  lemma SanitizeIdempotent(raw: string)
    ensures Sanitize(Sanitize(raw)) == Sanitize(raw)
  {
    SanitizeKeepsPnr(Sanitize(raw));
  }

  datatype PnrOutcome =
    | Invalid             // not ten characters: nothing is looked up
    | NotFound            // no booking has that PNR
    | Failed              // the query reported another error
    | Found(booking: Booking)

  /**
   * What `handleSearch` finds for `pnr` in the bookings `rows`; `fails` is
   * an error other than "no row" from the query.
   */
  function PnrSearch(pnr: string, rows: map<string, Booking>, fails: bool): (o: PnrOutcome)
    ensures o == Invalid <==> |pnr| != PnrLength
    ensures o.Found? ==> pnr in rows && o.booking == rows[pnr]
    ensures |pnr| == PnrLength && !fails ==> (o.Found? <==> pnr in rows)
    ensures |pnr| == PnrLength && !fails && pnr !in rows ==> o == NotFound
    ensures |pnr| == PnrLength && fails ==> o == Failed
  {
    if |pnr| != PnrLength then Invalid
    else if fails then Failed
    else if pnr in rows then Found(rows[pnr])
    else NotFound
  }

  /** The lookup is an exact match on the booking's own PNR. */
  lemma FoundHasThatPnr(pnr: string, rows: map<string, Booking>, fails: bool)
    requires FiledByPnr(rows)
    ensures PnrSearch(pnr, rows, fails).Found? ==> PnrSearch(pnr, rows, fails).booking.pnr == pnr
  {
  }

  /**
   * A booking just made under a ten-digit PNR is found, unchanged, by typing
   * that PNR into this page.
   */
  lemma BookedIsRetrievable(rows: map<string, Booking>, user: Option<string>, train: Option<Train>,
                            form: PassengerForm, date: Option<string>, code: string, r: real)
    requires 0.0 <= r < SeatsPerClass as real
    requires AllDigits(code) && |code| == PnrLength
    requires Book(rows, user, train, form, date, Some(code), r, false).Booked?
    ensures var o := Book(rows, user, train, form, date, Some(code), r, false);
      PnrSearch(Sanitize(code), After(rows, o), false) == Found(o.booking) &&
      o.booking.pnr == code && o.booking.farePaid == CalculateFare(train, form.travelClass)
  {
    SanitizeKeepsPnr(code);
  }

  class PnrStatusPage {
    var pnr: string
    var booking: Option<Booking>

    constructor ()
      ensures pnr == "" && booking.None?
    {
      pnr := "";
      booking := None;
    }

    /** The input's `onChange`. */
    method Input(raw: string)
      modifies this`pnr
      ensures pnr == Sanitize(raw)
    {
      pnr := Sanitize(raw);
    }

    /**
     * `handleSearch`: a PNR that is not ten characters is refused and changes
     * nothing; otherwise the shown booking is cleared and set only when found.
     */
    method HandleSearch(store: BookingStore, fails: bool) returns (outcome: PnrOutcome)
      modifies this`booking
      ensures outcome == PnrSearch(pnr, store.rows, fails)
      ensures booking == match outcome
        case Invalid => old(booking)
        case Found(b) => Some(b)
        case _ => None
    {
      if |pnr| != PnrLength {
        return Invalid;
      }
      booking := None;
      if fails {
        return Failed;
      }
      if pnr !in store.rows {
        return NotFound;
      }
      booking := Some(store.rows[pnr]);
      outcome := Found(store.rows[pnr]);
    }
  }
}
