/**
 * The booking page: the fare for a class, the seat label, the classes a
 * train offers, and `handleBooking`, which obtains a PNR from the store's
 * generator and then inserts one booking row under it.
 */
module BookTrain {
  import opened Wrappers
  import opened Text
  import opened Seqs
  import opened Records

  /** The class tags the class selector can offer, in the order it lists them. */
  const ClassTags: seq<string> := ["sleeper", "3ac", "2ac", "1ac"]

  /** The fare multiplier of each known class. */
  const Multipliers: map<string, real> := map["sleeper" := 1.0, "3ac" := 1.5, "2ac" := 2.0, "1ac" := 3.0]

  /** Seat numbers run from 1 to this. */
  const SeatsPerClass := 72

  /** `multipliers[travelClass] || 1`: an unknown class is charged like sleeper. */
  function Multiplier(travelClass: string): (m: real)
    ensures travelClass in Multipliers ==> m == Multipliers[travelClass]
    ensures travelClass !in Multipliers ==> m == 1.0
    ensures m >= 1.0
  {
    if travelClass in Multipliers then Multipliers[travelClass] else 1.0
  }

  /** `calculateFare()`: nothing to charge without a train or a class. */
  function CalculateFare(train: Option<Train>, travelClass: string): (fare: real)
    ensures train.None? || travelClass == "" ==> fare == 0.0
    ensures train.Some? && travelClass != "" ==> fare == train.value.baseFare * Multiplier(travelClass)
    ensures train.Some? && travelClass != "" && train.value.baseFare >= 0.0 ==> fare >= train.value.baseFare
  {
    if train.None? || travelClass == "" then 0.0 else train.value.baseFare * Multiplier(travelClass)
  }

  /** The fare of each class as a multiple of the base fare. */
  lemma FareOfEachClass(t: Train, travelClass: string)
    ensures CalculateFare(Some(t), "sleeper") == t.baseFare
    ensures CalculateFare(Some(t), "3ac") == t.baseFare * 1.5
    ensures CalculateFare(Some(t), "2ac") == t.baseFare * 2.0
    ensures CalculateFare(Some(t), "1ac") == t.baseFare * 3.0
    ensures travelClass != "" && travelClass !in ClassTags ==> CalculateFare(Some(t), travelClass) == t.baseFare
  {
  }

  /** The fare summary's class charge, `calculateFare() - base_fare`, shown once a class is chosen. */
  function ClassCharge(train: Train, travelClass: string): (charge: real)
    requires travelClass != ""
    ensures charge == train.baseFare * (Multiplier(travelClass) - 1.0)
    ensures train.baseFare >= 0.0 ==> charge >= 0.0
  {
    CalculateFare(Some(train), travelClass) - train.baseFare
  }

  /** The class selector's items: the known classes whose flag is set, in selector order. */
  function OfferedClasses(available: map<string, bool>): (offered: seq<string>)
    ensures forall i :: 0 <= i < |offered| ==> offered[i] in ClassTags && offered[i] in available && available[offered[i]]
    ensures forall i :: 0 <= i < |ClassTags| && ClassTags[i] in available && available[ClassTags[i]] ==> ClassTags[i] in offered
    ensures forall i :: 0 <= i < |offered| ==> offered[i] in Multipliers
  {
    Filter(ClassTags, (c: string) => c in available && available[c])
  }

  /** `Math.floor(r) + 1` for `r = Math.random() * 72`, which lies in [0, 72). */
  function SeatNumber(r: real): (n: int)
    requires 0.0 <= r < SeatsPerClass as real
    ensures 1 <= n <= SeatsPerClass
    ensures (n - 1) as real <= r < n as real
  {
    r.Floor + 1
  }

  /** The label pattern `CLASS-n`: the upper-cased class, a dash, a seat number in 1..72 without leading zeros. */
  predicate IsSeatLabelFor(seat: string, travelClass: string) {
    var k := |travelClass|;
    |seat| > k + 1 && seat[..k] == Upper(travelClass) && seat[k] == '-' &&
    AllDigits(seat[k + 1..]) && seat[k + 1] != '0' && 1 <= DecimalValue(seat[k + 1..]) <= SeatsPerClass
  }

  /** The seat label of a new booking, for the random draw `r`. */
  function SeatLabel(travelClass: string, r: real): (seat: string)
    requires 0.0 <= r < SeatsPerClass as real
    ensures IsSeatLabelFor(seat, travelClass)
    ensures DecimalValue(seat[|travelClass| + 1..]) == SeatNumber(r)
  {
    var n := SeatNumber(r);
    DecimalRoundTrip(n);
    var seat := Upper(travelClass) + "-" + DecimalString(n);
    assert seat[|travelClass| + 1..] == DecimalString(n);
    seat
  }

  /** The form fields as typed; the age is still text. */
  datatype PassengerForm = PassengerForm(name: string, age: string, gender: string, travelClass: string)

  /** The row `handleBooking` inserts. */
  function BookingRecord(pnr: string, userId: string, train: Train, form: PassengerForm,
                         date: Option<string>, r: real): (b: Booking)
    requires 0.0 <= r < SeatsPerClass as real
    ensures b.pnr == pnr && b.userId == userId && b.trainId == train.id
    ensures b.passengerName == form.name && b.passengerGender == form.gender
    ensures b.travelClass == form.travelClass && b.travelDate == date
    ensures b.passengerAge == ParseInt(form.age)
    ensures b.farePaid == CalculateFare(Some(train), form.travelClass)
    ensures IsSeatLabelFor(b.seatNumber, form.travelClass)
  {
    Booking(pnr, userId, train.id, form.name, ParseInt(form.age), form.gender, date,
            form.travelClass, SeatLabel(form.travelClass, r), CalculateFare(Some(train), form.travelClass))
  }

  /**
   * The table's non-null columns a new row fills from the form: a missing
   * `date` parameter and a `NaN` age both arrive as `null`.
   */
  predicate Storable(b: Booking) {
    b.travelDate.Some? && b.passengerAge.Some?
  }

  datatype BookingOutcome =
    | NotAttempted        // no signed-in user or no train loaded
    | CodeFailed          // the PNR generator reported an error
    | InsertFailed        // the store refused the row
    | Booked(booking: Booking)

  /**
   * What `handleBooking` does, given the store's rows, the generator's reply
   * (`None` for an error), the random draw, and `insertFails`, an insert
   * error other than the ones the table itself decides. The table refuses a
   * row whose PNR is taken or whose non-null columns are `null`.
   */
  function Book(rows: map<string, Booking>, user: Option<string>, train: Option<Train>,
                form: PassengerForm, date: Option<string>, generated: Option<string>, r: real,
                insertFails: bool): (o: BookingOutcome)
    requires 0.0 <= r < SeatsPerClass as real
    ensures user.None? || train.None? ==> o == NotAttempted
    ensures user.Some? && train.Some? && generated.None? ==> o == CodeFailed
    ensures o.Booked? <==> user.Some? && train.Some? && generated.Some? && generated.value !in rows &&
                           date.Some? && ParseInt(form.age).Some? && !insertFails
    ensures user.Some? && train.Some? && generated.Some? && !o.Booked? ==> o == InsertFailed
    ensures o.Booked? ==> o.booking == BookingRecord(generated.value, user.value, train.value, form, date, r)
  {
    if user.None? || train.None? then NotAttempted
    else if generated.None? then CodeFailed
    else
      var b := BookingRecord(generated.value, user.value, train.value, form, date, r);
      if generated.value in rows || !Storable(b) || insertFails then InsertFailed
      else Booked(b)
  }

  /** The rows after an outcome: one new row under its PNR, or no change. */
  function After(rows: map<string, Booking>, o: BookingOutcome): map<string, Booking> {
    if o.Booked? then rows[o.booking.pnr := o.booking] else rows
  }

  /** Every stored booking is filed under its own PNR, so a PNR names one booking. */
  ghost predicate FiledByPnr(rows: map<string, Booking>) {
    forall k :: k in rows ==> rows[k].pnr == k
  }

  /** Booking keeps the store filed by PNR and never replaces an existing booking. */
  lemma BookKeepsStore(rows: map<string, Booking>, user: Option<string>, train: Option<Train>,
                       form: PassengerForm, date: Option<string>, generated: Option<string>, r: real,
                       insertFails: bool)
    requires 0.0 <= r < SeatsPerClass as real
    requires FiledByPnr(rows)
    ensures var o := Book(rows, user, train, form, date, generated, r, insertFails);
      FiledByPnr(After(rows, o)) &&
      (forall k :: k in rows ==> k in After(rows, o) && After(rows, o)[k] == rows[k]) &&
      |After(rows, o).Keys| == |rows.Keys| + (if o.Booked? then 1 else 0)
  {
    var o := Book(rows, user, train, form, date, generated, r, insertFails);
    if o.Booked? {
      assert o.booking.pnr == generated.value;
      AddRow(rows, o.booking);
    }
  }

  /** Filing a row under its own, untaken PNR keeps every other row and adds one. */
  lemma AddRow(rows: map<string, Booking>, b: Booking)
    requires FiledByPnr(rows) && b.pnr !in rows
    ensures FiledByPnr(rows[b.pnr := b])
    ensures forall k :: k in rows ==> k in rows[b.pnr := b] && rows[b.pnr := b][k] == rows[k]
    ensures |rows[b.pnr := b].Keys| == |rows.Keys| + 1
  {
    assert rows[b.pnr := b].Keys == rows.Keys + {b.pnr};
  }

  /** The bookings table, keyed by PNR. */
  class BookingStore {
    var rows: map<string, Booking>

    constructor ()
      ensures rows == map[]
    {
      rows := map[];
    }

    /**
     * Insert a row; refused when its PNR is already present, when a non-null
     * column is `null`, or on any other database error (`fails`).
     */
    method Insert(b: Booking, fails: bool) returns (ok: bool)
      modifies this
      ensures ok == (!fails && Storable(b) && b.pnr !in old(rows))
      ensures rows == if ok then old(rows)[b.pnr := b] else old(rows)
    {
      ok := !fails && Storable(b) && b.pnr !in rows;
      if ok {
        rows := rows[b.pnr := b];
      }
    }
  }

  /**
   * `handleBooking`: give up without a user or a train; ask for a PNR; stop
   * if that fails; otherwise insert the assembled row.
   */
  method HandleBooking(store: BookingStore, user: Option<string>, train: Option<Train>, form: PassengerForm,
                       date: Option<string>, generated: Option<string>, r: real, insertFails: bool)
    returns (outcome: BookingOutcome)
    requires 0.0 <= r < SeatsPerClass as real
    modifies store
    ensures outcome == Book(old(store.rows), user, train, form, date, generated, r, insertFails)
    ensures store.rows == After(old(store.rows), outcome)
  {
    if user.None? || train.None? {
      return NotAttempted;
    }
    if generated.None? {
      return CodeFailed;
    }
    var pnr := generated.value;
    var booking := BookingRecord(pnr, user.value, train.value, form, date, r);
    var ok := store.Insert(booking, insertFails);
    if !ok {
      return InsertFailed;
    }
    outcome := Booked(booking);
  }
}
