/**
 * The rows of the hosted database that the pages read and write: trains,
 * bookings and train status reports. Timestamps are instants on an integer
 * clock; money is an exact `real`.
 */
module Records {
  import opened Wrappers

  /** A row of `trains`. `availableClasses` maps a class tag to its flag. */
  datatype Train = Train(
    id: string,
    trainNumber: string,
    trainName: string,
    sourceStation: string,
    destinationStation: string,
    departureTime: string,
    arrivalTime: string,
    duration: string,
    baseFare: real,
    availableClasses: map<string, bool>)

  /** A row of `bookings`, as the booking page inserts it. `None` age is `NaN`. */
  datatype Booking = Booking(
    pnr: string,
    userId: string,
    trainId: string,
    passengerName: string,
    passengerAge: Option<int>,
    passengerGender: string,
    travelDate: Option<string>,
    travelClass: string,
    seatNumber: string,
    farePaid: real)

  /** A row of `train_status`. */
  datatype StatusRow = StatusRow(
    id: string,
    trainId: string,
    currentStation: Option<string>,
    expectedArrival: Option<string>,
    actualArrival: Option<string>,
    delayMinutes: Option<int>,
    status: string,
    lastUpdated: int)
}
