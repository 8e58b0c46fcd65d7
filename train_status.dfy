/**
 * The live status page: find the train by its number, take its most
 * recently updated status report, or show a fixed estimate when it has
 * none; and the delay and location the page derives from the result.
 */
module TrainStatus {
  import opened Wrappers
  import opened Seqs
  import opened Records

  /** The status object the page shows: a report joined with its train's details. */
  datatype StatusView = StatusView(
    currentStation: Option<string>,
    status: string,
    delayMinutes: Option<int>,
    expectedArrival: Option<string>,
    lastUpdated: Option<int>,
    trainNumber: string,
    trainName: string,
    sourceStation: string,
    destinationStation: string)

  /**
   * `.eq("train_number", number).single()`: the train when exactly one has
   * that number; no match, or several, is the "not found" error.
   */
  function FindByNumber(trains: seq<Train>, number: string): (r: Option<Train>)
    ensures r.Some? <==> exists i :: SoleHolder(trains, number, i)
    ensures r.Some? ==> r.value in trains && r.value.trainNumber == number
    ensures r.Some? ==> forall i :: 0 <= i < |trains| && trains[i].trainNumber == number ==> trains[i] == r.value
    ensures (forall i :: 0 <= i < |trains| ==> trains[i].trainNumber != number) ==> r.None?
  {
    var p := (t: Train) => t.trainNumber == number;
    var matches := Filter(trains, p);
    FilterSingle(trains, p);
    assert forall i :: OnlyAt(trains, p, i) <==> SoleHolder(trains, number, i);
    if |matches| == 1 then Some(matches[0]) else None
  }

  /** `trains[i]` is the only train with that number. */
  predicate SoleHolder(trains: seq<Train>, number: string, i: int) {
    0 <= i < |trains| && trains[i].trainNumber == number &&
    forall j :: 0 <= j < |trains| && j != i ==> trains[j].trainNumber != number
  }

  /**
   * `.eq("train_id", id).order("last_updated", desc).limit(1).maybeSingle()`:
   * a report of that train updated no earlier than any other; of equally
   * recent reports, the first in the store's order.
   */
  function LatestStatus(rows: seq<StatusRow>, trainId: string): (r: Option<StatusRow>)
    ensures r.None? <==> forall i :: 0 <= i < |rows| ==> rows[i].trainId != trainId
    ensures r.Some? ==> r.value in rows && r.value.trainId == trainId
    ensures r.Some? ==> forall i :: 0 <= i < |rows| && rows[i].trainId == trainId ==> rows[i].lastUpdated <= r.value.lastUpdated
  {
    if rows == [] then None
    else
      var rest := LatestStatus(rows[1..], trainId);
      assert forall i :: 1 <= i < |rows| ==> rows[i] == rows[1..][i - 1];
      if rows[0].trainId != trainId then rest
      else if rest.Some? && rest.value.lastUpdated > rows[0].lastUpdated then rest
      else Some(rows[0])
  }

  /** The estimate shown for a known train that has no report. */
  function FallbackView(number: string): (v: StatusView)
    ensures v.currentStation == Some("En Route") && v.status == "On Time" && v.delayMinutes == Some(0)
    ensures v.trainNumber == number && v.trainName == "Train Details Not Available"
    ensures v.sourceStation == "-" && v.destinationStation == "-"
    ensures v.expectedArrival.None? && v.lastUpdated.None?
  {
    StatusView(Some("En Route"), "On Time", Some(0), None, None, number, "Train Details Not Available", "-", "-")
  }

  /** A report with its train's number, name and stations. */
  function ReportView(train: Train, row: StatusRow): StatusView {
    StatusView(row.currentStation, row.status, row.delayMinutes, row.expectedArrival, Some(row.lastUpdated),
               train.trainNumber, train.trainName, train.sourceStation, train.destinationStation)
  }

  datatype StatusOutcome =
    | Rejected            // empty train number: nothing is looked up
    | NotFound            // no single train has that number
    | Failed              // a query reported another error
    | Shown(view: StatusView)

  /**
   * What `handleSearch` finds for `number` in the stores `trains` and
   * `rows`; `trainQueryFails` and `statusQueryFails` are errors other than
   * "no row" from the two queries.
   */
  function StatusSearch(number: string, trains: seq<Train>, rows: seq<StatusRow>,
                        trainQueryFails: bool, statusQueryFails: bool): (o: StatusOutcome)
    ensures number == "" <==> o == Rejected
    ensures number != "" && !trainQueryFails && FindByNumber(trains, number).None? ==> o == NotFound
    ensures number != "" && trainQueryFails ==> o == Failed
    ensures number != "" && !trainQueryFails && FindByNumber(trains, number).Some? && statusQueryFails ==> o == Failed
    ensures o.Shown? ==> FindByNumber(trains, number).Some?
    ensures o.Shown? ==> var t := FindByNumber(trains, number).value;
      match LatestStatus(rows, t.id)
      case None => o.view == FallbackView(number)
      case Some(row) => o.view == ReportView(t, row) && row.trainId == t.id
    ensures number != "" && !trainQueryFails && !statusQueryFails && FindByNumber(trains, number).Some? ==> o.Shown?
  {
    if number == "" then Rejected
    else if trainQueryFails then Failed
    else match FindByNumber(trains, number)
      case None => NotFound
      case Some(t) =>
        if statusQueryFails then Failed
        else match LatestStatus(rows, t.id)
          case None => Shown(FallbackView(number))
          case Some(row) => Shown(ReportView(t, row))
  }

  /**
   * A number held by exactly one train, with both queries succeeding, shows
   * that train: its latest report, or the estimate when it has none.
   */
  lemma KnownTrainIsShown(number: string, trains: seq<Train>, rows: seq<StatusRow>, i: int)
    requires number != "" && SoleHolder(trains, number, i)
    ensures StatusSearch(number, trains, rows, false, false).Shown?
    ensures (forall k :: 0 <= k < |rows| ==> rows[k].trainId != trains[i].id) ==>
      StatusSearch(number, trains, rows, false, false) == Shown(FallbackView(number))
    ensures LatestStatus(rows, trains[i].id).Some? ==>
      StatusSearch(number, trains, rows, false, false) == Shown(ReportView(trains[i], LatestStatus(rows, trains[i].id).value))
  {
    assert FindByNumber(trains, number).Some?;
    assert FindByNumber(trains, number).value == trains[i];
  }

  /** The delayed badge and the "Delayed by" line both appear exactly when the delay is positive. */
  predicate IsDelayed(v: StatusView) {
    v.delayMinutes.Some? && v.delayMinutes.value > 0
  }

  /** The badge variant. */
  function Badge(v: StatusView): (variant: string)
    ensures variant == "destructive" <==> IsDelayed(v)
  {
    if IsDelayed(v) then "destructive" else "default"
  }

  /** The minutes in the "Delayed by" line, when the line is shown: the stored delay, unchanged. */
  function DelayLine(v: StatusView): (minutes: Option<int>)
    ensures minutes.Some? <==> IsDelayed(v)
    ensures minutes.Some? ==> v.delayMinutes == minutes && minutes.value > 0
  {
    if IsDelayed(v) then v.delayMinutes else None
  }

  /** `current_station || "En Route"`: the shown location. */
  function Location(v: StatusView): (place: string)
    ensures place != ""
    ensures v.currentStation.Some? && v.currentStation.value != "" ==> place == v.currentStation.value
    ensures v.currentStation.None? || v.currentStation.value == "" ==> place == "En Route"
  {
    if v.currentStation.Some? && v.currentStation.value != "" then v.currentStation.value else "En Route"
  }

  /** The estimate reads as on time, en route, with no delay line. */
  lemma FallbackDisplay(number: string)
    ensures !IsDelayed(FallbackView(number)) && DelayLine(FallbackView(number)).None?
    ensures Badge(FallbackView(number)) == "default" && Location(FallbackView(number)) == "En Route"
  {
  }

  class TrainStatusPage {
    var trainNumber: string
    var status: Option<StatusView>

    constructor ()
      ensures trainNumber == "" && status.None?
    {
      trainNumber := "";
      status := None;
    }

    /**
     * `handleSearch`: an empty number is refused and changes nothing;
     * otherwise the shown status is cleared first and set only on success.
     */
    method HandleSearch(trains: seq<Train>, rows: seq<StatusRow>, trainQueryFails: bool, statusQueryFails: bool)
      returns (outcome: StatusOutcome)
      modifies this`status
      ensures outcome == StatusSearch(trainNumber, trains, rows, trainQueryFails, statusQueryFails)
      ensures status == match outcome
        case Rejected => old(status)
        case Shown(v) => Some(v)
        case _ => None
    {
      if trainNumber == "" {
        return Rejected;
      }
      status := None;
      if trainQueryFails {
        return Failed;
      }
      var train := FindByNumber(trains, trainNumber);
      if train.None? {
        return NotFound;
      }
      if statusQueryFails {
        return Failed;
      }
      var report := LatestStatus(rows, train.value.id);
      var view := if report.None? then FallbackView(trainNumber) else ReportView(train.value, report.value);
      status := Some(view);
      outcome := Shown(view);
    }
  }
}
