/**
 * The train list page: the trains whose source and destination station
 * names contain the searched text, ignoring case, each filter applied only
 * when its text is non-empty; and the parameters of the Book action.
 */
module TrainList {
  import opened Wrappers
  import opened Text
  import opened Seqs
  import opened QueryString
  import opened Records

  datatype Column = SourceStation | DestinationStation

  /** `.ilike(column, "%text%")` */
  datatype Condition = ILike(column: Column, text: string)

  function ColumnValue(t: Train, column: Column): string {
    match column
    case SourceStation => t.sourceStation
    case DestinationStation => t.destinationStation
  }

  predicate SatisfiesAll(t: Train, query: seq<Condition>) {
    forall i :: 0 <= i < |query| ==> ContainsIgnoringCase(ColumnValue(t, query[i].column), query[i].text)
  }

  /** The rows of `trains` the query selects, in the order the store returns them. */
  function RunQuery(query: seq<Condition>, db: seq<Train>): seq<Train> {
    Filter(db, (t: Train) => SatisfiesAll(t, query))
  }

  /** The route a train must match: each non-empty text must occur in its station name. */
  predicate RouteMatches(t: Train, source: string, destination: string) {
    (source == "" || ContainsIgnoringCase(t.sourceStation, source)) &&
    (destination == "" || ContainsIgnoringCase(t.destinationStation, destination))
  }

  /** The trains listed for a route: exactly the matching trains of `db`, in order. */
  function FilterTrains(db: seq<Train>, source: string, destination: string): (r: seq<Train>)
    ensures forall i :: 0 <= i < |r| ==> r[i] in db && RouteMatches(r[i], source, destination)
    ensures forall i :: 0 <= i < |db| && RouteMatches(db[i], source, destination) ==> db[i] in r
  {
    Filter(db, (t: Train) => RouteMatches(t, source, destination))
  }

  /** The query `fetchTrains` builds returns the trains of the route. */
  lemma {:induction false} RouteQueryMeansRoute(db: seq<Train>, source: string, destination: string)
    ensures RunQuery(RouteQuery(source, destination), db) == FilterTrains(db, source, destination)
  {
    var query := RouteQuery(source, destination);
    forall t: Train ensures SatisfiesAll(t, query) == RouteMatches(t, source, destination) {
      if source != "" {
        assert query[0] == ILike(SourceStation, source);
      }
      if destination != "" {
        assert query[|query| - 1] == ILike(DestinationStation, destination);
      }
    }
    FilterCongruent(db, (t: Train) => SatisfiesAll(t, query), (t: Train) => RouteMatches(t, source, destination));
  }

  /** The conditions `fetchTrains` adds, one per non-empty text. */
  function RouteQuery(source: string, destination: string): seq<Condition> {
    (if source != "" then [ILike(SourceStation, source)] else []) +
    (if destination != "" then [ILike(DestinationStation, destination)] else [])
  }

  /** With both texts empty no filter is applied and every train is listed. */
  lemma EmptyRouteListsAll(db: seq<Train>)
    ensures FilterTrains(db, "", "") == db
  {
    FilterAll(db, (t: Train) => RouteMatches(t, "", ""));
  }

  /** Adding a destination only narrows the source-only list, keeping its order. */
  lemma DestinationNarrows(db: seq<Train>, source: string, destination: string)
    ensures FilterTrains(db, source, destination) ==
      Filter(FilterTrains(db, source, ""), (t: Train) => RouteMatches(t, source, destination))
  {
    FilterRefines(db, (t: Train) => RouteMatches(t, source, destination), (t: Train) => RouteMatches(t, source, ""));
  }

  /** The Book action's parameters, as the booking page reads them back. */
  function BookParams(trainId: string, date: string): (params: Params)
    ensures |params| == 2
    ensures Get(params, "trainId") == Some(trainId) && Get(params, "date") == Some(date)
  {
    [("trainId", trainId), ("date", date)]
  }

  class TrainListPage {
    const source: string
    const destination: string
    const date: string
    var trains: seq<Train>

    /** Reading the query string; missing parameters default to "". */
    constructor (params: Params)
      ensures source == GetOrEmpty(params, "source")
      ensures destination == GetOrEmpty(params, "destination")
      ensures date == GetOrEmpty(params, "date")
      ensures trains == []
    {
      source := GetOrEmpty(params, "source");
      destination := GetOrEmpty(params, "destination");
      date := GetOrEmpty(params, "date");
      trains := [];
    }

    /**
     * `fetchTrains` against the store `db`; `fails` is a query error, after
     * which the list is left as it was. The date plays no part.
     */
    method FetchTrains(db: seq<Train>, fails: bool)
      modifies this`trains
      ensures trains == if fails then old(trains) else FilterTrains(db, source, destination)
    {
      var query: seq<Condition> := [];
      if source != "" {
        query := query + [ILike(SourceStation, source)];
      }
      if destination != "" {
        query := query + [ILike(DestinationStation, destination)];
      }
      if fails {
        return;
      }
      assert query == RouteQuery(source, destination);
      RouteQueryMeansRoute(db, source, destination);
      trains := RunQuery(query, db);
    }

    /** `handleBookTrain`: the train id and this page's date, forwarded unchanged. */
    method HandleBookTrain(trainId: string) returns (params: Params)
      ensures params == BookParams(trainId, date)
    {
      params := BookParams(trainId, date);
    }
  }
}
