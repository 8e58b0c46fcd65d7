/**
 * The search form: three text fields that must all be filled before the
 * route and date are forwarded, unchanged, to the train list.
 */
module SearchTrains {
  import opened Wrappers
  import opened QueryString

  /**
   * `handleSearch`'s guard and navigation parameters. Only emptiness is
   * checked: blank-looking text and any date pass.
   */
  function SearchQuery(source: string, destination: string, date: string): (nav: Option<Params>)
    ensures nav.None? <==> source == "" || destination == "" || date == ""
    ensures nav.Some? ==> |nav.value| == 3
    ensures nav.Some? ==>
      Get(nav.value, "source") == Some(source) &&
      Get(nav.value, "destination") == Some(destination) &&
      Get(nav.value, "date") == Some(date)
  {
    if source == "" || destination == "" || date == "" then None
    else
      var params := [("source", source), ("destination", destination), ("date", date)];
      assert params[1..][1..] == [("date", date)];
      assert Get(params[1..][1..], "date") == Some(date);
      assert "destination" != "date" && "source" != "date";
      assert Get(params[1..], "date") == Some(date);
      Some(params)
  }

  class SearchForm {
    var source: string
    var destination: string
    var date: string

    constructor ()
      ensures source == "" && destination == "" && date == ""
    {
      source, destination, date := "", "", "";
    }

    /** `handleSearch`: `None` is the rejected form; `Some` is the navigation to the train list. */
    method HandleSearch() returns (nav: Option<Params>)
      ensures nav == SearchQuery(source, destination, date)
    {
      nav := SearchQuery(source, destination, date);
    }
  }
}
