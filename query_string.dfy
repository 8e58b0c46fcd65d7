/**
 * URL query parameters as the pages pass them to one another: a list of
 * name/value pairs, read back with `URLSearchParams.get`.
 */
module QueryString {
  import opened Wrappers

  type Params = seq<(string, string)>

  /** `params.get(name)`: the value of the first pair with that name, if any. */
  function Get(params: Params, name: string): (r: Option<string>)
    ensures r.None? <==> forall i :: 0 <= i < |params| ==> params[i].0 != name
    ensures r.Some? ==> exists i :: FirstNamed(params, name, i) && params[i].1 == r.value
  {
    if params == [] then None
    else if params[0].0 == name then
      assert FirstNamed(params, name, 0);
      Some(params[0].1)
    else
      var r := Get(params[1..], name);
      if r.Some? then
        var i :| FirstNamed(params[1..], name, i) && params[1..][i].1 == r.value;
        assert FirstNamed(params, name, i + 1);
        r
      else r
  }

  /** `params[i]` is the first pair named `name`. */
  predicate FirstNamed(params: Params, name: string, i: int) {
    0 <= i < |params| && params[i].0 == name && forall j :: 0 <= j < i ==> params[j].0 != name
  }

  /** `params.get(name) || ""`: a missing or empty parameter reads as the empty string. */
  function GetOrEmpty(params: Params, name: string): (r: string)
    ensures Get(params, name).None? ==> r == ""
    ensures Get(params, name).Some? ==> r == Get(params, name).value
  {
    match Get(params, name)
    case None => ""
    case Some(v) => v
  }
}
