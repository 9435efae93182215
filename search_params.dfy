/** `URLSearchParams`: the query string of the current URL, already split into decoded
    name/value pairs, in order. */
module SearchParams {

  import opened Wrappers

  type Query = seq<(string, string)>

  /** `params.get(name)`: the value of the first pair with that name, or `null`. */
  function Get(q: Query, name: string): (r: Option<string>)
    ensures r.None? <==> forall i :: 0 <= i < |q| ==> q[i].0 != name
    ensures r.Some? ==> exists i :: 0 <= i < |q| && q[i] == (name, r.value)
                                    && forall j :: 0 <= j < i ==> q[j].0 != name
  {
    if q == [] then None
    else if q[0].0 == name then Some(q[0].1)
    else
      var r := Get(q[1..], name);
      assert r.Some? ==> exists i :: 0 <= i < |q| && q[i] == (name, r.value) && forall j :: 0 <= j < i ==> q[j].0 != name by {
        if r.Some? {
          var i :| 0 <= i < |q[1..]| && q[1..][i] == (name, r.value) && forall j :: 0 <= j < i ==> q[1..][j].0 != name;
          assert q[i + 1] == (name, r.value) && forall j :: 0 <= j < i + 1 ==> q[j].0 != name;
        }
      }
      r
  }

  /** JavaScript truthiness of `params.get(name)`: present and not the empty string. */
  predicate Truthy(v: Option<string>) {
    v.Some? && v.value != ""
  }
}
