/** The query `searchFlights` sends: seven parameters with defaults, and
    the preferred airlines when the caller gives any. */
module SearchQuery {
  import opened Wrappers
  import opened Decimal

  /** The caller's `params` object. A field is None when it is absent. */
  datatype SearchParams = SearchParams(
    origin: Option<string>,
    destination: Option<string>,
    departureDate: Option<string>,
    returnDate: Option<string>,
    adults: Option<string>,
    travelClass: Option<string>,
    maxResults: Option<string>,
    includedAirlineCodes: Option<seq<string>>)

  /** Query parameters in insertion order, as `URLSearchParams` keeps them. */
  type Query = seq<(string, string)>

  const NoParams := SearchParams(None, None, None, None, None, None, None, None)

  /** `value || fallback` for a string field: absent and empty are falsy. */
  function OrDefault(value: Option<string>, fallback: string): (r: string)
    ensures value.Some? && value.value != [] ==> r == value.value
    ensures value.None? || value.value == [] ==> r == fallback
  {
    if value.Some? && value.value != [] then value.value else fallback
  }

  /** `Array.prototype.join(',')`. */
  function Join(xs: seq<string>): (s: string)
    ensures xs == [] ==> s == []
    ensures |xs| == 1 ==> s == xs[0]
  {
    if |xs| == 0 then []
    else if |xs| == 1 then xs[0]
    else xs[0] + "," + Join(xs[1..])
  }

  /** `String.prototype.split(',')`: the inverse of `Join`. */
  function Split(s: string): (xs: seq<string>)
    ensures |xs| > 0
    decreases |s|
  {
    if ',' !in s then [s]
    else
      var i := IndexOf(s, ',');
      [s[..i]] + Split(s[i + 1..])
  }

  /** The parameters in the order `searchFlights` supplies them. */
  function QueryOf(p: SearchParams): (q: Query)
    ensures |q| == if p.includedAirlineCodes.Some? then 8 else 7
  {
    var base := [
      ("originLocationCode", OrDefault(p.origin, "ORD")),
      ("destinationLocationCode", OrDefault(p.destination, "BCN")),
      ("departureDate", OrDefault(p.departureDate, "2025-08-05")),
      ("returnDate", OrDefault(p.returnDate, "2025-08-08")),
      ("adults", OrDefault(p.adults, "1")),
      ("travelClass", OrDefault(p.travelClass, "BUSINESS")),
      ("max", OrDefault(p.maxResults, "10"))];
    // An array is truthy even when empty, so [] still appends "".
    if p.includedAirlineCodes.Some? then base + [("includedAirlineCodes", Join(p.includedAirlineCodes.value))]
    else base
  }

  /** `URLSearchParams.get`: the first value under `key`. */
  function Get(q: Query, key: string): (r: Option<string>)
    ensures r.Some? <==> exists i :: 0 <= i < |q| && q[i].0 == key
  {
    if |q| == 0 then None
    else if q[0].0 == key then Some(q[0].1)
    else
      var r := Get(q[1..], key);
      assert forall i :: 1 <= i < |q| ==> q[i] == q[1..][i - 1];
      assert r.Some? ==> exists i :: 0 <= i < |q| && q[i].0 == key by {
        if r.Some? {
          var j :| 0 <= j < |q[1..]| && q[1..][j].0 == key;
          assert q[j + 1].0 == key;
        }
      }
      r
  }

  // ---------------------------------------------------------------------
  // Properties

  /** Every parameter is the caller's value when truthy and the default
      otherwise. */
  lemma QueryValues(p: SearchParams)
    ensures Get(QueryOf(p), "originLocationCode") == Some(OrDefault(p.origin, "ORD"))
    ensures Get(QueryOf(p), "destinationLocationCode") == Some(OrDefault(p.destination, "BCN"))
    ensures Get(QueryOf(p), "departureDate") == Some(OrDefault(p.departureDate, "2025-08-05"))
    ensures Get(QueryOf(p), "returnDate") == Some(OrDefault(p.returnDate, "2025-08-08"))
    ensures Get(QueryOf(p), "adults") == Some(OrDefault(p.adults, "1"))
    ensures Get(QueryOf(p), "travelClass") == Some(OrDefault(p.travelClass, "BUSINESS"))
    ensures Get(QueryOf(p), "max") == Some(OrDefault(p.maxResults, "10"))
  {
    var q := QueryOf(p);
    QueryKeysDistinct(p);
    GetFirst(q, 0, "originLocationCode");
    GetFirst(q, 1, "destinationLocationCode");
    GetFirst(q, 2, "departureDate");
    GetFirst(q, 3, "returnDate");
    GetFirst(q, 4, "adults");
    GetFirst(q, 5, "travelClass");
    GetFirst(q, 6, "max");
  }

  /** The airline list is sent, comma-joined, exactly when the caller gives
      one. */
  lemma QueryAirlines(p: SearchParams)
    ensures Get(QueryOf(p), "includedAirlineCodes")
         == if p.includedAirlineCodes.Some? then Some(Join(p.includedAirlineCodes.value)) else None
  {
    if p.includedAirlineCodes.Some? {
      QueryKeysDistinct(p);
      GetFirst(QueryOf(p), 7, "includedAirlineCodes");
    }
  }

  /** The first entry under `key` is the one `Get` finds. */
  lemma {:induction false} GetFirst(q: Query, i: nat, key: string)
    requires i < |q| && q[i].0 == key && forall j :: 0 <= j < i ==> q[j].0 != key
    ensures Get(q, key) == Some(q[i].1)
    decreases i
  {
    if i > 0 {
      assert forall j :: 0 <= j < |q| - 1 ==> q[1..][j] == q[j + 1];
      GetFirst(q[1..], i - 1, key);
    }
  }

  /** With no parameters at all, the query is exactly the Chicago to
      Barcelona business-class default. */
  lemma DefaultQuery()
    ensures QueryOf(NoParams) == [
      ("originLocationCode", "ORD"), ("destinationLocationCode", "BCN"),
      ("departureDate", "2025-08-05"), ("returnDate", "2025-08-08"),
      ("adults", "1"), ("travelClass", "BUSINESS"), ("max", "10")]
  {
  }

  /** The parameter names of a query, in order. */
  function Keys(q: Query): (ks: seq<string>)
    ensures |ks| == |q| && forall i :: 0 <= i < |q| ==> ks[i] == q[i].0
  {
    seq(|q|, i requires 0 <= i < |q| => q[i].0)
  }

  /** The query carries exactly the seven named parameters, in this order,
      then the airline list when one is given, and nothing else. */
  lemma QueryKeys(p: SearchParams)
    ensures Keys(QueryOf(p))
         == ["originLocationCode", "destinationLocationCode", "departureDate", "returnDate",
             "adults", "travelClass", "max"]
            + (if p.includedAirlineCodes.Some? then ["includedAirlineCodes"] else [])
  {
  }

  /** No key is repeated. */
  lemma QueryKeysDistinct(p: SearchParams)
    ensures forall i, j :: 0 <= i < j < |QueryOf(p)| ==> QueryOf(p)[i].0 != QueryOf(p)[j].0
  {
  }

  /** Joining airline codes that hold no comma splits back to the same
      codes; an empty list does not, since it joins to "" and "" splits
      to [""]. */
  lemma {:induction false} SplitJoin(xs: seq<string>)
    requires |xs| > 0 && forall i :: 0 <= i < |xs| ==> ',' !in xs[i]
    ensures Split(Join(xs)) == xs
    decreases |xs|
  {
    if |xs| > 1 {
      SplitAfter(xs[0], Join(xs[1..]));
      SplitJoin(xs[1..]);
      assert xs == [xs[0]] + xs[1..];
    }
  }

  /** The text up to the first comma is the first piece. */
  lemma SplitAfter(a: string, rest: string)
    requires ',' !in a
    ensures Split(a + "," + rest) == [a] + Split(rest)
  {
    var s := a + "," + rest;
    IndexOfAfter(a, ',', rest);
    assert s[|a|] == ',';
    assert s[..|a|] == a;
    assert s[|a| + 1..] == rest;
  }

  lemma EmptyAirlineList()
    ensures Join([]) == [] && Split(Join([])) == [[]]
  {
  }
}
