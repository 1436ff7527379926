/** `formatFlightData`: the vendor's flight offers reshaped into at most
    three ranked display summaries. The vendor JSON is modelled by the
    fields the source reads and nothing more. */
module Offers {
  import opened Wrappers
  import opened Decimal
  import opened Durations
  import opened Airlines

  /** One flight leg. `aircraftCode` is None when either the `aircraft`
      object or its `code` is missing. */
  datatype Segment = Segment(
    carrierCode: string,
    departureAt: string,
    arrivalAt: string,
    aircraftCode: Option<string>)

  /** One direction of travel: index 0 of an offer is outbound, index 1 the
      return. */
  datatype Itinerary = Itinerary(duration: string, segments: seq<Segment>)

  /** A priced offer; `roundedPrice` is `offer.price.total` already parsed
      and rounded to the nearest integer. */
  datatype Offer = Offer(id: string, itineraries: seq<Itinerary>, roundedPrice: nat)

  /** The body of a successful search: `{ data: [...] }`. */
  datatype SearchResponse = SearchResponse(data: seq<Offer>)

  datatype FlightSummary = FlightSummary(
    rank: nat,
    airline: string,
    price: string,
    duration: string,
    stops: string,
    departure: string,
    arrival: string,
    aircraft: string,
    bookingUrl: string)

  /** The TypeErrors the source raises on a malformed offer, in the order it
      would meet them. */
  datatype FormatError =
    | MissingOutbound              // `offer.itineraries[0]` is undefined
    | UnmatchedOutboundDuration    // the outbound duration holds no "PT"
    | MissingReturn                // `offer.itineraries[1]` is undefined
    | UnmatchedReturnDuration      // the return duration holds no "PT"
    | NoSegments                   // `outbound.segments[0]` is undefined
    | DepartureWithoutTime         // no 'T' in the first departure timestamp
    | ArrivalWithoutTime           // no 'T' in the last arrival timestamp

  /** How many offers are shown: `slice(0, 3)`. */
  const MaxShown: nat := 3

  /** The booking link is this prefix followed by the offer id. */
  const BookingUrlPrefix: string := "https://www.amadeus.com/book?offer="

  function Shown(n: nat): (k: nat)
    ensures k <= n && k <= MaxShown && (k == n || k == MaxShown)
  {
    if n < MaxShown then n else MaxShown
  }

  /** `at.split('T')[1].substring(0, 5)`: the text between the first and
      the second 'T' (or the end), cut to five characters; None where the
      source throws because there is no 'T' at all. */
  function ClockTime(at: string): (r: Option<string>)
    ensures r.None? <==> 'T' !in at
    ensures r.Some? ==> |r.value| <= 5 && 'T' !in r.value
    ensures r.Some? ==>
      var after := at[IndexOf(at, 'T') + 1..];
      r.value <= after && (|r.value| == 5 || |r.value| == |after| || after[|r.value|] == 'T')
  {
    if 'T' !in at then None
    else
      var rest := at[IndexOf(at, 'T') + 1..];
      var piece := if 'T' in rest then rest[..IndexOf(rest, 'T')] else rest;
      assert 'T' !in piece;
      Some(if |piece| <= 5 then piece else piece[..5])
  }

  /** The stop count as the source writes it. */
  function StopsLabel(stops: nat): (r: string) {
    if stops == 0 then "Nonstop" else Show(stops) + " stop" + (if stops > 1 then "s" else "")
  }

  /** `segments[0].aircraft?.code || 'N/A'`. */
  function AircraftLabel(code: Option<string>): (r: string)
    ensures r != []
    ensures code.Some? && code.value != [] ==> r == code.value
    ensures !(code.Some? && code.value != []) ==> r == "N/A"
  {
    if code.Some? && code.value != [] then code.value else "N/A"
  }

  /** What an offer must hold for the source not to throw on it. */
  predicate WellFormed(offer: Offer) {
    && |offer.itineraries| >= 2
    && ParseDuration(offer.itineraries[0].duration).Some?
    && ParseDuration(offer.itineraries[1].duration).Some?
    && |offer.itineraries[0].segments| > 0
    && 'T' in offer.itineraries[0].segments[0].departureAt
    && 'T' in offer.itineraries[0].segments[|offer.itineraries[0].segments| - 1].arrivalAt
  }

  /** The error the source raises first on `offer`, if any. */
  function FirstError(offer: Offer): (e: Option<FormatError>)
    ensures e.None? <==> WellFormed(offer)
  {
    if |offer.itineraries| == 0 then Some(MissingOutbound)
    else
      var outbound := offer.itineraries[0];
      if ParseDuration(outbound.duration).None? then Some(UnmatchedOutboundDuration)
      else if |offer.itineraries| < 2 then Some(MissingReturn)
      else if ParseDuration(offer.itineraries[1].duration).None? then Some(UnmatchedReturnDuration)
      else if |outbound.segments| == 0 then Some(NoSegments)
      else if ClockTime(outbound.segments[0].departureAt).None? then Some(DepartureWithoutTime)
      else if ClockTime(outbound.segments[|outbound.segments| - 1].arrivalAt).None? then Some(ArrivalWithoutTime)
      else None
  }

  /** Each error is reported exactly when every check the source makes
      before it passes and its own check fails: outbound itinerary, its
      duration, return itinerary, its duration, segments, departure time,
      arrival time. */
  lemma FirstErrorOrder(offer: Offer)
    ensures FirstError(offer) == Some(MissingOutbound) <==> |offer.itineraries| == 0
    ensures FirstError(offer) == Some(UnmatchedOutboundDuration)
        <==> |offer.itineraries| > 0 && ParseDuration(offer.itineraries[0].duration).None?
    ensures FirstError(offer) == Some(MissingReturn)
        <==> |offer.itineraries| == 1 && ParseDuration(offer.itineraries[0].duration).Some?
    ensures FirstError(offer) == Some(UnmatchedReturnDuration)
        <==> |offer.itineraries| >= 2 && ParseDuration(offer.itineraries[0].duration).Some?
             && ParseDuration(offer.itineraries[1].duration).None?
    ensures FirstError(offer) == Some(NoSegments)
        <==> |offer.itineraries| >= 2 && ParseDuration(offer.itineraries[0].duration).Some?
             && ParseDuration(offer.itineraries[1].duration).Some?
             && |offer.itineraries[0].segments| == 0
    ensures FirstError(offer) == Some(DepartureWithoutTime)
        <==> |offer.itineraries| >= 2 && ParseDuration(offer.itineraries[0].duration).Some?
             && ParseDuration(offer.itineraries[1].duration).Some?
             && |offer.itineraries[0].segments| > 0
             && 'T' !in offer.itineraries[0].segments[0].departureAt
    ensures FirstError(offer) == Some(ArrivalWithoutTime)
        <==> |offer.itineraries| >= 2 && ParseDuration(offer.itineraries[0].duration).Some?
             && ParseDuration(offer.itineraries[1].duration).Some?
             && |offer.itineraries[0].segments| > 0
             && 'T' in offer.itineraries[0].segments[0].departureAt
             && 'T' !in offer.itineraries[0].segments[|offer.itineraries[0].segments| - 1].arrivalAt
  {
  }

  /** The summary of a well-formed offer at position `index`. */
  function Build(offer: Offer, index: nat): (f: FlightSummary)
    requires WellFormed(offer)
  {
    var outbound := offer.itineraries[0];
    var first := outbound.segments[0];
    var last := outbound.segments[|outbound.segments| - 1];
    FlightSummary(
      rank := index + 1,
      airline := AirlineName(first.carrierCode),
      price := "$" + Show(offer.roundedPrice),
      duration := FormatDuration(ParseDuration(outbound.duration).value
                                 + ParseDuration(offer.itineraries[1].duration).value),
      stops := StopsLabel(|outbound.segments| - 1),
      departure := ClockTime(first.departureAt).value,
      arrival := ClockTime(last.arrivalAt).value,
      aircraft := AircraftLabel(first.aircraftCode),
      bookingUrl := BookingUrlPrefix + offer.id)
  }

  /** The body of the `forEach` callback for the offer at `index`. */
  function Summarize(offer: Offer, index: nat): (r: Result<FlightSummary, FormatError>)
    ensures r.Ok? <==> WellFormed(offer)
    ensures r.Ok? ==> r.value.rank == index + 1
  {
    match FirstError(offer)
    case Some(e) => Err(e)
    case None => Ok(Build(offer, index))
  }

  /** A `forEach` whose callback `f` may throw: the results for `xs` in
      order, or the error of the first element on which `f` fails. */
  function Collect<T, U, E>(xs: seq<T>, f: (T, nat) -> Result<U, E>): (r: Result<seq<U>, E>)
    ensures r.Ok? ==> |r.value| == |xs|
    decreases |xs|
  {
    if xs == [] then Ok([])
    else
      match Collect(xs[..|xs| - 1], f)
      case Err(e) => Err(e)
      case Ok(ys) =>
        match f(xs[|xs| - 1], |xs| - 1)
        case Err(e) => Err(e)
        case Ok(y) => Ok(ys + [y])
  }

  /** Each collected value is the callback's result for its own element and
      index. */
  lemma {:induction false} CollectValue<T, U, E>(xs: seq<T>, f: (T, nat) -> Result<U, E>, i: nat)
    requires Collect(xs, f).Ok? && i < |xs|
    ensures f(xs[i], i) == Ok(Collect(xs, f).value[i])
    decreases |xs|
  {
    var init := xs[..|xs| - 1];
    if i < |xs| - 1 {
      CollectValue(init, f, i);
      assert init[i] == xs[i];
    }
  }

  /** The collection succeeds exactly when the callback succeeds on every
      element. */
  lemma {:induction false} CollectOkIff<T, U, E>(xs: seq<T>, f: (T, nat) -> Result<U, E>)
    ensures Collect(xs, f).Ok? <==> forall i :: 0 <= i < |xs| ==> f(xs[i], i).Ok?
    decreases |xs|
  {
    if xs != [] {
      var init := xs[..|xs| - 1];
      CollectOkIff(init, f);
      assert forall i :: 0 <= i < |init| ==> init[i] == xs[i];
    }
  }

  /** A failure reports the error of the first element the callback fails
      on. */
  lemma {:induction false} CollectErr<T, U, E>(xs: seq<T>, f: (T, nat) -> Result<U, E>)
    requires Collect(xs, f).Err?
    ensures exists k :: 0 <= k < |xs| && f(xs[k], k) == Err(Collect(xs, f).error)
              && forall i :: 0 <= i < k ==> f(xs[i], i).Ok?
    decreases |xs|
  {
    var init := xs[..|xs| - 1];
    assert forall i :: 0 <= i < |init| ==> init[i] == xs[i];
    if Collect(init, f).Err? {
      CollectErr(init, f);
    } else {
      CollectOkIff(init, f);
      var k := |xs| - 1;
      assert f(xs[k], k) == Err(Collect(xs, f).error);
    }
  }

  /** Once a prefix fails, the whole collection fails with that error. */
  lemma {:induction false} CollectErrPrefix<T, U, E>(xs: seq<T>, n: nat, f: (T, nat) -> Result<U, E>)
    requires n <= |xs| && Collect(xs[..n], f).Err?
    ensures Collect(xs, f) == Collect(xs[..n], f)
    decreases |xs|
  {
    if n < |xs| {
      var init := xs[..|xs| - 1];
      assert init[..n] == xs[..n];
      CollectErrPrefix(init, n, f);
    } else {
      assert xs[..n] == xs;
    }
  }

  /** The offers the source keeps: `data.slice(0, 3)`. */
  function ShownOffers(response: SearchResponse): (offers: seq<Offer>)
    ensures |offers| == Shown(|response.data|)
    ensures forall i :: 0 <= i < |offers| ==> offers[i] == response.data[i]
  {
    response.data[..Shown(|response.data|)]
  }

  /** `formatFlightData`: summaries of the first three offers, in input
      order, or the error the first malformed one among them raises. */
  method FormatFlightData(response: SearchResponse) returns (r: Result<seq<FlightSummary>, FormatError>)
    ensures r == Collect(ShownOffers(response), Summarize)
  {
    var offers := ShownOffers(response);
    var flights: seq<FlightSummary> := [];
    var index := 0;
    while index < |offers|
      invariant 0 <= index <= |offers|
      invariant Collect(offers[..index], Summarize) == Ok(flights)
    {
      var summary := Summarize(offers[index], index);
      assert offers[..index + 1][..index] == offers[..index];
      if summary.Err? {
        CollectErrPrefix(offers, index + 1, Summarize);
        return Err(summary.error);
      }
      flights := flights + [summary.value];
      index := index + 1;
    }
    assert offers[..index] == offers;
    return Ok(flights);
  }

  /** The result is a list exactly when every shown offer is well formed. */
  lemma FormatOkIff(response: SearchResponse)
    ensures Collect(ShownOffers(response), Summarize).Ok?
        <==> forall i :: 0 <= i < Shown(|response.data|) ==> WellFormed(response.data[i])
  {
    var offers := ShownOffers(response);
    CollectOkIff(offers, Summarize);
    assert forall i :: 0 <= i < |offers| ==> (Summarize(offers[i], i).Ok? <==> WellFormed(offers[i]));
  }

  /** A successful result holds one flight per shown offer: min(3, n). */
  lemma FormatCount(response: SearchResponse)
    requires Collect(ShownOffers(response), Summarize).Ok?
    ensures |Collect(ShownOffers(response), Summarize).value| == Shown(|response.data|)
    ensures |response.data| >= MaxShown ==> |Collect(ShownOffers(response), Summarize).value| == 3
  {
  }

  /** The i-th flight shown is the summary of the i-th offer, ranked i + 1. */
  lemma FormatShownFlight(response: SearchResponse, i: nat)
    requires Collect(ShownOffers(response), Summarize).Ok? && i < Shown(|response.data|)
    ensures Summarize(response.data[i], i) == Ok(Collect(ShownOffers(response), Summarize).value[i])
    ensures Collect(ShownOffers(response), Summarize).value[i].rank == i + 1
  {
    CollectValue(ShownOffers(response), Summarize, i);
  }

  /** A failure is the error of the first malformed shown offer. */
  lemma FormatErr(response: SearchResponse)
    requires Collect(ShownOffers(response), Summarize).Err?
    ensures exists k :: 0 <= k < Shown(|response.data|)
              && Summarize(response.data[k], k) == Err(Collect(ShownOffers(response), Summarize).error)
              && forall i :: 0 <= i < k ==> WellFormed(response.data[i])
  {
    CollectErr(ShownOffers(response), Summarize);
  }

  /** Offers after the third never change the result. */
  lemma FormatOnlyShown(a: SearchResponse, b: SearchResponse)
    requires |a.data| >= MaxShown && |b.data| >= MaxShown && a.data[..MaxShown] == b.data[..MaxShown]
    ensures Collect(ShownOffers(a), Summarize) == Collect(ShownOffers(b), Summarize)
  {
  }

  /** The displayed duration is the sum of the two parsed legs. */
  lemma SummaryDurationParsed(offer: Offer, index: nat)
    requires WellFormed(offer)
    ensures Summarize(offer, index).value.duration
         == FormatDuration(ParseDuration(offer.itineraries[0].duration).value
                           + ParseDuration(offer.itineraries[1].duration).value)
  {
    SummarizeBuilds(offer, index);
    BuildDuration(offer, index);
  }

  /** Which segment each field comes from: the stop count is the outbound
      segment count less one, the airline, departure and aircraft come from
      the first outbound segment, the arrival from the last. */
  lemma SummaryFields(offer: Offer, index: nat)
    requires WellFormed(offer)
    ensures var f := Summarize(offer, index).value;
            var segments := offer.itineraries[0].segments;
            && f.stops == StopsLabel(|segments| - 1)
            && f.airline == AirlineName(segments[0].carrierCode)
            && Some(f.departure) == ClockTime(segments[0].departureAt)
            && Some(f.arrival) == ClockTime(segments[|segments| - 1].arrivalAt)
            && f.aircraft == AircraftLabel(segments[0].aircraftCode)
            && f.price == "$" + Show(offer.roundedPrice)
            && f.bookingUrl == BookingUrlPrefix + offer.id
  {
    SummarizeBuilds(offer, index);
  }

  /** A well-formed offer is summarized by `Build`. */
  lemma SummarizeBuilds(offer: Offer, index: nat)
    requires WellFormed(offer)
    ensures Summarize(offer, index) == Ok(Build(offer, index))
  {
  }

  lemma BuildDuration(offer: Offer, index: nat)
    requires WellFormed(offer)
    ensures Build(offer, index).duration
         == FormatDuration(ParseDuration(offer.itineraries[0].duration).value
                           + ParseDuration(offer.itineraries[1].duration).value)
  {
  }

  /** An offer is well formed exactly when it has both itineraries, both
      durations contain "PT", the outbound has a segment, and its first
      departure and last arrival contain a 'T'. */
  lemma WellFormedIff(offer: Offer)
    ensures WellFormed(offer) <==>
      && |offer.itineraries| >= 2
      && ContainsPT(offer.itineraries[0].duration)
      && ContainsPT(offer.itineraries[1].duration)
      && |offer.itineraries[0].segments| > 0
      && 'T' in offer.itineraries[0].segments[0].departureAt
      && 'T' in offer.itineraries[0].segments[|offer.itineraries[0].segments| - 1].arrivalAt
  {
    if |offer.itineraries| >= 2 {
      ParseFailsIffNoPT(offer.itineraries[0].duration);
      ParseFailsIffNoPT(offer.itineraries[1].duration);
    }
  }

  // ---------------------------------------------------------------------
  // Properties of the per-offer derivation

  /** A timestamp "<date>T<time>" whose time part has no 'T' in its first
      five characters shows those five characters. */
  lemma ClockTimeOf(date: string, time: string)
    requires 'T' !in date && |time| >= 5 && 'T' !in time[..5]
    ensures ClockTime(date + "T" + time) == Some(time[..5])
  {
    var at := date + "T" + time;
    IndexOfAfter(date, 'T', time);
    assert at[IndexOf(at, 'T') + 1..] == time;
    var piece := if 'T' in time then time[..IndexOf(time, 'T')] else time;
    if 'T' in time {
      assert forall k :: 0 <= k < 5 ==> time[..5][k] == time[k];
      assert piece[..5] == time[..5];
    }
    assert |piece| >= 5 && piece[..5] == time[..5];
    assert |piece| == 5 ==> piece == piece[..5];
    assert ClockTime(at) == Some(if |piece| <= 5 then piece else piece[..5]);
  }

  /** "2025-08-05T10:30:00" shows as "10:30". */
  lemma ClockTimeExample()
    ensures ClockTime("2025-08-05T10:30:00") == Some("10:30")
  {
    var date, time := "2025-08-05", "10:30:00";
    assert 'T' !in date;
    assert time[..5] == "10:30";
    assert 'T' !in time[..5];
    ClockTimeOf(date, time);
    assert date + "T" + time == "2025-08-05T10:30:00";
  }

  /** The label names the count: 0 is "Nonstop", 1 is "1 stop", more is
      "<n> stops". */
  lemma StopsLabelCases(n: nat)
    ensures StopsLabel(0) == "Nonstop" && StopsLabel(1) == "1 stop"
    ensures n > 1 ==> StopsLabel(n) == Show(n) + " stops"
  {
    assert Show(1) == "1";
  }

  /** Different stop counts get different labels. */
  lemma StopsLabelInjective(a: nat, b: nat)
    requires StopsLabel(a) == StopsLabel(b)
    ensures a == b
  {
    assert a != 0 ==> StopsLabel(a)[0] == Show(a)[0];
    assert b != 0 ==> StopsLabel(b)[0] == Show(b)[0];
    if a != 0 && b != 0 {
      var sa, sb := if a > 1 then "s" else "", if b > 1 then "s" else "";
      assert StopsLabel(a) == Show(a) + (" stop" + sa);
      assert StopsLabel(b) == Show(b) + (" stop" + sb);
      DigitPrefixUnique(Show(a), " stop" + sa, Show(b), " stop" + sb);
      ShowInjective(a, b);
    }
  }
}
