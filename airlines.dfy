/** `getAirlineName`: the closed table of carrier codes the display knows
    by name. */
module Airlines {

  /** The seven carriers the table names. */
  const Carriers: map<string, string> := map[
    "AA" := "American Airlines",
    "UA" := "United Airlines",
    "BA" := "British Airways",
    "IB" := "Iberia",
    "LH" := "Lufthansa",
    "AF" := "Air France",
    "KL" := "KLM"
  ]

  /** The carrier's name when the table has one, otherwise the code itself
      (every name in the table is non-empty, so `||` never falls through on
      a known code). */
  function AirlineName(code: string): (name: string)
    ensures name == code <==> code !in Carriers
  {
    if code in Carriers then Carriers[code] else code
  }

  /** The table, entry by entry, and nothing else: its keys are exactly these
      seven codes. */
  lemma KnownCarrierNames()
    ensures AirlineName("AA") == "American Airlines"
    ensures AirlineName("UA") == "United Airlines"
    ensures AirlineName("BA") == "British Airways"
    ensures AirlineName("IB") == "Iberia"
    ensures AirlineName("LH") == "Lufthansa"
    ensures AirlineName("AF") == "Air France"
    ensures AirlineName("KL") == "KLM"
    ensures Carriers.Keys == {"AA", "UA", "BA", "IB", "LH", "AF", "KL"}
  {}

  /** An unknown code such as "XX" is shown unchanged. */
  lemma UnknownCodeUnchanged(code: string)
    requires code !in {"AA", "UA", "BA", "IB", "LH", "AF", "KL"}
    ensures AirlineName(code) == code
  {
    KnownCarrierNames();
  }

  /** Resolving twice changes nothing: no name in the table is itself a
      code of the table. */
  lemma AirlineNameIdempotent(code: string)
    ensures AirlineName(AirlineName(code)) == AirlineName(code)
  {
    KnownCarrierNames();
  }
}
