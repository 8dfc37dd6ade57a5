/** `calculate_eta`: the arrival date of a shipment is its departure date plus
    the lead time of its destination. */
module Eta {
  import opened Wrappers
  import opened CivilDate
  import opened DateText

  /** Why `calculate_eta` raises instead of returning a date. */
  datatype EtaError =
    | FormatError    // strptime raises ValueError: not `%Y-%m-%d`, or no such date
    | DateOverflow   // datetime + timedelta raises OverflowError past 9999-12-31

  /** Lead time in whole days, per destination. */
  const LeadTimes: map<string, nat> := map[
    "Miri" := 1,
    "Bintulu" := 2,
    "Kuching" := 7,
    "Sibu" := 4,
    "Kota Kinabalu" := 7,
    "Sandakan" := 14,
    "Brunei" := 5,
    "Labuan" := 5,
    "Self Collect" := 1
  ]

  /** `lead_times.get(destination, 0)`: a positive number of days, at most two
      weeks, for a destination in the table, and 0 for any other. */
  function LeadTime(destination: string): (n: nat)
    ensures n > 0 <==> destination in LeadTimes
    ensures n <= 14
  {
    if destination in LeadTimes then LeadTimes[destination] else 0
  }

  /** `(datetime.strptime(etd, '%Y-%m-%d') + timedelta(days=lead)).strftime('%Y-%m-%d')`. */
  function CalculateEta(etd: string, destination: string): (r: Result<string, EtaError>)
    ensures r == Err(FormatError) <==> Parse(etd).None?
  {
    match Parse(etd)
    case None => Err(FormatError)
    case Some(d) =>
      var lead := LeadTime(destination);
      if Ordinal(d) + lead > MaxOrdinal then Err(DateOverflow)
      else
        AddDaysOrdinal(d, lead);
        InRangeIffOrdinal(AddDays(d, lead));
        Ok(Format(AddDays(d, lead)))
  }

  /** Every result is zero-padded `YYYY-MM-DD` text that strptime accepts again. */
  lemma EtaWellFormed(etd: string, destination: string)
    requires CalculateEta(etd, destination).Ok?
    ensures IsCanonical(CalculateEta(etd, destination).value)
    ensures Parse(CalculateEta(etd, destination).value).Some?
  {
    var d, lead := Parse(etd).value, LeadTime(destination);
    AddDaysOrdinal(d, lead);
    InRangeIffOrdinal(AddDays(d, lead));
    ParseFormat(AddDays(d, lead));
  }

  /** A parsed departure date yields the date `lead` days later, and fails only
      when that date is past 9999-12-31. */
  lemma EtaAddsLeadTime(etd: string, destination: string)
    requires Parse(etd).Some?
    ensures var d, lead := Parse(etd).value, LeadTime(destination);
      && (CalculateEta(etd, destination).Err? <==> AddDays(d, lead).year > MaxYear)
      && (CalculateEta(etd, destination).Ok? ==>
            Parse(CalculateEta(etd, destination).value) == Some(AddDays(d, lead)))
  {
    var d, lead := Parse(etd).value, LeadTime(destination);
    AddDaysOrdinal(d, lead);
    InRangeIffOrdinal(AddDays(d, lead));
    if Ordinal(d) + lead <= MaxOrdinal {
      ParseFormat(AddDays(d, lead));
    }
  }

  /** For a destination in the table the arrival day's ordinal is exactly the
      departure day's ordinal plus that destination's lead time. */
  lemma EtaKnownDestination(etd: string, destination: string)
    requires destination in LeadTimes
    requires CalculateEta(etd, destination).Ok?
    ensures Parse(etd).Some? && Parse(CalculateEta(etd, destination).value).Some?
    ensures Ordinal(Parse(CalculateEta(etd, destination).value).value)
         == Ordinal(Parse(etd).value) + LeadTimes[destination]
  {
    EtaAddsLeadTime(etd, destination);
    AddDaysOrdinal(Parse(etd).value, LeadTime(destination));
  }

  /** An unknown destination adds nothing: a canonical departure date comes back
      unchanged, and any other accepted spelling comes back in canonical form. */
  lemma EtaUnknownDestination(etd: string, destination: string)
    requires destination !in LeadTimes
    requires Parse(etd).Some?
    ensures CalculateEta(etd, destination) == Ok(Format(Parse(etd).value))
    ensures IsCanonical(etd) ==> CalculateEta(etd, destination) == Ok(etd)
  {
    var d := Parse(etd).value;
    assert AddDays(d, 0) == d;
    OrdinalWithinYear(d);
    InRangeIffOrdinal(d);
    if IsCanonical(etd) {
      FormatParse(etd);
    }
  }

  /** The arrival date is never earlier than the departure date, and is later
      exactly when the destination has a lead time. */
  lemma EtaNotEarlier(etd: string, destination: string)
    requires CalculateEta(etd, destination).Ok?
    ensures Parse(etd).Some? && Parse(CalculateEta(etd, destination).value).Some?
    ensures var d, e := Parse(etd).value, Parse(CalculateEta(etd, destination).value).value;
      !Before(e, d) && (Before(d, e) <==> LeadTime(destination) > 0)
  {
    var d := Parse(etd).value;
    EtaAddsLeadTime(etd, destination);
    var e := AddDays(d, LeadTime(destination));
    AddDaysOrdinal(d, LeadTime(destination));
    BeforeIffOrdinalLess(e, d);
    BeforeIffOrdinalLess(d, e);
  }
}
