/** Worked examples of `calculate_eta`. Each literal parse or format is a lemma
    of its own, so that each is checked in a small context. */
module EtaExamples {
  import opened Wrappers
  import opened CivilDate
  import opened DateText
  import opened Eta

  /** The value `calculate_eta` returns, from the parsed departure date `d`, the
      arrival date `e` and the text `s` that `e` formats to. */
  lemma EtaFromDates(etd: string, destination: string, d: Date, lead: nat, e: Date, s: string)
    requires Parse(etd) == Some(d) && LeadTime(destination) == lead
    requires AddDays(d, lead) == e && e.year <= MaxYear && Format(e) == s
    ensures CalculateEta(etd, destination) == Ok(s)
  {
    EtaAddsLeadTime(etd, destination);
    ParseFormat(e);
  }

  lemma Parse20240101() ensures Parse("2024-01-01") == Some(Date(2024, 1, 1)) { }
  lemma Parse20240228() ensures Parse("2024-02-28") == Some(Date(2024, 2, 28)) { }
  lemma Parse99991231() ensures Parse("9999-12-31") == Some(Date(9999, 12, 31)) { }
  lemma Format20240315() ensures Format(Date(2024, 3, 15)) == "2024-03-15" {
    assert Parse("2024-03-15") == Some(Date(2024, 3, 15));
    FormatParse("2024-03-15");
  }
  lemma Format20240108() ensures Format(Date(2024, 1, 8)) == "2024-01-08" {
    assert Parse("2024-01-08") == Some(Date(2024, 1, 8));
    FormatParse("2024-01-08");
  }
  lemma Format20240229() ensures Format(Date(2024, 2, 29)) == "2024-02-29" {
    assert Parse("2024-02-29") == Some(Date(2024, 2, 29));
    FormatParse("2024-02-29");
  }
  lemma Format20240301() ensures Format(Date(2024, 3, 1)) == "2024-03-01" {
    assert Parse("2024-03-01") == Some(Date(2024, 3, 1));
    FormatParse("2024-03-01");
  }
  lemma LeadSandakan() ensures LeadTime("Sandakan") == 14 { }
  lemma LeadKuching() ensures LeadTime("Kuching") == 7 { }
  lemma LeadMiri() ensures LeadTime("Miri") == 1 { }
  lemma LeadUnknown() ensures LeadTime("Unknown City") == 0 && "Unknown City" !in LeadTimes { }
  lemma AddSandakan() ensures AddDays(Date(2024, 3, 1), 14) == Date(2024, 3, 15) { AddDaysWithinMonth(Date(2024, 3, 1), 14); }
  lemma AddKuching() ensures AddDays(Date(2024, 1, 1), 7) == Date(2024, 1, 8) { AddDaysWithinMonth(Date(2024, 1, 1), 7); }
  lemma AddMiri() ensures AddDays(Date(2024, 2, 28), 1) == Date(2024, 2, 29) { AddDaysWithinMonth(Date(2024, 2, 28), 1); }

  /** Two weeks to Sandakan. */
  lemma EtaSandakanExample()
    ensures CalculateEta("2024-03-01", "Sandakan") == Ok("2024-03-15")
  {
    ParseAcceptsCanonical();
    LeadSandakan();
    AddSandakan();
    Format20240315();
    EtaFromDates("2024-03-01", "Sandakan", Date(2024, 3, 1), 14, Date(2024, 3, 15), "2024-03-15");
  }

  /** One week to Kuching. */
  lemma EtaKuchingExample()
    ensures CalculateEta("2024-01-01", "Kuching") == Ok("2024-01-08")
  {
    Parse20240101();
    LeadKuching();
    AddKuching();
    Format20240108();
    EtaFromDates("2024-01-01", "Kuching", Date(2024, 1, 1), 7, Date(2024, 1, 8), "2024-01-08");
  }

  /** One day to Miri reaches the leap day. */
  lemma EtaLeapDayExample()
    ensures CalculateEta("2024-02-28", "Miri") == Ok("2024-02-29")
  {
    Parse20240228();
    LeadMiri();
    AddMiri();
    Format20240229();
    EtaFromDates("2024-02-28", "Miri", Date(2024, 2, 28), 1, Date(2024, 2, 29), "2024-02-29");
  }

  /** An unknown destination only normalises an unpadded spelling. */
  lemma EtaUnknownExample()
    ensures CalculateEta("2024-3-1", "Unknown City") == Ok("2024-03-01")
  {
    ParseAcceptsUnpadded();
    LeadUnknown();
    EtaUnknownDestination("2024-3-1", "Unknown City");
    Format20240301();
  }

  /** Dates that do not exist fail to parse. */
  lemma EtaFormatErrorExamples()
    ensures CalculateEta("2023-02-30", "Miri") == Err(FormatError)
    ensures CalculateEta("2024-13-01", "Miri") == Err(FormatError)
  {
    ParseRejectsBadFields();
    ParseRejectsBadDay();
  }

  /** One day past the last representable day overflows. */
  lemma EtaOverflowExample()
    ensures CalculateEta("9999-12-31", "Miri") == Err(DateOverflow)
  {
    Parse99991231();
    LeadMiri();
    InRangeIffOrdinal(Date(9999, 12, 31));
  }
}
