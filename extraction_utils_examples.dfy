/** Worked examples of `format_date`. */
module ExtractionUtilsExamples {
  import opened Wrappers
  import opened Calendar
  import opened MedicalHistoryExtractor
  import opened ExtractionUtils

  lemma PaddedFields()
    ensures Pad2(15) == "15" && Pad2(1) == "01" && Pad2(31) == "31" && Pad2(2) == "02"
    ensures Pad4(2023) == "2023"
  {
    assert Pad2(20) == "20" && Pad2(23) == "23";
  }

  /** `15-01-2023` becomes `2023-01-15`. */
  lemma ValidDateReformatted()
    ensures FormatDate(Some("15-01-2023")) == Some("2023-01-15")
  {
    var d := Date(2023, 1, 15);
    PaddedFields();
    assert DayMonthYearText(d) == "15-01-2023";
    assert IsoText(d) == "2023-01-15";
    FormatDateOfPaddedText(d);
  }

  /** `31-02-2023` names no existing day, and gives `None` instead of an error. */
  lemma ImpossibleDateRejected()
    ensures FormatDate(Some("31-02-2023")) == None
  {
    var d := Date(2023, 2, 31);
    PaddedFields();
    assert DayMonthYearText(d) == "31-02-2023";
    assert !ValidDate(d);
    FormatDateOfPaddedText(d);
  }

  /** A `yyyy-mm-dd` text starts with a four-character field, which is no day: `None`. */
  lemma IsoDateNotParsed()
    ensures FormatDate(Some("2020-05-01")) == None
  {
    var s := "2020-05-01";
    assert s[0] == '2' && s[1] == '0' && s[2] == '2' && s[3] == '0' && s[4] == '-';
    assert IndexOf(s, '-') == 4;
    LongFirstFieldRejected(s);
  }

  /**
   * A surgery date in the `yyyy-mm-dd` form its field is documented with is stored
   * as `None`.
   */
  lemma DocumentedSurgeryDateDropped(procedure: string, details: Option<string>)
    ensures SurgeryEntryOf(Surgery(procedure, Some("2020-05-01"), details)).date == None
  {
    IsoDateNotParsed();
  }
}
