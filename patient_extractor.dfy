/**
 * The patient extractor of extractors/patient_extractor.py: the `PatientData` record,
 * the numeric patient id read from the file name, and `extract`, which asks the
 * agent for the record and then overwrites its id with the one from the file name.
 */
module PatientExtractor {
  import opened Wrappers
  import opened Text
  import opened Extraction

  /** `PatientData`: dates are `dd-mm-yyyy` text, times `HH:MM` text, as the agent returns them. */
  datatype PatientData = PatientData(
    idPatient: int,
    gender: Option<string>,
    dateOfBirth: Option<string>,
    processNumber: Option<int>,
    fullName: Option<string>,
    address: Option<string>,
    admissionDate: Option<string>,
    admissionTime: Option<string>,
    origin: Option<string>,
    dischargeDate: Option<string>,
    dischargeTime: Option<string>,
    destination: Option<string>)

  /** The record with only its required field given: every other field is `None`. */
  function NewPatientData(idPatient: int): (r: PatientData)
    ensures r.idPatient == idPatient
    ensures r.gender.None? && r.dateOfBirth.None? && r.processNumber.None? && r.fullName.None?
    ensures r.address.None? && r.admissionDate.None? && r.admissionTime.None? && r.origin.None?
    ensures r.dischargeDate.None? && r.dischargeTime.None? && r.destination.None?
  {
    PatientData(idPatient, None, None, None, None, None, None, None, None, None, None, None)
  }

  // ---------------------------------------------------------------------------
  // `extract_patient_id`: `re.search(r'(\d+)', filename)`, then `int`

  /** The number of characters before the first digit. */
  function NonDigitPrefix(s: string): (n: nat)
    ensures n <= |s|
    decreases |s|
  {
    if s != [] && !IsDigit(s[0]) then 1 + NonDigitPrefix(s[1..]) else 0
  }

  /** The length of the run of digits that starts the text. */
  function DigitPrefix(s: string): (n: nat)
    ensures n <= |s|
    decreases |s|
  {
    if s != [] && IsDigit(s[0]) then 1 + DigitPrefix(s[1..]) else 0
  }

  lemma {:induction false} NonDigitPrefixSpec(s: string)
    ensures NonDigitPrefix(s) <= |s|
    ensures forall k :: 0 <= k < NonDigitPrefix(s) ==> !IsDigit(s[k])
    ensures NonDigitPrefix(s) < |s| ==> IsDigit(s[NonDigitPrefix(s)])
    decreases |s|
  {
    if s != [] && !IsDigit(s[0]) {
      NonDigitPrefixSpec(s[1..]);
    }
  }

  lemma {:induction false} DigitPrefixSpec(s: string)
    ensures DigitPrefix(s) <= |s|
    ensures AllDigits(s[..DigitPrefix(s)])
    ensures DigitPrefix(s) < |s| ==> !IsDigit(s[DigitPrefix(s)])
    decreases |s|
  {
    if s != [] && IsDigit(s[0]) {
      DigitPrefixSpec(s[1..]);
      assert s[..DigitPrefix(s)] == [s[0]] + s[1..][..DigitPrefix(s[1..])];
    }
  }

  /**
   * `extract_patient_id`: the value of the first maximal run of digits anywhere in the
   * text, or `None` where the source raises `ValueError` (no digit at all).
   */
  function ExtractPatientId(fileName: string): Option<nat>
  {
    var i := NonDigitPrefix(fileName);
    if i >= |fileName| then None
    else
      DigitPrefixSpec(fileName[i..]);
      var run := fileName[i..][..DigitPrefix(fileName[i..])];
      Some(DecimalValue(run))
  }

  /** The first maximal digit run of `s`: it starts at `i` and ends before `j`. */
  predicate FirstDigitRun(s: string, i: int, j: int)
  {
    0 <= i < j <= |s| &&
    (forall k :: 0 <= k < i ==> !IsDigit(s[k])) &&
    (forall k :: i <= k < j ==> IsDigit(s[k])) &&
    (j == |s| || !IsDigit(s[j]))
  }

  /** There is no id exactly when the text has no digit. */
  lemma ExtractPatientIdNone(fileName: string)
    ensures ExtractPatientId(fileName).None? <==> forall k :: 0 <= k < |fileName| ==> !IsDigit(fileName[k])
  {
    NonDigitPrefixSpec(fileName);
  }

  /** The id is the decimal value of the first maximal run of digits, whichever run that is. */
  lemma ExtractPatientIdIsFirstRun(fileName: string, i: int, j: int)
    requires FirstDigitRun(fileName, i, j)
    ensures AllDigits(fileName[i..j])
    ensures ExtractPatientId(fileName) == Some(DecimalValue(fileName[i..j]))
  {
    NonDigitPrefixSpec(fileName);
    assert IsDigit(fileName[i]);
    assert NonDigitPrefix(fileName) == i;
    var t := fileName[i..];
    DigitPrefixSpec(t);
    var n := DigitPrefix(t);
    assert forall k :: 0 <= k < n ==> IsDigit(t[k]) by {
      assert forall k :: 0 <= k < n ==> t[k] == t[..n][k];
    }
    if n < |t| {
      assert t[n] == fileName[i + n];
    }
    if j - i < |t| {
      assert t[j - i] == fileName[j];
    }
    assert n == j - i;
    assert t[..n] == fileName[i..j];
  }

  /**
   * Digits earlier in the path win: when the text before a separator already holds a
   * digit, whatever follows the separator (the file name itself) has no say.
   */
  lemma EarlierDigitsWin(prefix: string, sep: char, rest: string)
    requires !IsDigit(sep)
    requires exists k :: 0 <= k < |prefix| && IsDigit(prefix[k])
    ensures ExtractPatientId(prefix + [sep] + rest) == ExtractPatientId(prefix)
  {
    var s := prefix + [sep] + rest;
    var i, j := FirstRunExists(prefix);
    ExtractPatientIdIsFirstRun(prefix, i, j);
    assert forall k :: 0 <= k < |prefix| ==> s[k] == prefix[k];
    assert s[|prefix|] == sep;
    ExtractPatientIdIsFirstRun(s, i, j);
    assert s[i..j] == prefix[i..j];
  }

  /** A text with a digit has a first maximal digit run. */
  lemma FirstRunExists(s: string) returns (i: int, j: int)
    requires exists k :: 0 <= k < |s| && IsDigit(s[k])
    ensures FirstDigitRun(s, i, j)
  {
    NonDigitPrefixSpec(s);
    i := NonDigitPrefix(s);
    var t := s[i..];
    DigitPrefixSpec(t);
    j := i + DigitPrefix(t);
    assert forall k :: i <= k < j ==> s[k] == t[..DigitPrefix(t)][k - i];
    if j < |s| {
      assert s[j] == t[j - i];
    }
  }

  // ---------------------------------------------------------------------------
  // `extract`

  /**
   * `PatientDataExtractor.extract(filename)`: the id is read from the path text first
   * (a path without digits raises, and the handler turns that into `None`); then an
   * absent or empty file, an agent that raises or returns no result, or a result
   * without data all give `None`. Otherwise the agent's record is returned with its
   * `id_patient` overwritten by the id from the path.
   */
  function Extract(fileName: string, content: Option<string>, reply: AgentReply<PatientData>): (r: Option<PatientData>)
    ensures r.Some? <==> ExtractPatientId(fileName).Some? && HasText(content) && reply.Reply? && reply.data.Some?
    ensures r.Some? ==> r.value.idPatient == ExtractPatientId(fileName).value
    ensures r.Some? ==> r.value == reply.data.value.(idPatient := r.value.idPatient)
  {
    var id := ExtractPatientId(fileName);
    if id.None? then None
    else if !HasText(content) then None
    else match reply
      case Raised => None
      case NoResult => None
      case Reply(data) =>
        if data.None? then None else Some(data.value.(idPatient := id.value))
  }

  /** The extractor as `extract_and_format_data` meets it; `setupOk` stands for its files and key. */
  function Stage(setupOk: bool, fileName: string, content: Option<string>, reply: AgentReply<PatientData>): Stage<PatientData>
  {
    Run(setupOk, Extract(fileName, content, reply))
  }
}
