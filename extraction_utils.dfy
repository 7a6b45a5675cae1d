/**
 * The assembler of extractors/extraction_utils.py: `format_date`, the MongoDB
 * document built from the three extracted records, and `extract_and_format_data`,
 * which runs the three extractors and decides whether a document is produced.
 */
module ExtractionUtils {
  import opened Wrappers
  import opened Text
  import opened Calendar
  import opened Documents
  import opened Extraction
  import opened PatientExtractor
  import opened BurnExtractor
  import opened MedicalHistoryExtractor

  // ---------------------------------------------------------------------------
  // `format_date`

  /**
   * `format_date`: `None` and the empty text give `None`; otherwise the text is read as
   * `%d-%m-%Y` and written as `%Y-%m-%d`, and a text that does not read as an existing
   * date gives `None` instead of an error.
   */
  function FormatDate(s: Option<string>): (r: Option<string>)
    ensures s.None? || s == Some("") ==> r.None?
    ensures r.Some? ==> |r.value| == 10 && r.value[4] == '-' && r.value[7] == '-'
  {
    if s.None? || s.value == "" then None
    else
      var d := ParseDayMonthYear(s.value);
      if d.None? then None
      else
        IsoTextFields(d.value);
        Some(IsoText(d.value))
  }

  /**
   * A zero-padded `dd-mm-yyyy` text becomes the `yyyy-mm-dd` text of the same date when
   * that date exists, and `None` when it does not.
   */
  lemma FormatDateOfPaddedText(d: Date)
    requires InFieldRanges(d)
    ensures FormatDate(Some(DayMonthYearText(d))) == if ValidDate(d) then Some(IsoText(d)) else None
  {
    ParsePaddedText(d);
    Pad2Reads(d.day);
  }

  // ---------------------------------------------------------------------------
  // `create_mongo_document`
  //
  // The document has a fixed shape, so it is modelled as a record whose fields are the
  // document's keys; `ToDict` gives the flat string-keyed dict the database stores.

  datatype Contact = Contact(phone: string, email: string)

  datatype Ids = Ids(patientId: string, snsNumber: string)

  /** An entry of `burn_degree`: the depth is stored by its text value. */
  datatype BurnDegreeEntry = BurnDegreeEntry(location: string, degree: string, laterality: Option<string>)

  /** An entry of `pre_hospital_fluid`. */
  datatype FluidEntry = FluidEntry(kind: string, volume: string)

  /** An entry of `interventions` or of `previous_surgeries`: the date is formatted. */
  datatype ProcedureEntry = ProcedureEntry(date: Option<string>, procedure: string, details: Option<string>)

  /** The keys the burn record adds. */
  datatype BurnSection = BurnSection(
    injuryDate: Option<string>,
    injuryTime: Option<string>,
    injuryCause: Option<string>,
    injuryLocation: seq<string>,
    burnDegree: seq<BurnDegreeEntry>,
    tbsa: Option<real>,
    inhalationInjury: bool,
    preHospitalIntubation: bool,
    preHospitalFluid: seq<FluidEntry>,
    preHospitalOther: Option<string>,
    admissionDate: Option<string>,
    admissionTime: Option<string>,
    mechanicalVentilation: bool,
    parklandFormula: Option<Document>,
    consultations: seq<string>,
    interventions: seq<ProcedureEntry>)

  /** The `medical_history` entry. */
  datatype HistorySection = HistorySection(
    diseases: seq<string>,
    medications: seq<string>,
    previousSurgeries: seq<ProcedureEntry>,
    allergies: seq<string>)

  /** The document: the base keys, the burn keys when present, the discharge keys and the history. */
  datatype MongoDocument = MongoDocument(
    id: int,
    name: Option<string>,
    gender: Option<string>,
    dob: Option<string>,
    address: Option<string>,
    contact: Contact,
    ids: Ids,
    burn: Option<BurnSection>,
    dischargeDate: Option<string>,
    dischargeTime: Option<string>,
    dischargeDestination: Option<string>,
    deathDate: Option<string>,
    causeOfDeath: Option<string>,
    autopsy: bool,
    medicalHistory: HistorySection)

  /** `ids.patient_id`: the process number as decimal text when it is set and not zero. */
  function ProcessNumberText(n: Option<int>): string
  {
    if n.Some? && n.value != 0 then IntToDecimal(n.value) else ""
  }

  function BurnDegreeEntryOf(l: BurnLocation): BurnDegreeEntry
  {
    BurnDegreeEntry(l.location, l.degree.Value(), l.laterality)
  }

  function FluidEntryOf(f: FluidAdministration): FluidEntry
  {
    FluidEntry(f.kind, f.volume)
  }

  function InterventionEntryOf(iv: Intervention): ProcedureEntry
  {
    ProcedureEntry(FormatDate(Some(iv.date)), iv.procedure, iv.details)
  }

  /** A surgery's date is formatted only when it is set and not empty. */
  function SurgeryEntryOf(s: Surgery): ProcedureEntry
  {
    ProcedureEntry(if s.date.Some? && s.date.value != "" then FormatDate(s.date) else None, s.procedure, s.details)
  }

  function BurnSectionOf(p: PatientData, b: BurnData): BurnSection
  {
    BurnSection(
      FormatDate(b.injuryDate), b.injuryTime, b.injuryCause, b.injuryLocation,
      seq(|b.burnDegree|, i requires 0 <= i < |b.burnDegree| => BurnDegreeEntryOf(b.burnDegree[i])),
      b.tbsa, b.inhalationInjury, b.preHospitalIntubation,
      seq(|b.preHospitalFluid|, i requires 0 <= i < |b.preHospitalFluid| => FluidEntryOf(b.preHospitalFluid[i])),
      b.preHospitalOther, FormatDate(p.admissionDate), p.admissionTime, b.mechanicalVentilation,
      b.parklandFormula, b.consultations,
      seq(|b.interventions|, i requires 0 <= i < |b.interventions| => InterventionEntryOf(b.interventions[i])))
  }

  /** The history section: an absent history reads as four empty lists. */
  function HistorySectionOf(h: Option<MedicalHistory>): HistorySection
  {
    var m := if h.Some? then h.value else EmptyHistory();
    HistorySection(
      m.diseases, m.medications,
      seq(|m.previousSurgeries|, i requires 0 <= i < |m.previousSurgeries| => SurgeryEntryOf(m.previousSurgeries[i])),
      m.allergies)
  }

  /**
   * `create_mongo_document`: the base fields from the patient record, the burn fields
   * when there is a burn record, the discharge fields and the medical history.
   */
  function CreateMongoDocument(p: PatientData, burn: Option<BurnData>, history: Option<MedicalHistory>): (doc: MongoDocument)
    ensures doc.id == p.idPatient
    ensures doc.contact == Contact("", "") && doc.ids.snsNumber == ""
    ensures doc.ids.patientId == "" <==> p.processNumber.None? || p.processNumber.value == 0
    ensures p.processNumber.Some? && p.processNumber.value > 0 ==>
              AllDigits(doc.ids.patientId) && DecimalValue(doc.ids.patientId) == p.processNumber.value
    ensures doc.name == p.fullName && doc.gender == p.gender && doc.address == p.address
    ensures doc.dob == FormatDate(p.dateOfBirth)
    ensures doc.burn.Some? <==> burn.Some?
    ensures burn.Some? ==>
              var s, b := doc.burn.value, burn.value;
              s.injuryDate == FormatDate(b.injuryDate) && s.injuryTime == b.injuryTime &&
              s.injuryCause == b.injuryCause && s.injuryLocation == b.injuryLocation &&
              s.tbsa == b.tbsa && s.inhalationInjury == b.inhalationInjury &&
              s.preHospitalIntubation == b.preHospitalIntubation &&
              s.preHospitalOther == b.preHospitalOther &&
              s.admissionDate == FormatDate(p.admissionDate) && s.admissionTime == p.admissionTime &&
              s.mechanicalVentilation == b.mechanicalVentilation &&
              s.parklandFormula == b.parklandFormula && s.consultations == b.consultations
    ensures doc.dischargeDate == FormatDate(p.dischargeDate) && doc.dischargeTime == p.dischargeTime
    ensures doc.dischargeDestination == p.destination
    ensures doc.deathDate.None? && doc.causeOfDeath.None? && !doc.autopsy
  {
    var r := MongoDocument(
      p.idPatient, p.fullName, p.gender, FormatDate(p.dateOfBirth), p.address,
      Contact("", ""), Ids(ProcessNumberText(p.processNumber), ""),
      if burn.Some? then Some(BurnSectionOf(p, burn.value)) else None,
      FormatDate(p.dischargeDate), p.dischargeTime, p.destination, None, None, false,
      HistorySectionOf(history));
    assert p.processNumber.Some? && p.processNumber.value != 0 ==> |r.ids.patientId| > 0;
    r
  }

  /**
   * Each burn location becomes one entry, in order, holding its location, the value of
   * its depth (which reads back to the same depth) and its laterality; whether it is
   * circumferential is not carried over. Fluids and interventions keep their number
   * and order too; an intervention keeps its procedure and details, and its date is
   * formatted.
   */
  lemma BurnSectionEntries(p: PatientData, b: BurnData, history: Option<MedicalHistory>)
    ensures var s := CreateMongoDocument(p, Some(b), history).burn.value;
            |s.burnDegree| == |b.burnDegree| &&
            (forall i :: 0 <= i < |b.burnDegree| ==>
               s.burnDegree[i].location == b.burnDegree[i].location &&
               s.burnDegree[i].laterality == b.burnDegree[i].laterality &&
               ParseBurnDepth(s.burnDegree[i].degree) == Some(b.burnDegree[i].degree)) &&
            |s.preHospitalFluid| == |b.preHospitalFluid| &&
            (forall i :: 0 <= i < |b.preHospitalFluid| ==>
               s.preHospitalFluid[i] == FluidEntry(b.preHospitalFluid[i].kind, b.preHospitalFluid[i].volume)) &&
            |s.interventions| == |b.interventions| &&
            (forall i :: 0 <= i < |b.interventions| ==>
               s.interventions[i].procedure == b.interventions[i].procedure &&
               s.interventions[i].date == FormatDate(Some(b.interventions[i].date)) &&
               s.interventions[i].details == b.interventions[i].details)
  {
    var s := CreateMongoDocument(p, Some(b), history).burn.value;
    forall i | 0 <= i < |b.burnDegree|
      ensures ParseBurnDepth(s.burnDegree[i].degree) == Some(b.burnDegree[i].degree)
    {
      BurnDepthRoundTrip(b.burnDegree[i].degree);
    }
  }

  /**
   * The medical history is always present: four empty lists without a history record,
   * and otherwise its lists, with every surgery in order, keeping its procedure and
   * details, and a surgery without a date given no date.
   */
  lemma HistorySectionEntries(p: PatientData, burn: Option<BurnData>, history: Option<MedicalHistory>)
    ensures var m := CreateMongoDocument(p, burn, history).medicalHistory;
            (history.None? ==> m == HistorySection([], [], [], [])) &&
            (history.Some? ==>
               m.diseases == history.value.diseases && m.medications == history.value.medications &&
               m.allergies == history.value.allergies &&
               |m.previousSurgeries| == |history.value.previousSurgeries| &&
               forall i :: 0 <= i < |m.previousSurgeries| ==>
                 m.previousSurgeries[i].procedure == history.value.previousSurgeries[i].procedure &&
                 m.previousSurgeries[i].date == FormatDate(history.value.previousSurgeries[i].date) &&
                 m.previousSurgeries[i].details == history.value.previousSurgeries[i].details)
  {
    var m := CreateMongoDocument(p, burn, history).medicalHistory;
    if history.None? {
      assert m.previousSurgeries == [];
    } else {
      var h := history.value;
      forall i | 0 <= i < |m.previousSurgeries|
        ensures m.previousSurgeries[i] == SurgeryEntryOf(h.previousSurgeries[i])
      {
      }
    }
  }

  /** A date of birth in zero-padded `dd-mm-yyyy` form is stored as the `yyyy-mm-dd` text of the same date. */
  lemma BirthDateStoredAsIso(p: PatientData, burn: Option<BurnData>, history: Option<MedicalHistory>, d: Date)
    requires ValidDate(d) && p.dateOfBirth == Some(DayMonthYearText(d))
    ensures CreateMongoDocument(p, burn, history).dob == Some(IsoText(d))
  {
    FormatDateOfPaddedText(d);
  }

  // ---------------------------------------------------------------------------
  // The stored dict

  function ContactValue(c: Contact): Value
  {
    Object(map["phone" := Str(c.phone), "email" := Str(c.email)])
  }

  function IdsValue(ids: Ids): Value
  {
    Object(map["patient_id" := Str(ids.patientId), "sns_number" := Str(ids.snsNumber)])
  }

  function ProcedureValue(e: ProcedureEntry): Value
  {
    Object(map["date" := OptionalStr(e.date), "procedure" := Str(e.procedure), "details" := OptionalStr(e.details)])
  }

  function BurnDegreeValue(e: BurnDegreeEntry): Value
  {
    Object(map["location" := Str(e.location), "degree" := Str(e.degree), "laterality" := OptionalStr(e.laterality)])
  }

  function FluidValue(e: FluidEntry): Value
  {
    Object(map["type" := Str(e.kind), "volume" := Str(e.volume)])
  }

  function BaseDict(doc: MongoDocument): Document
  {
    map[
      "_id" := Int(doc.id),
      "name" := OptionalStr(doc.name),
      "gender" := OptionalStr(doc.gender),
      "dob" := OptionalStr(doc.dob),
      "address" := OptionalStr(doc.address),
      "contact" := ContactValue(doc.contact),
      "ids" := IdsValue(doc.ids)]
  }

  function BurnDict(s: BurnSection): Document
  {
    map[
      "injury_date" := OptionalStr(s.injuryDate),
      "injury_time" := OptionalStr(s.injuryTime),
      "injury_cause" := OptionalStr(s.injuryCause),
      "injury_location" := StrList(s.injuryLocation),
      "burn_degree" := ListOf(s.burnDegree, BurnDegreeValue),
      "tbsa" := OptionalFloat(s.tbsa),
      "inhalation_injury" := Bool(s.inhalationInjury),
      "pre_hospital_intubation" := Bool(s.preHospitalIntubation),
      "pre_hospital_fluid" := ListOf(s.preHospitalFluid, FluidValue),
      "pre_hospital_other" := OptionalStr(s.preHospitalOther),
      "admission_date" := OptionalStr(s.admissionDate),
      "admission_time" := OptionalStr(s.admissionTime),
      "mechanical_ventilation" := Bool(s.mechanicalVentilation),
      "parkland_formula" := OptionalObject(s.parklandFormula),
      "consultations" := StrList(s.consultations),
      "interventions" := ListOf(s.interventions, ProcedureValue)]
  }

  function DischargeDict(doc: MongoDocument): Document
  {
    map[
      "discharge_date" := OptionalStr(doc.dischargeDate),
      "discharge_time" := OptionalStr(doc.dischargeTime),
      "discharge_destination" := OptionalStr(doc.dischargeDestination),
      "death_date" := OptionalStr(doc.deathDate),
      "cause_of_death" := OptionalStr(doc.causeOfDeath),
      "autopsy" := Bool(doc.autopsy)]
  }

  function HistoryValue(m: HistorySection): Value
  {
    Object(map[
      "diseases" := StrList(m.diseases),
      "medications" := StrList(m.medications),
      "previous_surgeries" := ListOf(m.previousSurgeries, ProcedureValue),
      "allergies" := StrList(m.allergies)])
  }

  /** The dict of the document, built by the same successive updates as the source. */
  function ToDict(doc: MongoDocument): Document
  {
    var d := BaseDict(doc);
    var d := if doc.burn.Some? then d + BurnDict(doc.burn.value) else d;
    var d := d + DischargeDict(doc);
    d + map["medical_history" := HistoryValue(doc.medicalHistory)]
  }

  /** The keys of the base fields. */
  const BaseKeys: set<string> := {"_id", "name", "gender", "dob", "address", "contact", "ids"}

  /** The keys the burn record adds. */
  const BurnKeys: set<string> := {
    "injury_date", "injury_time", "injury_cause", "injury_location", "burn_degree", "tbsa",
    "inhalation_injury", "pre_hospital_intubation", "pre_hospital_fluid", "pre_hospital_other",
    "admission_date", "admission_time", "mechanical_ventilation", "parkland_formula",
    "consultations", "interventions"}

  /** The discharge keys. */
  const DischargeKeys: set<string> := {
    "discharge_date", "discharge_time", "discharge_destination", "death_date", "cause_of_death", "autopsy"}

  lemma BaseDictKeys(doc: MongoDocument)
    ensures BaseDict(doc).Keys == BaseKeys
  {
  }

  lemma BurnDictKeys(s: BurnSection)
    ensures BurnDict(s).Keys == BurnKeys
  {
  }

  lemma DischargeDictKeys(doc: MongoDocument)
    ensures DischargeDict(doc).Keys == DischargeKeys
  {
  }

  /** Without a burn record the stored keys are the base keys, the discharge keys and the history. */
  lemma ToDictKeysWithoutBurn(doc: MongoDocument)
    requires doc.burn.None?
    ensures ToDict(doc).Keys == BaseKeys + DischargeKeys + {"medical_history"}
  {
    BaseDictKeys(doc);
    DischargeDictKeys(doc);
  }

  /** With a burn record the sixteen burn keys are stored as well. */
  lemma ToDictKeysWithBurn(doc: MongoDocument)
    requires doc.burn.Some?
    ensures ToDict(doc).Keys == BaseKeys + BurnKeys + DischargeKeys + {"medical_history"}
  {
    BaseDictKeys(doc);
    DischargeDictKeys(doc);
    BurnDictKeys(doc.burn.value);
  }

  lemma IdKeyOnlyInBase()
    ensures "_id" !in BurnKeys && "_id" !in DischargeKeys && "_id" != "medical_history"
  {
  }

  /** The stored `_id` is the patient id, and no later update overwrites it. */
  lemma ToDictId(doc: MongoDocument)
    ensures "_id" in ToDict(doc) && ToDict(doc)["_id"] == Int(doc.id)
  {
    IdKeyOnlyInBase();
    DischargeDictKeys(doc);
    if doc.burn.Some? {
      BurnDictKeys(doc.burn.value);
    }
    assert BaseDict(doc)["_id"] == Int(doc.id);
  }

  // ---------------------------------------------------------------------------
  // `extract_and_format_data`

  /**
   * `extract_and_format_data`, given what each extractor's construction and `extract`
   * produced: a failed construction (which raises inside the `try`) or a missing
   * patient or burn record gives `None`; a missing medical history still gives a
   * document.
   */
  function ExtractAndFormatData(patient: Stage<PatientData>, burn: Stage<BurnData>, history: Stage<MedicalHistory>): (r: Option<MongoDocument>)
    ensures r.Some? <==> patient.Extracted? && patient.result.Some? && burn.Extracted? && burn.result.Some? && history.Extracted?
    ensures r.Some? ==> r.value == CreateMongoDocument(patient.result.value, burn.result, history.result)
  {
    match patient
    case ConstructionFailed => None
    case Extracted(p) =>
      if p.None? then None
      else match burn
        case ConstructionFailed => None
        case Extracted(b) =>
          if b.None? then None
          else match history
            case ConstructionFailed => None
            case Extracted(h) => Some(CreateMongoDocument(p.value, b, h))
  }

  /** `extract_and_format_data` as written: the burn extractor is the one whose constructor always raises. */
  function ExtractAndFormatDataAsWritten(
    patient: Stage<PatientData>,
    burnSetupOk: bool, burnContent: Option<string>, burnReply: AgentReply<BurnData>,
    history: Stage<MedicalHistory>): Option<MongoDocument>
  {
    ExtractAndFormatData(patient, StageAsWritten(burnSetupOk, burnContent, burnReply), history)
  }

  /** As written, no input whatever produces a document. */
  lemma AsWrittenNeverProducesDocument(
    patient: Stage<PatientData>,
    burnSetupOk: bool, burnContent: Option<string>, burnReply: AgentReply<BurnData>,
    history: Stage<MedicalHistory>)
    ensures ExtractAndFormatDataAsWritten(patient, burnSetupOk, burnContent, burnReply, history).None?
  {
    assert StageAsWritten(burnSetupOk, burnContent, burnReply) == ConstructionFailed;
  }

  /**
   * With the burn extractor repaired, a document is produced exactly when the patient
   * and burn extractions succeed and the history extractor is built; its `_id` is the
   * number in the patient file's path.
   */
  lemma DocumentFromRepairedPipeline(
    fileName: string,
    patientContent: Option<string>, patientReply: AgentReply<PatientData>,
    burnContent: Option<string>, burnReply: AgentReply<BurnData>,
    historySetupOk: bool, historyContent: Option<string>, historyReply: AgentReply<MedicalHistory>)
    ensures var r := ExtractAndFormatData(
              PatientExtractor.Stage(true, fileName, patientContent, patientReply),
              BurnExtractor.Stage(true, burnContent, burnReply),
              MedicalHistoryExtractor.Stage(historySetupOk, historyContent, historyReply));
            (r.Some? <==> PatientExtractor.Extract(fileName, patientContent, patientReply).Some? &&
                          BurnExtractor.Extract(burnContent, burnReply).Some? && historySetupOk) &&
            (r.Some? ==> r.value.id == ExtractPatientId(fileName).value)
  {
  }
}
