/**
 * The burn extractor of extractors/burn_extractor.py: the burn records the agent
 * fills in, and `extract`. The rules for merging burn locations (highest depth per
 * location, bilateral limbs split in two, circumferential limbs) are instructions to
 * the agent, not code, and the record is returned as the agent gives it.
 */
module BurnExtractor {
  import opened Wrappers
  import opened Extraction
  import Documents

  /** `BurnDepth`: the five burn depths, from first to fourth degree, with their text values. */
  datatype BurnDepth = FirstDegree | SecondDegreeSuperficial | SecondDegreeDeep | ThirdDegree | FourthDegree
  {
    function Value(): string
    {
      match this
      case FirstDegree => "1st degree"
      case SecondDegreeSuperficial => "2nd degree superficial"
      case SecondDegreeDeep => "2nd degree deep"
      case ThirdDegree => "3rd degree"
      case FourthDegree => "4th degree"
    }
  }

  /** Reading a depth by its value, as the record validation does: the value names exactly one depth. */
  function ParseBurnDepth(s: string): (r: Option<BurnDepth>)
    ensures r.Some? ==> r.value.Value() == s
    ensures r.None? ==> forall d: BurnDepth :: d.Value() != s
  {
    if s == "1st degree" then Some(FirstDegree)
    else if s == "2nd degree superficial" then Some(SecondDegreeSuperficial)
    else if s == "2nd degree deep" then Some(SecondDegreeDeep)
    else if s == "3rd degree" then Some(ThirdDegree)
    else if s == "4th degree" then Some(FourthDegree)
    else None
  }

  /** Every depth reads back from its value, so no two depths share one. */
  lemma BurnDepthRoundTrip(d: BurnDepth)
    ensures ParseBurnDepth(d.Value()) == Some(d)
  {
    match d
    case FirstDegree =>
    case SecondDegreeSuperficial =>
      assert d.Value() != "1st degree" by { assert d.Value()[0] != "1st degree"[0]; }
    case SecondDegreeDeep =>
      assert d.Value() != "1st degree" by { assert d.Value()[0] != "1st degree"[0]; }
      assert |d.Value()| != |"2nd degree superficial"|;
    case ThirdDegree =>
      assert d.Value()[0] == '3';
    case FourthDegree =>
      assert d.Value()[0] == '4';
  }

  /** `BurnLocation`: location and depth are required; laterality and circumferential are optional. */
  datatype BurnLocation = BurnLocation(
    location: string,
    degree: BurnDepth,
    laterality: Option<string>,
    isCircumferential: Option<bool>)

  /** `FluidAdministration` (the source calls the first field `type`). */
  datatype FluidAdministration = FluidAdministration(kind: string, volume: string)

  /** `Intervention`: the date is `dd-mm-yyyy` text. */
  datatype Intervention = Intervention(date: string, procedure: string, details: Option<string>)

  /**
   * `BurnData`. `tbsa` (a float) and `parkland_formula` (a dict) are carried as they
   * come; nothing computes with them.
   */
  datatype BurnData = BurnData(
    injuryDate: Option<string>,
    injuryTime: Option<string>,
    injuryCause: Option<string>,
    injuryLocation: seq<string>,
    burnDegree: seq<BurnLocation>,
    tbsa: Option<real>,
    inhalationInjury: bool,
    preHospitalIntubation: bool,
    preHospitalFluid: seq<FluidAdministration>,
    preHospitalOther: Option<string>,
    mechanicalVentilation: bool,
    parklandFormula: Option<Documents.Document>,
    consultations: seq<string>,
    interventions: seq<Intervention>)

  /** `BurnData()` with every field left at its default. */
  function DefaultBurnData(): (r: BurnData)
    ensures r.injuryLocation == [] && r.burnDegree == [] && r.preHospitalFluid == []
    ensures r.consultations == [] && r.interventions == []
    ensures !r.inhalationInjury && !r.preHospitalIntubation && !r.mechanicalVentilation
    ensures r.injuryDate.None? && r.injuryTime.None? && r.injuryCause.None? && r.tbsa.None?
    ensures r.preHospitalOther.None? && r.parklandFormula.None?
  {
    BurnData(None, None, None, [], [], None, false, false, [], None, false, None, [], [])
  }

  /**
   * `BurnDataExtractor.extract(filename)`: `None` for an absent or empty file, an agent
   * that raises, no result or no data; otherwise the agent's record, unchanged.
   */
  function Extract(content: Option<string>, reply: AgentReply<BurnData>): (r: Option<BurnData>)
    ensures r.Some? <==> HasText(content) && reply.Reply? && reply.data.Some?
    ensures r.Some? ==> r == reply.data
  {
    if !HasText(content) then None
    else match reply
      case Raised => None
      case NoResult => None
      case Reply(data) => if data.None? then None else Some(data.value)
  }

  /**
   * Whether `BurnDataExtractor(project_root)` returns, as written: never. It passes two
   * arguments to the base constructor, which takes one, so it raises `TypeError` before
   * anything else; past that, it would read `self.model`, which it never assigns.
   * `setupOk` stands for the instruction files and API keys being present.
   */
  predicate ConstructsAsWritten(setupOk: bool)
  {
    false
  }

  /** The burn extractor as `extract_and_format_data` meets it, as written. */
  function StageAsWritten(setupOk: bool, content: Option<string>, reply: AgentReply<BurnData>): Stage<BurnData>
  {
    Run(ConstructsAsWritten(setupOk), Extract(content, reply))
  }

  /** The burn extractor with its constructor repaired: it fails only on missing files or keys. */
  function Stage(setupOk: bool, content: Option<string>, reply: AgentReply<BurnData>): Stage<BurnData>
  {
    Run(setupOk, Extract(content, reply))
  }
}
