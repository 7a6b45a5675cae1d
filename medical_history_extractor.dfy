/**
 * The medical history extractor of extractors/medical_history_extractor.py: the
 * history records and `extract`.
 */
module MedicalHistoryExtractor {
  import opened Wrappers
  import opened Extraction

  /** `Surgery`: the procedure is required; its date (`yyyy-mm-dd` when known) and details are optional. */
  datatype Surgery = Surgery(procedure: string, date: Option<string>, details: Option<string>)

  /** `Surgery(procedure=...)` with the optional fields left at their defaults. */
  function NewSurgery(procedure: string): (r: Surgery)
    ensures r.procedure == procedure && r.date.None? && r.details.None?
  {
    Surgery(procedure, None, None)
  }

  /** `MedicalHistory`: conditions, medications, surgeries and allergies from before the burn. */
  datatype MedicalHistory = MedicalHistory(
    diseases: seq<string>,
    medications: seq<string>,
    previousSurgeries: seq<Surgery>,
    allergies: seq<string>)

  /** `MedicalHistory()`: all four lists empty. */
  function EmptyHistory(): (r: MedicalHistory)
    ensures r.diseases == [] && r.medications == [] && r.previousSurgeries == [] && r.allergies == []
  {
    MedicalHistory([], [], [], [])
  }

  /**
   * `MedicalHistoryExtractor.extract(filename)`: `None` for an absent or empty file, an
   * agent that raises, no result or no data; otherwise the agent's record, unchanged.
   */
  function Extract(content: Option<string>, reply: AgentReply<MedicalHistory>): (r: Option<MedicalHistory>)
    ensures r.Some? <==> HasText(content) && reply.Reply? && reply.data.Some?
    ensures r.Some? ==> r == reply.data
  {
    if !HasText(content) || reply.Raised? || reply.NoResult? then None
    else reply.data
  }

  /** The extractor as `extract_and_format_data` meets it; `setupOk` stands for its files and keys. */
  function Stage(setupOk: bool, content: Option<string>, reply: AgentReply<MedicalHistory>): Stage<MedicalHistory>
  {
    Run(setupOk, Extract(content, reply))
  }
}
