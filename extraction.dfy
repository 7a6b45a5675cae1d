/**
 * What the three extractors share. Each `extract` reads a Markdown file and asks a
 * language-model agent for a typed record; both the file read and the agent call
 * are outside the model and enter as parameters.
 */
module Extraction {
  import opened Wrappers

  /**
   * What `agent.run_sync(content)` produced: it raised (including a validation error
   * of the returned record), it returned no result, or it returned a result whose
   * `data` may be missing.
   */
  datatype AgentReply<T> = Raised | NoResult | Reply(data: Option<T>)

  /**
   * An extractor as `extract_and_format_data` sees it: either its constructor raised
   * (a missing instruction file or API key, or a defect), or it was built and its
   * `extract` returned a record or `None`.
   */
  datatype Stage<T> = ConstructionFailed | Extracted(result: Option<T>)

  /** `read_md_file` returned text that is neither `None` nor empty. */
  predicate HasText(content: Option<string>)
  {
    content.Some? && content.value != ""
  }

  /** An extractor whose constructor succeeded when `constructed` holds, then ran `extract`. */
  function Run<T>(constructed: bool, extract: Option<T>): Stage<T>
  {
    if constructed then Extracted(extract) else ConstructionFailed
  }
}
