# Burn-unit clinical document pipeline — a verified model of its deterministic core

The system turns the PDF reports of a burn unit into one MongoDB document per patient.
Each report arrives as one Markdown file per document type: admission note `E`,
discharge note `A`, death notice `BIC` and death certificate `O`. The pipeline has
these deterministic stages, and this project models each one in Dafny:

- **Line normaliser** (`data/md-final-clean.py`, module `Cleaner`): trims every line
  and drops boilerplate (the footer and header patterns, lines made only of dashes
  or underscores, empty lines). It drops lines already seen and demotes `## X`
  headers to `X`. The loop keeping a list and a set is a method (`CleanContent`).
  That method is proved equal to a left fold (`Clean`). The properties are proved
  about the fold:
  - the output is an order-preserving image of the input;
  - filtered lines never survive;
  - the first occurrence wins.

  The seen set holds the demoted text, but the check uses the raw trimmed line. The
  model keeps this asymmetry and its consequences (see Findings). The corrected
  normaliser `CleanDeduped` makes the boilerplate, emptiness and duplicate checks
  again on the demoted text, and is proved idempotent. The file written for a
  document reads back, line by line, as the cleaned lines.
- **Section merger** (`data/md-merge-files.py`, module `Merger`):
  - the patient id is the digits of a file name, and the type code is the letters
    before the first dot;
  - files are grouped into an id → code → file table, and a later file overwrites an
    earlier one with the same id and code;
  - the groups are concatenated in the fixed order E, A, BIC, O, one `>> name <<` …
    `>> END name <<` section per present code, into `<id>.md`.

  Grouping, merging and the per-patient loop are methods with loop invariants,
  proved against functions.
- **Extractors** (`extractors/patient_extractor.py`, `burn_extractor.py`,
  `medical_history_extractor.py`):
  - the records they return, as datatypes with their declared defaults;
  - the patient id read from the first run of digits in the file path;
  - `extract`'s rule: `None` on missing content, on no result or no data, and on any
    exception, and otherwise the agent's record (for patients, with the path's id
    written over `id_patient`).

  The language-model agent is not modelled: what it returns is a parameter
  (`Extraction.AgentReply`). Whether an extractor could be constructed is a
  parameter too (`Extraction.Stage`).
- **Assembler** (`extractors/extraction_utils.py`, module `ExtractionUtils`):
  - `format_date` (`dd-mm-yyyy` → `yyyy-mm-dd`, `None` for empty or impossible
    dates), on top of a model of `strptime`/`strftime` and the proleptic Gregorian
    calendar (module `Calendar`);
  - `create_mongo_document`, as a record with one field per document key, plus
    `ToDict`, the flat dict that is stored;
  - `extract_and_format_data`'s decision over the three extractor outcomes.
- **Read-side mapper** (`backend/app/schemas/patient.py`, module `PatientSchema`):
  renames `_id` to `id_patient` and copies every other key.

Support modules:

- `Wrappers`: `Option`.
- `Text`: Python's `strip`, `isdigit`, `isalpha`, `filter`, `''.join`, `str(int)` and `int(str)`.
- `Documents`: the JSON-like values stored in MongoDB.

Where the prose design of the system and the code disagree, the model follows the code:

- A failed burn extraction aborts `extract_and_format_data` (`extractors/extraction_utils.py:122-124`).
  It does not yield a default record.
- No post-processing of burn locations happens in code. Collapsing to the deepest
  burn, bilateral expansion and the circumferential rule exist only as instructions
  to the language model. `BurnExtractor.Extract` returns the agent's record unchanged.
- `strptime('%d-%m-%Y')` also accepts one-digit days and months, and space-padded days.
  `Calendar.ParseDayMonthYear` accepts exactly the tokens CPython's `%d` and `%m`
  patterns accept.
- The merger does not normalise a section before wrapping it: `read_file_content`
  only drops whitespace-only lines (`data/md-merge-files.py:15-19`,
  `Merger.BlankLinesVanish`). The normaliser is a separate script that runs
  afterwards over the merged files (`data/md-final-clean.py:88-95`).
- A patient is not skipped when none of their files has one of the codes E, A, BIC
  and O: the patient still gets a merged `<id>.md`, and it is empty
  (`Merger.MergedContentEmpty` with `Merger.MergePatientFiles`).
- The normaliser is meant to be idempotent, but as written it is not
  (`CleanerExamples.CleanNotIdempotent`, see Findings).
- A surgery date is documented as `yyyy-mm-dd` (`extractors/medical_history_extractor.py:14`),
  while `format_date` parses `dd-mm-yyyy`. A date given in the documented form is
  stored as `None` (`ExtractionUtilsExamples.DocumentedSurgeryDateDropped`).

## Model

| member | source | states |
|---|---|---|
| Text.TrimLeftSpec | data/md-final-clean.py:46 | `lstrip` removes exactly a leading run of whitespace and stops at a non-space |
| Text.TrimRightSpec | data/md-final-clean.py:46 | `rstrip` removes exactly a trailing run of whitespace and stops at a non-space |
| Text.StripIsSlice | data/md-final-clean.py:46 | `strip` returns a contiguous slice, removes only whitespace, and neither starts nor ends with whitespace |
| Text.StripEmptyIffBlank | data/md-final-clean.py:46-54 | a stripped line is empty exactly when the line is all whitespace |
| Text.StripIdempotent | data/md-final-clean.py:62 | stripping again after `strip` changes nothing |
| Text.StripNoop | data/md-final-clean.py:46 | a text without whitespace at either end is unchanged by `strip` |
| Text.StripAddsNothing | data/md-final-clean.py:46 | `strip` adds no character the line lacks |
| Text.StripDropsFinalNewline | data/md-final-clean.py:46 | a line as `readlines` gives it, with a newline at most at its end, strips to a line without newline |
| Text.Filter | data/md-merge-files.py:8 | `filter` keeps exactly the elements satisfying the test and is no longer than its input |
| Text.FilterAppend | data/md-merge-files.py:8 | filtering a concatenation filters each part, keeping input order |
| Text.FilterKeepsAll | data/md-merge-files.py:8 | a sequence whose elements all pass is unchanged |
| Text.FilterKeepsNone | data/md-merge-files.py:19 | a sequence none of whose elements passes filters to nothing |
| Text.ConcatAppend | data/md-merge-files.py:47 | `''.join` of one more piece appends that piece |
| Text.DigitChar | extractors/extraction_utils.py:34 | the character for a digit value is a digit that reads back to that value |
| Text.NatToDecimal | extractors/extraction_utils.py:34 | `str(n)` is non-empty ASCII digits without a leading zero unless n is 0 |
| Text.DecimalRoundTrip | extractors/extraction_utils.py:34 | `int(str(n)) == n` |
| Text.IntToDecimal | extractors/extraction_utils.py:34 | `str(n)` for any int: digits reading back to n, or `-` followed by digits reading back to -n |
| Text.LeadingZeroVanishes | extractors/patient_extractor.py:92 | `int` ignores leading zeros |
| Cleaner.ShouldRemoveLineCases | data/md-final-clean.py:11-37 | a line is boilerplate exactly when its stripped text is only `-`/`_` (the empty text included) or contains one of the literal patterns; the `^\s*$` pattern adds nothing |
| Cleaner.MissingInitialBlocks | data/md-final-clean.py:37 | a line lacking a pattern's first character does not contain that pattern |
| Cleaner.OrdinaryLine | data/md-final-clean.py:11-37 | a non-empty line without edge whitespace and without any pattern's first character survives `strip` and is not boilerplate |
| Cleaner.RemoveHashPairsSpec | data/md-final-clean.py:62 | `replace('##', '')` never lengthens the text, leaves no `##` and keeps a first character other than `#` |
| Cleaner.NoHashUnchanged | data/md-final-clean.py:62 | text without `#` is unchanged by the replacement |
| Cleaner.DemoteIdempotent | data/md-final-clean.py:61-62 | a demoted line never starts with `##`, so demoting twice is demoting once |
| Cleaner.FoldAppend | data/md-final-clean.py:44-66 | processing one more line is one more loop step on the state reached so far |
| Cleaner.CleanContent | data/md-final-clean.py:39-68 | the loop with its local list and set returns `Clean(lines)`, which depends on nothing but `lines` |
| Cleaner.SeenIsKept | data/md-final-clean.py:41-66 | after any prefix the seen set is exactly the set of emitted lines |
| Cleaner.KeptAtPrefix | data/md-final-clean.py:44-66 | whether line i is kept depends only on the lines before it |
| Cleaner.OriginsIncrease | data/md-final-clean.py:44-66 | the source indices of the emitted lines are strictly increasing, one per output line, never more than the input |
| Cleaner.OriginsAreKeptLines | data/md-final-clean.py:44-66 | an input line is the source of an output line exactly when it passes all three filters at its turn |
| Cleaner.OutputIsImageOfOrigins | data/md-final-clean.py:44-66 | output line j is the demoted stripped text of its source line |
| Cleaner.CleanIsOrderedImage | data/md-final-clean.py:44-66 | the output is no longer than the input, each line is its source line stripped and demoted, in input order, and no source line is boilerplate or empty |
| Cleaner.SeenGrows | data/md-final-clean.py:66 | a text once seen stays seen |
| Cleaner.KeptTextBlocksLater | data/md-final-clean.py:57-66 | a later line equal to the emitted (demoted) text of a kept line is dropped, so `## X` then `X` keeps `X` once |
| Cleaner.PlainDuplicateDropped | data/md-final-clean.py:57-66 | a repeated line that is not a `##` header is dropped: identical plain lines appear once |
| Cleaner.FoldDeduped | data/md-final-clean.py:57-66 | corrected loop: the seen set is the set of emitted lines, no line is emitted twice and no empty line is emitted |
| Cleaner.CleanDeduped | data/md-final-clean.py:57-66 | corrected normaliser: pairwise distinct output lines, none empty |
| Cleaner.DedupedAgreesOnPlainText | data/md-final-clean.py:57-66 | without `##` lines the correction gives exactly the original output |
| Cleaner.FoldDedupedSettled | data/md-final-clean.py:44-66 | every line the corrected loop emits is stripped, non-empty, not boilerplate and not a `##` header |
| Cleaner.FoldDedupedAppendSettled | data/md-final-clean.py:44-66 | a settled line not yet emitted passes the corrected loop unchanged |
| Cleaner.FoldDedupedKeepsSettled | data/md-final-clean.py:44-66 | pairwise distinct settled lines pass the corrected loop unchanged |
| Cleaner.CleanDedupedIdempotent | data/md-final-clean.py:39-68 | corrected normaliser: normalising normalised output changes nothing |
| Cleaner.SplitLines | data/md-final-clean.py:84 | cutting a text at newlines gives at least one piece |
| Cleaner.SplitPushChar | data/md-final-clean.py:84 | a character other than a newline extends the last piece |
| Cleaner.SplitAppendLine | data/md-final-clean.py:84 | cutting `text + "\n" + line` gives the pieces of `text` and then `line` |
| Cleaner.SplitSingleLine | data/md-final-clean.py:84 | a line without newline is one piece |
| Cleaner.JoinThenSplit | data/md-final-clean.py:84 | the written `'\n'.join` of newline-free lines splits back into the same lines |
| Cleaner.RemoveHashPairsAddsNothing | data/md-final-clean.py:62 | `replace('##', '')` adds no character the text lacks |
| Cleaner.DemoteAddsNothing | data/md-final-clean.py:61-62 | demoting a stripped line adds no character it lacks |
| Cleaner.FoldAddsNothing | data/md-final-clean.py:44-66 | a character absent from every stripped input line is absent from every output line |
| Cleaner.CleanedFileReadBack | data/md-final-clean.py:78-84 | the written file of `readlines` lines splits back at newlines into exactly the cleaned lines, and an empty result reads back as one empty line |
| CleanerExamples.StepOnAdmitted | data/md-final-clean.py:60-66 | an admitted line appends its demoted text to both the output and the seen set |
| CleanerExamples.StepOnRejected | data/md-final-clean.py:48-58 | a rejected line changes nothing |
| CleanerExamples.OrdinaryAdmitted | data/md-final-clean.py:44-58 | an ordinary unseen line is admitted as it is |
| CleanerExamples.HeaderThenPlainKeptOnce | data/md-final-clean.py:57-66 | `## X` followed by `X` yields `[X]` |
| CleanerExamples.TelLineRemoved | data/md-final-clean.py:16 | a `Tel. :` line is dropped |
| CleanerExamples.QueimaduraStep | data/md-final-clean.py:44-66 | an ordinary line is kept when unseen and dropped when seen |
| CleanerExamples.FooterAndDuplicateExample | data/md-final-clean.py:39-68 | a footer line and a repeated line give one output line |
| CleanerExamples.AltaHeader | data/md-final-clean.py:61-62 | `## Alta` is admitted and demotes to `Alta` |
| CleanerExamples.AltaStep | data/md-final-clean.py:57-66 | an unseen `## Alta` emits `Alta` and records `Alta`, not `## Alta` |
| CleanerExamples.RepeatedHeaderSurvives | data/md-final-clean.py:57-66 | as written, `## Alta` twice yields `Alta` twice |
| CleanerExamples.BareHeaderDemotesToEmpty | data/md-final-clean.py:61-62 | `##` demotes to the empty text |
| CleanerExamples.BareHeaderYieldsEmptyLine | data/md-final-clean.py:53-66 | as written, a bare `##` line yields one empty output line |
| CleanerExamples.RepeatedHeaderKeptOnce | data/md-final-clean.py:57-66 | corrected, `## Alta` twice yields `Alta` once |
| CleanerExamples.BareHeaderDropped | data/md-final-clean.py:53-66 | corrected, a bare `##` line yields nothing |
| CleanerExamples.EmptyLineDropped | data/md-final-clean.py:48-54 | an empty line yields nothing |
| CleanerExamples.CleanNotIdempotent | data/md-final-clean.py:39-68 | as written, cleaning `["##"]` twice differs from cleaning it once |
| CleanerExamples.AltaIsOrdinary | data/md-final-clean.py:11-37 | `Alta` strips to itself, is not boilerplate and is not demoted |
| CleanerExamples.PlainRepeatCleansOnce | data/md-final-clean.py:57-58 | `Alta` twice yields `Alta` once |
| CleanerExamples.RepeatedHeaderCleansAgain | data/md-final-clean.py:39-68 | as written, a second run turns the surviving `["Alta", "Alta"]` into `["Alta"]` |
| CleanerExamples.DashedHeaderKept | data/md-final-clean.py:11-37 | `## ---` strips to itself and is not boilerplate |
| CleanerExamples.DashedPairsRemoved | data/md-final-clean.py:62 | `replace('##', '')` turns `## ---` into ` ---` |
| CleanerExamples.DashedStripped | data/md-final-clean.py:62 | ` ---` strips to `---` |
| CleanerExamples.DashedHeaderDemotesToSeparator | data/md-final-clean.py:61-62 | `## ---` demotes to `---`, which is boilerplate |
| CleanerExamples.DashedHeaderDropped | data/md-final-clean.py:48-66 | corrected, a header that demotes to boilerplate yields nothing |
| Merger.PatientId | data/md-merge-files.py:8 | the id consists of digits only, is no longer than the name and contains every digit of the name |
| Merger.PatientIdAppend | data/md-merge-files.py:8 | the id of a concatenation is the concatenation of the ids: the digits appear in order |
| Merger.PatientIdOfChar | data/md-merge-files.py:8 | one character contributes itself if it is a digit and nothing otherwise |
| Merger.BeforeFirstDot | data/md-merge-files.py:12 | `split('.')[0]` is the prefix up to, and not including, the first dot |
| Merger.FileType | data/md-merge-files.py:12 | the type code consists of letters of the stem, and every letter of the stem is in it |
| Merger.FileTypeIgnoresExtension | data/md-merge-files.py:12 | the type code of `stem.ext` is the letters of `stem`, whatever the extension |
| Merger.NumberedNameId | data/md-merge-files.py:8 | a digit prefix followed by digit-free text has that prefix as id |
| Merger.CodedNameType | data/md-merge-files.py:12 | `<digits><letters>.<ext>` has the letters as type code |
| Merger.StandardFileName | data/md-merge-files.py:6-13 | `<digits><letters>.<ext>` with a digit-free extension has the digits as id and the letters as code |
| Merger.AdmissionNoteName | data/md-merge-files.py:6-13 | `2301E.md` belongs to patient `2301` and is of type `E` |
| Merger.ReadFileContentAppend | data/md-merge-files.py:19 | a line with non-whitespace content is appended unchanged; a blank line adds nothing |
| Merger.BlankLinesVanish | data/md-merge-files.py:19 | a file of whitespace-only lines has empty content |
| Merger.Place | data/md-merge-files.py:27 | one grouping step adds the file's id to the keys and nothing else |
| Merger.GroupFilesByPatient | data/md-merge-files.py:21-28 | the grouping loop builds `GroupAll(files)` |
| Merger.GroupKeys | data/md-merge-files.py:21-28 | the patients of the table are exactly the ids of the listed files |
| Merger.GroupCellIsLastWriter | data/md-merge-files.py:23-28 | every cell holds a file with that id and code, and no later file has the same id and code |
| Merger.LastWriterIsInCell | data/md-merge-files.py:23-28 | the last file with a given id and code is the one in that cell: later files overwrite |
| Merger.Section | data/md-merge-files.py:45 | a section is its `>> name <<` line, then the content unchanged, then its `>> END name <<` line |
| Merger.CreateMergedContent | data/md-merge-files.py:30-47 | the loop over the section types returns `MergedContent(group)` |
| Merger.MergedContentOrder | data/md-merge-files.py:34-47 | the merged text is the E, A, BIC and O sections in that order, each present only if its code is in the group |
| Merger.MergedContentOnlyKnownCodes | data/md-merge-files.py:42-47 | codes other than the four never influence the merged text |
| Merger.MergedContentEmpty | data/md-merge-files.py:42-47 | a group without any of the four codes, the empty group included, merges to the empty text |
| Merger.OutputName | data/md-merge-files.py:60 | the output name is the id followed by three characters |
| Merger.OutputNameInjective | data/md-merge-files.py:59-61 | different patients never share an output file |
| Merger.MergePatientFiles | data/md-merge-files.py:49-66 | one merged document per patient id of the table, named `<id>.md`, holding that group's merged text |
| Calendar.DaysInMonth | extractors/extraction_utils.py:14 | every month has 28 to 31 days in the Gregorian calendar |
| Calendar.DayValue | extractors/extraction_utils.py:14 | a `%d` token denotes a day from 1 to 31 |
| Calendar.MonthValue | extractors/extraction_utils.py:14 | a `%m` token denotes a month from 1 to 12 |
| Calendar.IndexOf | extractors/extraction_utils.py:14 | the first occurrence of a separator, or the length when there is none |
| Calendar.ParseDayMonthYear | extractors/extraction_utils.py:14 | `strptime(s, '%d-%m-%Y')` succeeds only with a date that exists |
| Calendar.LongFirstFieldRejected | extractors/extraction_utils.py:14 | a text whose first field is longer than two characters does not parse |
| Calendar.Pad2Reads | extractors/extraction_utils.py:15 | `%d`/`%m` output is two digits reading back to the number |
| Calendar.Pad4Reads | extractors/extraction_utils.py:15 | `%Y` output is four digits reading back to the year |
| Calendar.PaddedDayIsToken | extractors/extraction_utils.py:14 | a two-digit day is a `%d` token of the same value |
| Calendar.PaddedMonthIsToken | extractors/extraction_utils.py:14 | a two-digit month is a `%m` token of the same value |
| Calendar.SplitThreeFields | extractors/extraction_utils.py:14 | `dd-mm-rest` splits at its two dashes into its three fields |
| Calendar.ParsePaddedText | extractors/extraction_utils.py:14 | reading the zero-padded `dd-mm-yyyy` text of a date gives the date when it exists and fails when it does not |
| Calendar.TwoDigitTokenIsPadded | extractors/extraction_utils.py:14-15 | a two-digit token is the padded text of its value |
| Calendar.ParsedTenCharactersArePadded | extractors/extraction_utils.py:14 | every 10-character text that reads as a date is the padded text of that date |
| Calendar.YearTextIsPadded | extractors/extraction_utils.py:14-15 | a four-digit year token is the padded text of its value |
| Calendar.IsoTextFields | extractors/extraction_utils.py:15 | `yyyy-mm-dd` output has dashes at 4 and 7 and fields reading back to the year, month and day |
| ExtractionUtils.FormatDate | extractors/extraction_utils.py:9-17 | `None` and `""` give `None`; any result is a 10-character text with dashes at positions 4 and 7 |
| ExtractionUtils.FormatDateOfPaddedText | extractors/extraction_utils.py:9-17 | a padded `dd-mm-yyyy` text becomes the `yyyy-mm-dd` text of the same date when it exists, and `None` when it does not |
| ExtractionUtils.CreateMongoDocument | extractors/extraction_utils.py:19-107 | `_id` is the patient id; name, gender and address are copied; `dob`, `injury_date`, `admission_date` and `discharge_date` are `format_date` of their source fields; the burn record's other scalar fields, the admission and discharge times and the destination are copied; contact is two empty strings; `sns_number` is empty; `patient_id` is empty exactly when the process number is absent or 0 and otherwise reads back to it; burn keys exist exactly with burn data; death date and cause are `None` and autopsy is false |
| ExtractionUtils.BurnSectionEntries | extractors/extraction_utils.py:40-78 | the burn-degree, fluid and intervention lists keep length and order; each depth is stored as its value and reads back to the same depth; `is_circumferential` is dropped; interventions keep procedure and details, and their dates are formatted |
| ExtractionUtils.HistorySectionEntries | extractors/extraction_utils.py:91-105 | the history is always present: four empty lists without a record; otherwise its lists, surgeries in order with their procedure and details and `format_date` of their date |
| ExtractionUtils.BirthDateStoredAsIso | extractors/extraction_utils.py:27 | a padded birth date is stored as the ISO text of the same date |
| ExtractionUtils.BaseDictKeys | extractors/extraction_utils.py:23-37 | the seven base keys |
| ExtractionUtils.BurnDictKeys | extractors/extraction_utils.py:41-78 | the sixteen burn keys, `admission_date` and `admission_time` among them |
| ExtractionUtils.DischargeDictKeys | extractors/extraction_utils.py:81-88 | the six discharge keys |
| ExtractionUtils.ToDictKeysWithoutBurn | extractors/extraction_utils.py:19-107 | without burn data the stored keys are the base, discharge and history keys only |
| ExtractionUtils.ToDictKeysWithBurn | extractors/extraction_utils.py:19-107 | with burn data the sixteen burn keys are stored as well |
| ExtractionUtils.IdKeyOnlyInBase | extractors/extraction_utils.py:24 | no later update writes `_id` |
| ExtractionUtils.ToDictId | extractors/extraction_utils.py:24 | the stored `_id` is the patient id |
| ExtractionUtils.ExtractAndFormatData | extractors/extraction_utils.py:109-138 | a document exactly when the patient and burn extractors were built and returned records and the history extractor was built; a missing history still gives one |
| ExtractionUtils.AsWrittenNeverProducesDocument | extractors/extraction_utils.py:109-138 | as written, no input produces a document |
| ExtractionUtils.DocumentFromRepairedPipeline | extractors/extraction_utils.py:109-138 | with the burn extractor repaired: a document exactly when both extractions succeed and the history extractor is built, with `_id` the number in the patient file path |
| ExtractionUtilsExamples.ValidDateReformatted | extractors/extraction_utils.py:9-17 | `15-01-2023` becomes `2023-01-15` |
| ExtractionUtilsExamples.ImpossibleDateRejected | extractors/extraction_utils.py:9-17 | `31-02-2023` gives `None` |
| ExtractionUtilsExamples.IsoDateNotParsed | extractors/extraction_utils.py:9-17 | `2020-05-01` gives `None` |
| ExtractionUtilsExamples.DocumentedSurgeryDateDropped | extractors/extraction_utils.py:98 | a surgery date in its documented `yyyy-mm-dd` form is stored as `None` |
| PatientExtractor.NewPatientData | extractors/patient_extractor.py:12-24 | every field but `id_patient` defaults to `None` |
| PatientExtractor.NonDigitPrefixSpec | extractors/patient_extractor.py:89 | the scan for the first digit skips only non-digits and stops at a digit |
| PatientExtractor.DigitPrefixSpec | extractors/patient_extractor.py:89 | `\d+` matches a maximal run of digits |
| PatientExtractor.ExtractPatientIdNone | extractors/patient_extractor.py:86-96 | the id is missing (the method raises) exactly when the path has no digit |
| PatientExtractor.ExtractPatientIdIsFirstRun | extractors/patient_extractor.py:86-96 | the id is the integer value of the first maximal digit run |
| PatientExtractor.FirstRunExists | extractors/patient_extractor.py:89 | a path with a digit has a first maximal digit run |
| PatientExtractor.EarlierDigitsWin | extractors/patient_extractor.py:89-104 | digits earlier in the path (a directory name) decide the id, whatever follows a separator |
| PatientExtractor.Extract | extractors/patient_extractor.py:98-137 | a record exactly when the path has digits, the content is non-empty and the agent returned data; then the agent's record with `id_patient` replaced by the path's id |
| BurnExtractor.ParseBurnDepth | extractors/burn_extractor.py:12-17 | reading a depth value gives the depth whose value it is, and fails only on a text that is no depth's value |
| BurnExtractor.BurnDepthRoundTrip | extractors/burn_extractor.py:12-17 | each of the five depths reads back from its value |
| BurnExtractor.DefaultBurnData | extractors/burn_extractor.py:34-48 | lists empty, the three flags false, other fields `None` |
| BurnExtractor.Extract | extractors/burn_extractor.py:132-172 | a record exactly when the content is non-empty and the agent returned data, and then the agent's record unchanged |
| MedicalHistoryExtractor.NewSurgery | extractors/medical_history_extractor.py:11-15 | date and details default to `None` |
| MedicalHistoryExtractor.EmptyHistory | extractors/medical_history_extractor.py:17-34 | the four lists default to empty |
| MedicalHistoryExtractor.Extract | extractors/medical_history_extractor.py:100-128 | a record exactly when the content is non-empty and the agent returned data, and then the agent's record unchanged |
| PatientSchema.PatientDataEntity | backend/app/schemas/patient.py:1-6 | fails exactly without `_id`; the result has no `_id`, its keys are the input's with `_id` replaced by `id_patient`, every other entry is copied, and `id_patient` is `_id` unless the input has its own |
| PatientSchema.EntityRoundTrip | backend/app/schemas/patient.py:1-6 | for an input without its own `id_patient`, renaming back gives the input: nothing is lost |
| PatientSchema.OwnIdPatientWins | backend/app/schemas/patient.py:3-5 | an input's own `id_patient` overwrites `_id`, whose value then does not reach the result |
| PatientSchema.PatientDataListEntity | backend/app/schemas/patient.py:8-9 | fails exactly when some item lacks `_id`; otherwise same length and element-wise `patientDataEntity` |
| PatientSchema.ListEntityAppend | backend/app/schemas/patient.py:8-9 | mapping a concatenation maps each part |
| PatientSchema.IdPatientKeyUnused | extractors/extraction_utils.py:23-105 | no part of the stored document uses the key `id_patient` |
| PatientSchema.IdPatientNotStored | extractors/extraction_utils.py:19-107 | a stored document never has an `id_patient` entry |
| PatientSchema.StoredDocumentReadBack | backend/app/schemas/patient.py:1-6 | an assembled document reads back with `id_patient` equal to the patient id and every other entry unchanged |

## Left out

- Reading and writing files, directory listings, `mkdir` and logging (`print`, `traceback`): listings are sequences of names with their lines, and outputs are returned values. Both scripts list only `.md` files (`glob('*.md')`); the model takes the listing as given and groups every name in it.
- The language-model agents (`Agent`, `run_sync`), API keys, environment settings and prompt texts: each agent outcome is a parameter (raised, no result, or data).
- Extractor construction and `read_md_file` are parameters too: whether construction succeeded, and the content read (absent when reading raised).
- PDF conversion, the HTTP routes, MongoDB and the import script are not part of this model.
- `BurnExtractor.Extract`: no collapsing of burn locations, bilateral expansion or circumferential rule, because the code applies none of them.
- `tbsa` (a float) and `parkland_formula` (a dict) are carried as opaque values (`real`, `Documents.Document`), with no arithmetic.
- `Text.IsDigit`, `Text.IsAlpha`: ASCII only, while Python's `isdigit`, `isalpha` and the regex `\d` also accept other Unicode digits and letters.
- `Cleaner.ShouldRemoveLine`: the regular expressions are modelled as literal substring searches. All of them are literals except `^\s*$`, which `Cleaner.ShouldRemoveLineCases` shows adds nothing.
- Dict key order (insertion order in Python) is not modelled: the stored document and the table of groups are maps.
- `PatientExtractor.Extract`: the id is written into the agent's object in place; the model returns the updated record instead, so no aliasing is modelled.
- `ExtractionUtils.FormatDate`: years below 1000 are written with four digits; some platforms' `strftime('%Y')` does not pad them.
- `Calendar.ParseDayMonthYear`: only the exceptions `strptime` raises on malformed or impossible dates are modelled; Unicode digits in the tokens are not.

## Findings

| source | as written | input that shows it | evidently intended | confidence | as-written member | corrected member |
|---|---|---|---|---|---|---|
| extractors/burn_extractor.py:52 | `BurnDataExtractor.__init__` passes two arguments to a base constructor taking one, and later reads `self.model`, which is never assigned, so construction always raises and `extract_and_format_data` catches the error and returns `None` | any call, e.g. `extract_and_format_data("2301.md", root)` | a document whenever the patient and burn extractions succeed | not executed | ExtractionUtils.AsWrittenNeverProducesDocument | ExtractionUtils.DocumentFromRepairedPipeline |
| data/md-final-clean.py:57-66 | the seen set stores the demoted text but the check uses the trimmed line, so a repeated `## X` header is emitted every time | lines `["## Alta", "## Alta"]` give `["Alta", "Alta"]` | each emitted line once | not executed | CleanerExamples.RepeatedHeaderSurvives | Cleaner.CleanDeduped |
| data/md-final-clean.py:53-62 | the empty-line check runs before demotion, so a bare `##` line demotes to the empty text and is emitted | lines `["##"]` give `[""]` | no empty output line | not executed | CleanerExamples.BareHeaderYieldsEmptyLine | Cleaner.CleanDeduped |
| data/md-final-clean.py:39-68 | the filters run before demotion, so a demoted line can be empty, boilerplate or a repeat, and a second run removes it: cleaning is not idempotent | lines `["##"]` give `[""]`, which gives `[]` | normalising normalised output changes nothing | not executed | CleanerExamples.CleanNotIdempotent | Cleaner.CleanDedupedIdempotent |
