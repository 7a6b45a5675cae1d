/**
 * The section merger of data/md-merge-files.py: the per-document Markdown files of
 * one patient (admission note E, discharge note A, death notice BIC, death
 * certificate O) are grouped by the patient number in their file names and
 * concatenated into one file per patient, section by section in a fixed order.
 *
 * The directory listing is a sequence of `SourceFile`s (name and lines as read);
 * reading and writing files is not modelled.
 */
module Merger {
  import opened Text

  /** A Markdown file of the source directory: its name and its lines as `readlines` gives them. */
  datatype SourceFile = SourceFile(name: string, lines: seq<string>)

  // ---------------------------------------------------------------------------
  // File names

  /** `get_patient_id`: the digits of the file name, in order. */
  function PatientId(fileName: string): (r: string)
    ensures AllDigits(r) && |r| <= |fileName|
    ensures forall i :: 0 <= i < |fileName| && IsDigit(fileName[i]) ==> fileName[i] in r
  {
    Filter(fileName, IsDigit)
  }

  /** The id of a concatenation is the concatenation of the ids: the digits keep their order. */
  lemma PatientIdAppend(a: string, b: string)
    ensures PatientId(a + b) == PatientId(a) + PatientId(b)
  {
    FilterAppend(a, b, IsDigit);
  }

  /** A single character contributes itself when it is a digit, and nothing otherwise. */
  lemma PatientIdOfChar(c: char)
    ensures PatientId([c]) == if IsDigit(c) then [c] else []
  {
    assert [c][1..] == [];
  }

  /** `filename.split('.')[0]`: the text before the first dot, or the whole name without one. */
  function BeforeFirstDot(s: string): (r: string)
    ensures '.' !in r
    ensures |r| <= |s| && r == s[..|r|]
    ensures |r| < |s| ==> s[|r|] == '.'
    decreases |s|
  {
    if s == [] || s[0] == '.' then [] else [s[0]] + BeforeFirstDot(s[1..])
  }

  /** `get_file_type`: the letters of the part of the name before the first dot. */
  function FileType(fileName: string): (r: string)
    ensures forall i :: 0 <= i < |r| ==> IsAlpha(r[i]) && r[i] in BeforeFirstDot(fileName)
    ensures forall i :: 0 <= i < |BeforeFirstDot(fileName)| && IsAlpha(BeforeFirstDot(fileName)[i]) ==>
              BeforeFirstDot(fileName)[i] in r
  {
    Filter(BeforeFirstDot(fileName), IsAlpha)
  }

  /** Anything after the first dot (such as the `.md` extension) has no say in the type code. */
  lemma FileTypeIgnoresExtension(stem: string, rest: string)
    requires '.' !in stem
    ensures FileType(stem + "." + rest) == Filter(stem, IsAlpha)
  {
    var s := stem + "." + rest;
    var b := BeforeFirstDot(s);
    assert forall k :: 0 <= k < |stem| ==> s[k] == stem[k];
    assert s[|stem|] == '.';
    assert b == stem;
  }

  /** A name made of a digit-only number followed by text without digits belongs to patient `<number>`. */
  lemma NumberedNameId(number: string, rest: string)
    requires AllDigits(number)
    requires forall i :: 0 <= i < |rest| ==> !IsDigit(rest[i])
    ensures PatientId(number + rest) == number
  {
    PatientIdAppend(number, rest);
    FilterKeepsAll(number, IsDigit);
    FilterKeepsNone(rest, IsDigit);
  }

  /** A stem made of a digit-only number and a letter-only code has type `<code>`, whatever follows the dot. */
  lemma CodedNameType(number: string, code: string, extension: string)
    requires AllDigits(number)
    requires forall i :: 0 <= i < |code| ==> IsAlpha(code[i])
    ensures FileType(number + code + "." + extension) == code
  {
    var stem := number + code;
    assert forall i :: 0 <= i < |stem| ==> stem[i] != '.' by {
      forall i | 0 <= i < |stem|
        ensures stem[i] != '.'
      {
        if i >= |number| {
          assert stem[i] == code[i - |number|];
        }
      }
    }
    FileTypeIgnoresExtension(stem, extension);
    FilterAppend(number, code, IsAlpha);
    FilterKeepsNone(number, IsAlpha);
    FilterKeepsAll(code, IsAlpha);
  }

  /**
   * A file named `<number><code>.<extension>`, with a digit-only number, a letter-only
   * code and no digit in the extension, belongs to patient `<number>` and has type `<code>`.
   */
  lemma StandardFileName(number: string, code: string, extension: string)
    requires AllDigits(number)
    requires forall i :: 0 <= i < |code| ==> IsAlpha(code[i])
    requires forall i :: 0 <= i < |extension| ==> !IsDigit(extension[i])
    ensures PatientId(number + code + "." + extension) == number
    ensures FileType(number + code + "." + extension) == code
  {
    var rest := code + "." + extension;
    assert number + code + "." + extension == number + rest;
    forall i | 0 <= i < |rest|
      ensures !IsDigit(rest[i])
    {
      if i < |code| {
        assert rest[i] == code[i];
      } else if i > |code| {
        assert rest[i] == extension[i - |code| - 1];
      }
    }
    NumberedNameId(number, rest);
    CodedNameType(number, code, extension);
  }

  /** `2301E.md` is the admission note of patient `2301`. */
  lemma AdmissionNoteName()
    ensures PatientId("2301E.md") == "2301" && FileType("2301E.md") == "E"
  {
    StandardFileName("2301", "E", "md");
    assert "2301" + "E" + "." + "md" == "2301E.md";
  }

  // ---------------------------------------------------------------------------
  // File contents

  /** A line is kept by `read_file_content` when it has a non-space character. */
  predicate HasContent(line: string)
  {
    Strip(line) != ""
  }

  /** `read_file_content`: the lines with content, unchanged, joined without separator. */
  function ReadFileContent(lines: seq<string>): string
  {
    Concat(Filter(lines, HasContent))
  }

  /** Reading line by line: a line with content is appended as it is, a blank line adds nothing. */
  lemma ReadFileContentAppend(lines: seq<string>, line: string)
    ensures ReadFileContent(lines + [line]) ==
            ReadFileContent(lines) + (if HasContent(line) then line else "")
  {
    FilterAppend(lines, [line], HasContent);
    assert [line][1..] == [];
    if HasContent(line) {
      ConcatAppend(Filter(lines, HasContent), line);
    } else {
      assert Filter(lines + [line], HasContent) == Filter(lines, HasContent);
    }
  }

  /** Blank lines are exactly the lines made of spaces; they never reach the content. */
  lemma BlankLinesVanish(lines: seq<string>)
    requires forall i :: 0 <= i < |lines| ==> forall k :: 0 <= k < |lines[i]| ==> IsSpace(lines[i][k])
    ensures ReadFileContent(lines) == ""
  {
    forall i | 0 <= i < |lines|
      ensures !HasContent(lines[i])
    {
      StripEmptyIffBlank(lines[i]);
    }
    FilterKeepsNone(lines, HasContent);
  }


  // ---------------------------------------------------------------------------
  // Grouping: `group_files_by_patient`

  /** The patient id → type code → file table. */
  type Groups = map<string, map<string, SourceFile>>

  /** Files `f` of one patient and one type land in the same cell. */
  predicate SameCell(f: SourceFile, g: SourceFile)
  {
    PatientId(f.name) == PatientId(g.name) && FileType(f.name) == FileType(g.name)
  }

  /** One iteration of the grouping loop (`patient_files[id][type] = path` on a `defaultdict`). */
  function Place(groups: Groups, f: SourceFile): (r: Groups)
    ensures r.Keys == groups.Keys + {PatientId(f.name)}
  {
    var id := PatientId(f.name);
    var inner := if id in groups then groups[id] else map[];
    groups[id := inner[FileType(f.name) := f]]
  }

  /** The table after the loop has placed every file of the listing, in listing order. */
  function GroupAll(files: seq<SourceFile>): Groups
    decreases |files|
  {
    if files == [] then map[] else Place(GroupAll(files[..|files| - 1]), files[|files| - 1])
  }

  /** `group_files_by_patient`: one pass over the listing. */
  method GroupFilesByPatient(files: seq<SourceFile>) returns (groups: Groups)
    ensures groups == GroupAll(files)
  {
    groups := map[];
    for i := 0 to |files|
      invariant groups == GroupAll(files[..i])
    {
      assert files[..i + 1][..i] == files[..i];
      var id := PatientId(files[i].name);
      var inner := if id in groups then groups[id] else map[];
      groups := groups[id := inner[FileType(files[i].name) := files[i]]];
    }
    assert files[..|files|] == files;
  }

  /** The patients of the table are exactly the ids of the listed files. */
  lemma {:induction false} GroupKeys(files: seq<SourceFile>)
    ensures GroupAll(files).Keys == set i | 0 <= i < |files| :: PatientId(files[i].name)
    decreases |files|
  {
    if files != [] {
      var n := |files| - 1;
      GroupKeys(files[..n]);
      assert forall i :: 0 <= i < n ==> files[..n][i] == files[i];
      assert (set i | 0 <= i < |files| :: PatientId(files[i].name)) ==
             (set i | 0 <= i < n :: PatientId(files[..n][i].name)) + {PatientId(files[n].name)};
    }
  }

  /** No file after index `i` has the same patient id and type code as file `i`. */
  predicate LastInCell(files: seq<SourceFile>, i: nat)
    requires i < |files|
  {
    forall j :: i < j < |files| ==> !SameCell(files[j], files[i])
  }

  /**
   * Every cell holds one of the listed files, and it is the last file of the listing
   * with that patient id and type code: a later file overwrites an earlier one.
   */
  lemma {:induction false} GroupCellIsLastWriter(files: seq<SourceFile>, id: string, code: string) returns (i: nat)
    requires id in GroupAll(files) && code in GroupAll(files)[id]
    ensures i < |files| && PatientId(files[i].name) == id && FileType(files[i].name) == code
    ensures GroupAll(files)[id][code] == files[i]
    ensures LastInCell(files, i)
    decreases |files|
  {
    var n := |files| - 1;
    var f := files[n];
    if PatientId(f.name) == id && FileType(f.name) == code {
      i := n;
    } else {
      var prev := GroupAll(files[..n]);
      assert id in prev && code in prev[id] && GroupAll(files)[id][code] == prev[id][code];
      i := GroupCellIsLastWriter(files[..n], id, code);
      assert files[..n][i] == files[i];
      forall j | i < j < |files|
        ensures !SameCell(files[j], files[i])
      {
        if j < n {
          assert files[..n][j] == files[j];
        }
      }
    }
  }

  /** Every listed file that no later file overwrites sits in its own cell. */
  lemma {:induction false} LastWriterIsInCell(files: seq<SourceFile>, i: nat)
    requires i < |files|
    requires LastInCell(files, i)
    ensures PatientId(files[i].name) in GroupAll(files)
    ensures FileType(files[i].name) in GroupAll(files)[PatientId(files[i].name)]
    ensures GroupAll(files)[PatientId(files[i].name)][FileType(files[i].name)] == files[i]
    decreases |files|
  {
    var n := |files| - 1;
    if i < n {
      assert forall j :: i < j < n ==> files[..n][j] == files[j];
      LastWriterIsInCell(files[..n], i);
      assert files[..n][i] == files[i];
      assert !SameCell(files[n], files[i]);
    }
  }

  // ---------------------------------------------------------------------------
  // Merging: `create_merged_content`

  /** The section types in emission order, with their section names. */
  const SectionTypes: seq<(string, string)> := [
    ("E", "unit admission note"),
    ("A", "unit discharge note"),
    ("BIC", "death notice information"),
    ("O", "death certificate")
  ]

  /** The text of one section: a start marker, the content and an end marker, each on its own line. */
  function Section(name: string, content: string): (r: string)
    ensures StartsWith(r, "\n>> " + name + " <<\n")
    ensures |r| == |name| * 2 + |content| + 20
    ensures r[|name| + 8..|name| + 8 + |content|] == content
    ensures r[|name| + 8 + |content|..] == "\n>> END " + name + " <<\n"
  {
    "\n>> " + name + " <<\n" + content + "\n>> END " + name + " <<\n"
  }

  /** The section for type `code` (named `name`) when the group has it, and nothing otherwise. */
  function SectionIfPresent(group: map<string, SourceFile>, code: string, name: string): string
  {
    if code in group then Section(name, ReadFileContent(group[code].lines)) else ""
  }

  /** The text emitted after visiting the first `k` section types. */
  function MergedUpTo(group: map<string, SourceFile>, k: nat): string
    requires k <= |SectionTypes|
  {
    if k == 0 then ""
    else MergedUpTo(group, k - 1) + SectionIfPresent(group, SectionTypes[k - 1].0, SectionTypes[k - 1].1)
  }

  /** The merged text of one patient's group. */
  function MergedContent(group: map<string, SourceFile>): string
  {
    MergedUpTo(group, |SectionTypes|)
  }

  /** `create_merged_content`: walks the section types in order and appends the present ones. */
  method CreateMergedContent(group: map<string, SourceFile>) returns (merged: string)
    ensures merged == MergedContent(group)
  {
    var sections: seq<string> := [];
    for k := 0 to |SectionTypes|
      invariant Concat(sections) == MergedUpTo(group, k)
    {
      var (code, name) := SectionTypes[k];
      if code in group {
        var content := ReadFileContent(group[code].lines);
        ConcatAppend(sections, Section(name, content));
        sections := sections + [Section(name, content)];
      }
    }
    merged := Concat(sections);
  }

  /** The merged text is the E, A, BIC and O sections in that order, whatever else the group holds. */
  lemma MergedContentOrder(group: map<string, SourceFile>)
    ensures MergedContent(group) ==
            SectionIfPresent(group, "E", "unit admission note") +
            SectionIfPresent(group, "A", "unit discharge note") +
            SectionIfPresent(group, "BIC", "death notice information") +
            SectionIfPresent(group, "O", "death certificate")
  {
    assert MergedUpTo(group, 1) == SectionIfPresent(group, "E", "unit admission note");
    assert MergedUpTo(group, 2) == MergedUpTo(group, 1) + SectionIfPresent(group, "A", "unit discharge note");
    assert MergedUpTo(group, 3) == MergedUpTo(group, 2) + SectionIfPresent(group, "BIC", "death notice information");
    assert MergedUpTo(group, 4) == MergedUpTo(group, 3) + SectionIfPresent(group, "O", "death certificate");
  }

  /** Only the four known codes matter: groups that agree on them merge to the same text. */
  lemma MergedContentOnlyKnownCodes(g1: map<string, SourceFile>, g2: map<string, SourceFile>)
    requires forall code :: code in ["E", "A", "BIC", "O"] ==>
               (code in g1 <==> code in g2) && (code in g1 ==> g1[code].lines == g2[code].lines)
    ensures MergedContent(g1) == MergedContent(g2)
  {
    MergedContentOrder(g1);
    MergedContentOrder(g2);
    assert "E" in ["E", "A", "BIC", "O"] && "A" in ["E", "A", "BIC", "O"];
    assert "BIC" in ["E", "A", "BIC", "O"] && "O" in ["E", "A", "BIC", "O"];
  }

  /** A group without any of the four codes, the empty group included, merges to the empty text. */
  lemma MergedContentEmpty(group: map<string, SourceFile>)
    requires "E" !in group && "A" !in group && "BIC" !in group && "O" !in group
    ensures MergedContent(group) == ""
  {
    MergedContentOrder(group);
  }

  // ---------------------------------------------------------------------------
  // One merged file per patient: `merge_patient_files`

  /** A merged output file: its name and its text. */
  datatype MergedDocument = MergedDocument(fileName: string, content: string)

  /** The output file name of a patient. */
  function OutputName(id: string): (r: string)
    ensures |r| == |id| + 3 && r[..|id|] == id
  {
    id + ".md"
  }

  /** Different patients never share an output file. */
  lemma OutputNameInjective(a: string, b: string)
    requires OutputName(a) == OutputName(b)
    ensures a == b
  {
    assert |a| == |b|;
    assert OutputName(a)[..|a|] == a;
  }

  /** The merged file of one patient. */
  function MergedDocumentOf(id: string, group: map<string, SourceFile>): MergedDocument
  {
    MergedDocument(OutputName(id), MergedContent(group))
  }

  /**
   * `merge_patient_files`: groups the listing, then produces one document per patient id,
   * keyed by that id.
   */
  method MergePatientFiles(files: seq<SourceFile>) returns (docs: map<string, MergedDocument>)
    ensures docs.Keys == GroupAll(files).Keys
    ensures forall id :: id in docs ==> docs[id] == MergedDocumentOf(id, GroupAll(files)[id])
  {
    var groups := GroupFilesByPatient(files);
    docs := map[];
    var todo := groups.Keys;
    while todo != {}
      invariant todo <= groups.Keys
      invariant docs.Keys == groups.Keys - todo
      invariant forall id :: id in docs ==> docs[id] == MergedDocumentOf(id, groups[id])
      decreases |todo|
    {
      var id :| id in todo;
      var merged := CreateMergedContent(groups[id]);
      docs := docs[id := MergedDocument(OutputName(id), merged)];
      todo := todo - {id};
    }
  }
}

