/**
 * The line normaliser of data/md-final-clean.py: boilerplate filtering, trimming,
 * per-document deduplication and demotion of `##` headers.
 *
 * `Clean` is the left fold that specifies the loop of `clean_content`; the method
 * `CleanContent` is that loop. The deduplication set holds the demoted text of the
 * kept lines while the duplicate test uses the trimmed, not yet demoted, line:
 * the model keeps this asymmetry (see `RepeatedHeaderSurvives`). `CleanDeduped`
 * is the normaliser with the boilerplate, emptiness and duplicate tests made again on
 * the demoted text; unlike `Clean`, it is idempotent.
 */
module Cleaner {
  import opened Text

  /** The patterns of `should_remove_line`; all but the blank-line one are literal texts. */
  const RemovalPatterns: seq<string> := [
    "<!-- image -->",
    "H. SAO JOAO ALAMEDA",
    "Tel. :",
    "Email:",
    "Data de Criação",
    "Data de Bloqueio",
    "Versão",
    "Criado por",
    "Local :",
    "\\_\\_",
    "_ _ _ _",
    "-----",
    "- - - -",
    "O(A) Médico",
    "PORTO,",
    "código de barras"
  ]

  /** The pattern `^\s*$`: the line is made of white space only. */
  predicate IsBlank(line: string)
  {
    forall i :: 0 <= i < |line| ==> IsSpace(line[i])
  }

  /** Every character is a dash or an underscore (vacuously true of the empty text). */
  predicate OnlySeparators(s: string)
  {
    forall i :: 0 <= i < |s| ==> s[i] == '-' || s[i] == '_'
  }

  /** `any(re.search(p, line) for p in patterns)` over the literal patterns. */
  predicate HasRemovalPattern(line: string)
  {
    exists p :: p in RemovalPatterns && Contains(line, p)
  }

  /** `should_remove_line`. */
  predicate ShouldRemoveLine(line: string)
  {
    OnlySeparators(Strip(line)) || HasRemovalPattern(line) || IsBlank(line)
  }

  /**
   * The blank-line pattern adds nothing: a blank line strips to the empty text, which
   * the separator check already accepts. So a line is boilerplate exactly when its
   * trimmed text is made of dashes and underscores or one of the literal patterns
   * occurs in it.
   */
  lemma ShouldRemoveLineCases(line: string)
    ensures ShouldRemoveLine(line) <==>
              OnlySeparators(Strip(line)) || exists i, p :: p in RemovalPatterns && OccursAt(line, p, i)
  {
    StripEmptyIffBlank(line);
  }

  /** Whether `c` is the first character of one of the literal patterns. */
  predicate IsPatternInitial(c: char)
  {
    c == '<' || c == 'H' || c == 'T' || c == 'E' || c == 'D' || c == 'V' || c == 'C' || c == 'L'
    || c == '\\' || c == '_' || c == '-' || c == 'O' || c == 'P' || c == 'c'
  }

  /** A text that lacks a pattern's first character cannot contain that pattern. */
  lemma MissingInitialBlocks(line: string, p: string)
    requires p != [] && forall i :: 0 <= i < |line| ==> line[i] != p[0]
    ensures !Contains(line, p)
  {
    forall i | 0 <= i <= |line|
      ensures !OccursAt(line, p, i)
    {
      if i + |p| <= |line| {
        assert line[i..i + |p|][0] == line[i] != p[0];
      }
    }
  }

  /**
   * A line with no space at either end and none of the patterns' first characters
   * is ordinary text: it is its own trimmed form and it is not boilerplate.
   */
  lemma OrdinaryLine(line: string)
    requires line != [] && !IsSpace(line[0]) && !IsSpace(line[|line| - 1])
    requires forall i :: 0 <= i < |line| ==> !IsPatternInitial(line[i])
    ensures Strip(line) == line && !ShouldRemoveLine(line)
  {
    StripNoop(line);
    assert !OnlySeparators(line) by {
      assert line[0] != '-' && line[0] != '_';
    }
    assert !IsBlank(line);
    forall p | p in RemovalPatterns
      ensures !Contains(line, p)
    {
      assert p != [] && IsPatternInitial(p[0]);
      MissingInitialBlocks(line, p);
    }
  }

  // ---------------------------------------------------------------------------
  // Header demotion: `line.replace('##', '').strip()`

  /** Positions `i` and `i + 1` of `s` both hold `#`. */
  predicate HashPairAt(s: string, i: int)
  {
    0 <= i && i + 1 < |s| && s[i] == '#' && s[i + 1] == '#'
  }

  /** `s.replace('##', '')`: removes the non-overlapping `##` pairs from left to right. */
  function RemoveHashPairs(s: string): string
    decreases |s|
  {
    if StartsWith(s, "##") then RemoveHashPairs(s[2..])
    else if s == [] then []
    else [s[0]] + RemoveHashPairs(s[1..])
  }

  /** The replacement never lengthens the text and leaves no `##` behind. */
  lemma {:induction false} RemoveHashPairsSpec(s: string)
    ensures |RemoveHashPairs(s)| <= |s|
    ensures forall i :: !HashPairAt(RemoveHashPairs(s), i)
    ensures s != [] && s[0] != '#' ==> RemoveHashPairs(s) != [] && RemoveHashPairs(s)[0] == s[0]
    decreases |s|
  {
    if StartsWith(s, "##") {
      RemoveHashPairsSpec(s[2..]);
    } else if s != [] {
      var rest := RemoveHashPairs(s[1..]);
      RemoveHashPairsSpec(s[1..]);
      assert !HashPairAt([s[0]] + rest, 0) by {
        if |s| > 1 && s[0] == '#' {
          assert s[..2] == [s[0], s[1]];
          RemoveHashPairsSpec(s[1..]);
        }
      }
      assert forall i :: HashPairAt([s[0]] + rest, i) ==> i == 0 || HashPairAt(rest, i - 1);
    }
  }

  /** A text without `#` is left alone by the replacement. */
  lemma {:induction false} NoHashUnchanged(s: string)
    requires forall i :: 0 <= i < |s| ==> s[i] != '#'
    ensures RemoveHashPairs(s) == s
    decreases |s|
  {
    if s != [] {
      assert !StartsWith(s, "##") by { if |s| >= 2 { assert s[..2][0] == s[0]; } }
      NoHashUnchanged(s[1..]);
    }
  }

  /** A `##` line loses every `##` and is trimmed again; any other line is left alone. */
  function Demote(line: string): string
  {
    if StartsWith(line, "##") then Strip(RemoveHashPairs(line)) else line
  }

  /** A demoted line never starts a header, so demoting is idempotent. */
  lemma DemoteIdempotent(line: string)
    ensures !StartsWith(Demote(line), "##")
    ensures Demote(Demote(line)) == Demote(line)
  {
    if StartsWith(line, "##") {
      var t := RemoveHashPairs(line);
      RemoveHashPairsSpec(line);
      var lo := StripIsSlice(t);
      var r := Strip(t);
      if StartsWith(r, "##") {
        assert t[lo] == r[0] && t[lo + 1] == r[1];
        assert HashPairAt(t, lo);
      }
    }
  }

  // ---------------------------------------------------------------------------
  // The specification of `clean_content` as a left fold
  //
  // The fold takes the boilerplate test as a parameter `remove`: `Clean` uses
  // `ShouldRemoveLine`, and the structural lemmas below hold for any test.

  /** The loop state of `clean_content`: the kept lines and the `seen_lines` set. */
  datatype CleanState = CleanState(kept: seq<string>, seen: set<string>)

  /** A trimmed line is kept when it is not boilerplate, not empty and not yet seen. */
  predicate Admits(remove: string -> bool, seen: set<string>, line: string)
  {
    !remove(line) && line != "" && line !in seen
  }

  /** One iteration of the loop on the raw line `raw`. */
  function Step(remove: string -> bool, st: CleanState, raw: string): CleanState
  {
    var line := Strip(raw);
    if Admits(remove, st.seen, line) then
      CleanState(st.kept + [Demote(line)], st.seen + {Demote(line)})
    else
      st
  }

  function Fold(remove: string -> bool, lines: seq<string>): CleanState
    decreases |lines|
  {
    if lines == [] then CleanState([], {})
    else Step(remove, Fold(remove, lines[..|lines| - 1]), lines[|lines| - 1])
  }

  /** The result of `clean_content(lines)`. */
  function Clean(lines: seq<string>): seq<string>
  {
    Fold(ShouldRemoveLine, lines).kept
  }

  lemma FoldAppend(remove: string -> bool, lines: seq<string>, raw: string)
    ensures Fold(remove, lines + [raw]) == Step(remove, Fold(remove, lines), raw)
  {
    assert (lines + [raw])[..|lines|] == lines;
  }

  /** `clean_content`: one pass over the lines with a set local to the call. */
  method CleanContent(lines: seq<string>) returns (cleaned: seq<string>)
    ensures cleaned == Clean(lines)
  {
    var seen: set<string> := {};
    cleaned := [];
    for i := 0 to |lines|
      invariant Fold(ShouldRemoveLine, lines[..i]) == CleanState(cleaned, seen)
    {
      FoldAppend(ShouldRemoveLine, lines[..i], lines[i]);
      assert lines[..i + 1] == lines[..i] + [lines[i]];
      var line := Strip(lines[i]);
      if ShouldRemoveLine(line) {
        continue;
      }
      if line == "" {
        continue;
      }
      if line in seen {
        continue;
      }
      if StartsWith(line, "##") {
        line := Strip(RemoveHashPairs(line));
      }
      cleaned := cleaned + [line];
      seen := seen + {line};
    }
    assert lines[..|lines|] == lines;
  }

  // ---------------------------------------------------------------------------
  // Properties of the normaliser

  /** Whether the loop keeps the line at index `i`. */
  predicate KeptAt(remove: string -> bool, lines: seq<string>, i: int)
    requires 0 <= i < |lines|
  {
    Admits(remove, Fold(remove, lines[..i]).seen, Strip(lines[i]))
  }

  /** The input indices of the kept lines, in increasing order. */
  function Origins(remove: string -> bool, lines: seq<string>): seq<int>
    decreases |lines|
  {
    if lines == [] then []
    else
      var n := |lines| - 1;
      Origins(remove, lines[..n]) + (if KeptAt(remove, lines, n) then [n] else [])
  }

  /** The seen set is exactly the set of kept (demoted) lines. */
  lemma {:induction false} SeenIsKept(remove: string -> bool, lines: seq<string>)
    ensures Fold(remove, lines).seen == set x | x in Fold(remove, lines).kept
    decreases |lines|
  {
    if lines != [] {
      SeenIsKept(remove, lines[..|lines| - 1]);
    }
  }

  /** Whether line `i` is kept depends only on the lines up to `i`. */
  lemma KeptAtPrefix(remove: string -> bool, lines: seq<string>, m: nat, i: nat)
    requires i < m <= |lines|
    ensures KeptAt(remove, lines[..m], i) == KeptAt(remove, lines, i)
  {
    assert lines[..m][..i] == lines[..i];
    assert lines[..m][i] == lines[i];
  }

  /** The origins are input indices in strictly increasing order, one per output line. */
  lemma {:induction false} OriginsIncrease(remove: string -> bool, lines: seq<string>)
    ensures |Origins(remove, lines)| == |Fold(remove, lines).kept| <= |lines|
    ensures forall j :: 0 <= j < |Origins(remove, lines)| ==> 0 <= Origins(remove, lines)[j] < |lines|
    ensures forall j, k :: 0 <= j < k < |Origins(remove, lines)| ==>
              Origins(remove, lines)[j] < Origins(remove, lines)[k]
    decreases |lines|
  {
    if lines != [] {
      var n := |lines| - 1;
      var init := lines[..n];
      OriginsIncrease(remove, init);
      var o, tail := Origins(remove, init), if KeptAt(remove, lines, n) then [n] else [];
      assert Origins(remove, lines) == o + tail;
      assert forall j :: 0 <= j < |o| ==> o[j] < n;
    }
  }

  /** An input line is an origin exactly when the loop keeps it. */
  lemma {:induction false} OriginsAreKeptLines(remove: string -> bool, lines: seq<string>, i: nat)
    requires i < |lines|
    ensures KeptAt(remove, lines, i) <==> i in Origins(remove, lines)
    decreases |lines|
  {
    var n := |lines| - 1;
    var init := lines[..n];
    var o, tail := Origins(remove, init), if KeptAt(remove, lines, n) then [n] else [];
    assert Origins(remove, lines) == o + tail;
    assert i in Origins(remove, lines) <==> i in o || i in tail;
    if i < n {
      OriginsAreKeptLines(remove, init, i);
      KeptAtPrefix(remove, lines, n, i);
    } else {
      assert i == n;
      OriginsIncrease(remove, init);
      assert forall j :: 0 <= j < |o| ==> o[j] < n;
    }
  }

  /** The j-th output line is the demoted, trimmed text of input line `Origins[j]`. */
  lemma {:induction false} OutputIsImageOfOrigins(remove: string -> bool, lines: seq<string>)
    ensures |Origins(remove, lines)| == |Fold(remove, lines).kept|
    ensures forall j :: 0 <= j < |Origins(remove, lines)| ==>
              0 <= Origins(remove, lines)[j] < |lines| &&
              Fold(remove, lines).kept[j] == Demote(Strip(lines[Origins(remove, lines)[j]]))
    decreases |lines|
  {
    if lines != [] {
      var n := |lines| - 1;
      var init := lines[..n];
      OutputIsImageOfOrigins(remove, init);
      var o, c, kept := Origins(remove, init), Fold(remove, init).kept, KeptAt(remove, lines, n);
      assert Origins(remove, lines) == o + (if kept then [n] else []);
      assert Fold(remove, lines).kept == c + (if kept then [Demote(Strip(lines[n]))] else []);
      forall j | 0 <= j < |o|
        ensures Fold(remove, lines).kept[j] == Demote(Strip(lines[Origins(remove, lines)[j]]))
      {
        assert Origins(remove, lines)[j] == o[j] && Fold(remove, lines).kept[j] == c[j];
        assert lines[o[j]] == init[o[j]];
      }
    }
  }

  /**
   * The output of `clean_content` is an order-preserving image of its input: it is no
   * longer than the input, its j-th line is the demoted trimmed text of input line
   * `Origins[j]`, the origins increase strictly, and they are exactly the lines that
   * are neither boilerplate nor empty nor already seen.
   */
  lemma CleanIsOrderedImage(lines: seq<string>)
    ensures |Clean(lines)| <= |lines|
    ensures |Origins(ShouldRemoveLine, lines)| == |Clean(lines)|
    ensures forall j, k :: 0 <= j < k < |Clean(lines)| ==>
              Origins(ShouldRemoveLine, lines)[j] < Origins(ShouldRemoveLine, lines)[k]
    ensures forall j :: 0 <= j < |Clean(lines)| ==>
              0 <= Origins(ShouldRemoveLine, lines)[j] < |lines| &&
              Clean(lines)[j] == Demote(Strip(lines[Origins(ShouldRemoveLine, lines)[j]]))
    ensures forall j :: 0 <= j < |Clean(lines)| ==>
              var line := Strip(lines[Origins(ShouldRemoveLine, lines)[j]]);
              !ShouldRemoveLine(line) && line != ""
  {
    OriginsIncrease(ShouldRemoveLine, lines);
    OutputIsImageOfOrigins(ShouldRemoveLine, lines);
    forall j | 0 <= j < |Clean(lines)|
      ensures KeptAt(ShouldRemoveLine, lines, Origins(ShouldRemoveLine, lines)[j])
    {
      OriginsAreKeptLines(ShouldRemoveLine, lines, Origins(ShouldRemoveLine, lines)[j]);
    }
  }

  /** Once a text is in the seen set it stays there. */
  lemma {:induction false} SeenGrows(remove: string -> bool, lines: seq<string>, a: nat, b: nat)
    requires a <= b <= |lines|
    ensures Fold(remove, lines[..a]).seen <= Fold(remove, lines[..b]).seen
    decreases b - a
  {
    if a < b {
      SeenGrows(remove, lines, a, b - 1);
      assert lines[..b] == lines[..b - 1] + [lines[b - 1]];
      FoldAppend(remove, lines[..b - 1], lines[b - 1]);
    }
  }

  /** After a line is kept, a later line whose trimmed text equals the kept text is dropped. */
  lemma KeptTextBlocksLater(remove: string -> bool, lines: seq<string>, i: nat, j: nat)
    requires i < j < |lines|
    requires KeptAt(remove, lines, i)
    requires Strip(lines[j]) == Demote(Strip(lines[i]))
    ensures !KeptAt(remove, lines, j)
  {
    assert lines[..i + 1] == lines[..i] + [lines[i]];
    FoldAppend(remove, lines[..i], lines[i]);
    SeenGrows(remove, lines, i + 1, j);
  }

  /** Two equal plain (non-header) lines: the later one never survives. */
  lemma PlainDuplicateDropped(remove: string -> bool, lines: seq<string>, i: nat, j: nat)
    requires i < j < |lines|
    requires Strip(lines[i]) == Strip(lines[j])
    requires !StartsWith(Strip(lines[i]), "##")
    ensures !KeptAt(remove, lines, j)
  {
    var line := Strip(lines[i]);
    if KeptAt(remove, lines, i) {
      KeptTextBlocksLater(remove, lines, i, j);
    } else if !remove(line) && line != "" {
      assert line in Fold(remove, lines[..i]).seen;
      SeenGrows(remove, lines, i, j);
    }
  }

  /**
   * The corrected step: the boilerplate, emptiness and duplicate tests are made again
   * on the demoted text, so that what is emitted would pass them on a second run.
   */
  function StepDeduped(remove: string -> bool, st: CleanState, raw: string): CleanState
  {
    var line := Strip(raw);
    if remove(line) || line == "" then st
    else
      var out := Demote(line);
      if out == "" || remove(out) || out in st.seen then st
      else CleanState(st.kept + [out], st.seen + {out})
  }

  function FoldDeduped(remove: string -> bool, lines: seq<string>): (st: CleanState)
    ensures st.seen == set x | x in st.kept
    ensures forall i, j :: 0 <= i < j < |st.kept| ==> st.kept[i] != st.kept[j]
    ensures "" !in st.kept
    decreases |lines|
  {
    if lines == [] then CleanState([], {})
    else StepDeduped(remove, FoldDeduped(remove, lines[..|lines| - 1]), lines[|lines| - 1])
  }

  /** The normaliser with deduplication on the demoted text. */
  function CleanDeduped(lines: seq<string>): (r: seq<string>)
    ensures forall i, j :: 0 <= i < j < |r| ==> r[i] != r[j]
    ensures "" !in r
  {
    FoldDeduped(ShouldRemoveLine, lines).kept
  }

  /**
   * A line the corrected normaliser emits unchanged: not empty, no space at either end,
   * not boilerplate and not a header.
   */
  predicate Settled(remove: string -> bool, line: string)
  {
    line != "" && !IsSpace(line[0]) && !IsSpace(line[|line| - 1]) &&
    !remove(line) && !StartsWith(line, "##")
  }

  /** Every line the corrected fold emits is settled. */
  lemma {:induction false} FoldDedupedSettled(remove: string -> bool, lines: seq<string>)
    ensures forall i :: 0 <= i < |FoldDeduped(remove, lines).kept| ==>
              Settled(remove, FoldDeduped(remove, lines).kept[i])
    decreases |lines|
  {
    if lines != [] {
      var n := |lines| - 1;
      FoldDedupedSettled(remove, lines[..n]);
      var line := Strip(lines[n]);
      var _ := StripIsSlice(lines[n]);
      var _ := StripIsSlice(RemoveHashPairs(line));
      DemoteIdempotent(line);
    }
  }

  /** A settled line not yet emitted is emitted as it is. */
  lemma FoldDedupedAppendSettled(remove: string -> bool, init: seq<string>, line: string)
    requires FoldDeduped(remove, init).kept == init
    requires Settled(remove, line) && line !in init
    ensures FoldDeduped(remove, init + [line]).kept == init + [line]
  {
    assert (init + [line])[..|init|] == init;
    StripNoop(line);
  }

  /** In a sequence without repetitions the last element does not occur earlier. */
  lemma LastNotEarlier(lines: seq<string>)
    requires lines != []
    requires forall i, j :: 0 <= i < j < |lines| ==> lines[i] != lines[j]
    ensures lines[|lines| - 1] !in lines[..|lines| - 1]
  {
    var n := |lines| - 1;
    assert forall i :: 0 <= i < n ==> lines[..n][i] != lines[n];
  }

  /** Settled, pairwise distinct lines pass the corrected fold unchanged. */
  lemma {:induction false} FoldDedupedKeepsSettled(remove: string -> bool, lines: seq<string>)
    requires forall i :: 0 <= i < |lines| ==> Settled(remove, lines[i])
    requires forall i, j :: 0 <= i < j < |lines| ==> lines[i] != lines[j]
    ensures FoldDeduped(remove, lines).kept == lines
    decreases |lines|
  {
    if lines != [] {
      var n := |lines| - 1;
      var init, last := lines[..n], lines[n];
      assert forall i :: 0 <= i < n ==> init[i] == lines[i];
      FoldDedupedKeepsSettled(remove, init);
      LastNotEarlier(lines);
      FoldDedupedAppendSettled(remove, init, last);
      assert init + [last] == lines;
    }
  }

  /** Cleaning a cleaned document changes nothing. */
  lemma CleanDedupedIdempotent(lines: seq<string>)
    ensures CleanDeduped(CleanDeduped(lines)) == CleanDeduped(lines)
  {
    FoldDedupedSettled(ShouldRemoveLine, lines);
    FoldDedupedKeepsSettled(ShouldRemoveLine, CleanDeduped(lines));
  }

  /** The correction changes nothing for documents without `##` lines. */
  lemma {:induction false} DedupedAgreesOnPlainText(remove: string -> bool, lines: seq<string>)
    requires forall i :: 0 <= i < |lines| ==> !StartsWith(Strip(lines[i]), "##")
    ensures FoldDeduped(remove, lines) == Fold(remove, lines)
    decreases |lines|
  {
    if lines != [] {
      var n := |lines| - 1;
      assert forall i :: 0 <= i < n ==> lines[..n][i] == lines[i];
      DedupedAgreesOnPlainText(remove, lines[..n]);
      assert !StartsWith(Strip(lines[n]), "##");
    }
  }

  // ---------------------------------------------------------------------------
  // The file written by `process_directory`

  /** `'\n'.join(lines)`. */
  function JoinLines(lines: seq<string>): string
    decreases |lines|
  {
    if lines == [] then ""
    else if |lines| == 1 then lines[0]
    else JoinLines(lines[..|lines| - 1]) + "\n" + lines[|lines| - 1]
  }

  /** Cuts a text at each newline (`str.split('\n')`). */
  function SplitLines(text: string): (r: seq<string>)
    ensures |r| > 0
    decreases |text|
  {
    if text == [] then [""]
    else if text[|text| - 1] == '\n' then SplitLines(text[..|text| - 1]) + [""]
    else
      var r := SplitLines(text[..|text| - 1]);
      r[..|r| - 1] + [r[|r| - 1] + [text[|text| - 1]]]
  }

  /** A character other than a newline extends the last piece. */
  lemma SplitPushChar(text: string, c: char)
    requires c != '\n'
    ensures var r := SplitLines(text);
            SplitLines(text + [c]) == r[..|r| - 1] + [r[|r| - 1] + [c]]
  {
    assert (text + [c])[..|text|] == text;
  }

  lemma {:induction false} SplitAppendLine(text: string, line: string)
    requires '\n' !in line
    ensures SplitLines(text + "\n" + line) == SplitLines(text) + [line]
    decreases |line|
  {
    if line == [] {
      assert text + "\n" + line == text + "\n";
      assert (text + "\n")[..|text|] == text;
    } else {
      var front, c := line[..|line| - 1], line[|line| - 1];
      SplitAppendLine(text, front);
      assert text + "\n" + line == (text + "\n" + front) + [c];
      SplitPushChar(text + "\n" + front, c);
      assert front + [c] == line;
    }
  }

  lemma {:induction false} SplitSingleLine(line: string)
    requires '\n' !in line
    ensures SplitLines(line) == [line]
    decreases |line|
  {
    if line != [] {
      SplitSingleLine(line[..|line| - 1]);
      assert line[..|line| - 1] + [line[|line| - 1]] == line;
    }
  }

  /** Reading back the written file, line by line, yields the lines that were joined. */
  lemma {:induction false} JoinThenSplit(lines: seq<string>)
    requires |lines| > 0
    requires forall i :: 0 <= i < |lines| ==> '\n' !in lines[i]
    ensures SplitLines(JoinLines(lines)) == lines
    decreases |lines|
  {
    if |lines| == 1 {
      SplitSingleLine(lines[0]);
    } else {
      var init := lines[..|lines| - 1];
      JoinThenSplit(init);
      SplitAppendLine(JoinLines(init), lines[|lines| - 1]);
    }
  }

  /** The text `process_directory` writes for one input file. */
  function CleanedFileText(lines: seq<string>): string
  {
    JoinLines(Clean(lines))
  }

  /** Removing `##` pairs only drops characters. */
  lemma {:induction false} RemoveHashPairsAddsNothing(s: string, c: char)
    requires c !in s
    ensures c !in RemoveHashPairs(s)
    decreases |s|
  {
    if StartsWith(s, "##") {
      RemoveHashPairsAddsNothing(s[2..], c);
    } else if s != [] {
      RemoveHashPairsAddsNothing(s[1..], c);
    }
  }

  /** Demoting a trimmed line only drops characters. */
  lemma DemoteAddsNothing(raw: string, c: char)
    requires c !in Strip(raw)
    ensures c !in Demote(Strip(raw))
  {
    var line := Strip(raw);
    if StartsWith(line, "##") {
      RemoveHashPairsAddsNothing(line, c);
      StripAddsNothing(RemoveHashPairs(line), c);
    }
  }

  /** Every kept line is made of characters of the trimmed input lines. */
  lemma {:induction false} FoldAddsNothing(remove: string -> bool, lines: seq<string>, c: char)
    requires forall i :: 0 <= i < |lines| ==> c !in Strip(lines[i])
    ensures forall k :: 0 <= k < |Fold(remove, lines).kept| ==> c !in Fold(remove, lines).kept[k]
    decreases |lines|
  {
    if lines != [] {
      var n := |lines| - 1;
      assert forall i :: 0 <= i < n ==> lines[..n][i] == lines[i];
      FoldAddsNothing(remove, lines[..n], c);
      DemoteAddsNothing(lines[n], c);
    }
  }

  /**
   * The lines `readlines` gives hold a newline at most at their end, so the cleaned
   * lines hold none, and reading the written file back line by line gives the cleaned
   * lines; an empty result is written as an empty file, which reads back as one empty
   * line.
   */
  lemma CleanedFileReadBack(lines: seq<string>)
    requires forall i, k :: 0 <= i < |lines| && 0 <= k < |lines[i]| - 1 ==> lines[i][k] != '\n'
    ensures Clean(lines) != [] ==> SplitLines(CleanedFileText(lines)) == Clean(lines)
    ensures Clean(lines) == [] ==> SplitLines(CleanedFileText(lines)) == [""]
  {
    forall i | 0 <= i < |lines|
      ensures '\n' !in Strip(lines[i])
    {
      StripDropsFinalNewline(lines[i]);
    }
    FoldAddsNothing(ShouldRemoveLine, lines, '\n');
    if Clean(lines) != [] {
      JoinThenSplit(Clean(lines));
    }
  }
}
