/**
 * Worked examples of the line normaliser: the documented footer-and-duplicate case,
 * the header cases where the normaliser as written differs from `CleanDeduped`, and
 * a second run that changes the output of the first.
 */
module CleanerExamples {
  import opened Text
  import opened Cleaner

  // ---------------------------------------------------------------------------
  // Worked examples

  /** A step on an admitted line appends its demoted text to both the output and the set. */
  lemma StepOnAdmitted(remove: string -> bool, st: CleanState, raw: string)
    requires Admits(remove, st.seen, Strip(raw))
    ensures Step(remove, st, raw) == CleanState(st.kept + [Demote(Strip(raw))], st.seen + {Demote(Strip(raw))})
  {
  }

  /** A step on a rejected line changes nothing. */
  lemma StepOnRejected(remove: string -> bool, st: CleanState, raw: string)
    requires !Admits(remove, st.seen, Strip(raw))
    ensures Step(remove, st, raw) == st
  {
  }

  /** An ordinary line (see `OrdinaryLine`) not yet seen is admitted as it is. */
  lemma OrdinaryAdmitted(line: string, seen: set<string>)
    requires line != [] && !IsSpace(line[0]) && !IsSpace(line[|line| - 1])
    requires forall i :: 0 <= i < |line| ==> !IsPatternInitial(line[i])
    requires line !in seen
    ensures Strip(line) == line && Admits(ShouldRemoveLine, seen, Strip(line))
  {
    OrdinaryLine(line);
  }

  lemma OneLine(remove: string -> bool, a: string)
    ensures Fold(remove, [a]) == Step(remove, CleanState([], {}), a)
  {
    assert [a][..0] == [];
  }

  lemma TwoLines(remove: string -> bool, a: string, b: string)
    ensures Fold(remove, [a, b]) == Step(remove, Step(remove, CleanState([], {}), a), b)
  {
    assert [a, b][..1] == [a];
    OneLine(remove, a);
  }

  lemma ThreeLines(remove: string -> bool, a: string, b: string, c: string)
    ensures Fold(remove, [a, b, c]) ==
            Step(remove, Step(remove, Step(remove, CleanState([], {}), a), b), c)
  {
    assert [a, b, c][..2] == [a, b];
    TwoLines(remove, a, b);
  }

  /** `## X` followed by a plain `X`: the header is kept, demoted, and the plain line is dropped. */
  lemma HeaderThenPlainKeptOnce(remove: string -> bool, x: string)
    requires x != [] && !IsSpace(x[0]) && !IsSpace(x[|x| - 1])
    requires !remove("## " + x) && Demote("## " + x) == x
    ensures Fold(remove, ["## " + x, x]) == CleanState([x], {x})
  {
    var h := "## " + x;
    assert h[0] == '#' && h[|h| - 1] == x[|x| - 1];
    StripNoop(h);
    StripNoop(x);
    TwoLines(remove, h, x);
    StepOnAdmitted(remove, CleanState([], {}), h);
    StepOnRejected(remove, CleanState([x], {x}), x);
  }

  lemma TelLineRemoved(st: CleanState)
    ensures Step(ShouldRemoveLine, st, "Tel. : 123") == st
  {
    var t := "Tel. : 123";
    StripNoop(t);
    assert ShouldRemoveLine(t) by {
      assert OccursAt(t, "Tel. :", 0);
      assert "Tel. :" in RemovalPatterns;
    }
    StepOnRejected(ShouldRemoveLine, st, t);
  }

  lemma QueimaduraStep(st: CleanState)
    ensures "Queimadura no braço" !in st.seen ==>
              Step(ShouldRemoveLine, st, "Queimadura no braço") ==
              CleanState(st.kept + ["Queimadura no braço"], st.seen + {"Queimadura no braço"})
    ensures "Queimadura no braço" in st.seen ==> Step(ShouldRemoveLine, st, "Queimadura no braço") == st
  {
    var q := "Queimadura no braço";
    OrdinaryAdmitted(q, {});
    assert !StartsWith(q, "##") by { assert q[..2][0] == 'Q'; }
  }

  /** The example of the normaliser's documentation: a footer line and a repeated line. */
  lemma FooterAndDuplicateExample()
    ensures Clean(["Tel. : 123", "Queimadura no braço", "Queimadura no braço"]) == ["Queimadura no braço"]
  {
    var t, q := "Tel. : 123", "Queimadura no braço";
    ThreeLines(ShouldRemoveLine, t, q, q);
    TelLineRemoved(CleanState([], {}));
    QueimaduraStep(CleanState([], {}));
    QueimaduraStep(CleanState([q], {q}));
  }

  // ---------------------------------------------------------------------------
  // The header asymmetry, as written and corrected

  lemma AltaPairsRemoved()
    ensures RemoveHashPairs("## Alta") == " Alta"
  {
    assert StartsWith("## Alta", "##");
    assert "## Alta"[2..] == " Alta";
    NoHashUnchanged(" Alta");
  }

  lemma AltaStripped()
    ensures Strip(" Alta") == "Alta"
  {
    assert TrimLeft(" Alta") == "Alta" by {
      assert IsSpace(" Alta"[0]) && " Alta"[1..] == "Alta";
      assert !IsSpace("Alta"[0]);
    }
    StripNoop("Alta");
  }

  /** `Alta` is ordinary text, and a line of its own after demotion. */
  lemma AltaIsOrdinary()
    ensures Strip("Alta") == "Alta" && !ShouldRemoveLine("Alta") && Demote("Alta") == "Alta"
  {
    var a := "Alta";
    assert forall i :: 0 <= i < |a| ==> !IsPatternInitial(a[i]) by {
      assert a[0] == 'A' && a[1] == 'l' && a[2] == 't' && a[3] == 'a';
    }
    OrdinaryLine(a);
    assert !StartsWith(a, "##") by { assert a[..2][0] == 'A'; }
  }

  /** The header `## Alta` is ordinary text that demotes to `Alta`. */
  lemma AltaHeader()
    ensures Strip("## Alta") == "## Alta" && Admits(ShouldRemoveLine, {}, "## Alta")
    ensures Demote("## Alta") == "Alta"
  {
    OrdinaryAdmitted("## Alta", {});
    AltaPairsRemoved();
    AltaStripped();
    assert StartsWith("## Alta", "##");
  }

  lemma AltaStep(st: CleanState)
    requires "## Alta" !in st.seen
    ensures Step(ShouldRemoveLine, st, "## Alta") == CleanState(st.kept + ["Alta"], st.seen + {"Alta"})
  {
    AltaHeader();
    StepOnAdmitted(ShouldRemoveLine, st, "## Alta");
  }

  /** As written: a repeated `## X` header is kept twice, because `seen_lines` holds `X`. */
  lemma RepeatedHeaderSurvives()
    ensures Clean(["## Alta", "## Alta"]) == ["Alta", "Alta"]
  {
    TwoLines(ShouldRemoveLine, "## Alta", "## Alta");
    AltaStep(CleanState([], {}));
    AltaStep(CleanState(["Alta"], {"Alta"}));
  }

  lemma BareHeaderDemotesToEmpty()
    ensures Demote("##") == ""
  {
    assert RemoveHashPairs("##") == [] by {
      assert StartsWith("##", "##");
    }
  }

  /** As written: a bare `##` line passes every filter and is emitted as an empty line. */
  lemma BareHeaderYieldsEmptyLine()
    ensures Clean(["##"]) == [""]
  {
    OneLine(ShouldRemoveLine, "##");
    OrdinaryAdmitted("##", {});
    BareHeaderDemotesToEmpty();
    StepOnAdmitted(ShouldRemoveLine, CleanState([], {}), "##");
  }

  lemma DedupedTwoLines(remove: string -> bool, a: string, b: string)
    ensures FoldDeduped(remove, [a, b]) ==
            StepDeduped(remove, StepDeduped(remove, CleanState([], {}), a), b)
  {
    assert [a, b][..1] == [a];
    assert [a][..0] == [];
    assert FoldDeduped(remove, [a]) == StepDeduped(remove, CleanState([], {}), a);
  }

  /** Corrected: the repeated `## Alta` header is kept once. */
  lemma RepeatedHeaderKeptOnce()
    ensures CleanDeduped(["## Alta", "## Alta"]) == ["Alta"]
  {
    DedupedTwoLines(ShouldRemoveLine, "## Alta", "## Alta");
    AltaHeader();
    AltaIsOrdinary();
  }

  /** Corrected: a bare `##` line yields no output line. */
  lemma BareHeaderDropped()
    ensures CleanDeduped(["##"]) == []
  {
    assert ["##"][..0] == [];
    OrdinaryAdmitted("##", {});
    BareHeaderDemotesToEmpty();
  }

  // ---------------------------------------------------------------------------
  // Cleaning twice

  /** An empty line is dropped. */
  lemma EmptyLineDropped()
    ensures Clean([""]) == []
  {
    OneLine(ShouldRemoveLine, "");
    StepOnRejected(ShouldRemoveLine, CleanState([], {}), "");
  }

  /** As written, cleaning is not idempotent: `["##"]` cleans to `[""]`, which cleans to `[]`. */
  lemma CleanNotIdempotent()
    ensures Clean(Clean(["##"])) != Clean(["##"])
  {
    BareHeaderYieldsEmptyLine();
    EmptyLineDropped();
  }

  /** `Alta` twice cleans to one `Alta`. */
  lemma PlainRepeatCleansOnce()
    ensures Clean(["Alta", "Alta"]) == ["Alta"]
  {
    TwoLines(ShouldRemoveLine, "Alta", "Alta");
    AltaIsOrdinary();
    StepOnAdmitted(ShouldRemoveLine, CleanState([], {}), "Alta");
    StepOnRejected(ShouldRemoveLine, CleanState(["Alta"], {"Alta"}), "Alta");
  }

  /** As written, the repeated header that survives one run is deduplicated by the next. */
  lemma RepeatedHeaderCleansAgain()
    ensures Clean(Clean(["## Alta", "## Alta"])) == ["Alta"]
  {
    RepeatedHeaderSurvives();
    PlainRepeatCleansOnce();
  }

  /** `## ---` is not boilerplate: the separator test sees the hashes, and no pattern occurs in it. */
  lemma DashedHeaderKept()
    ensures Strip("## ---") == "## ---" && !ShouldRemoveLine("## ---")
  {
    var h := "## ---";
    StripNoop(h);
    forall p | p in RemovalPatterns
      ensures !Contains(h, p)
    {
      if p == "-----" || p == "- - - -" {
        forall i | 0 <= i <= |h|
          ensures !OccursAt(h, p, i)
        {
          if i + |p| <= |h| {
            assert h[i..i + |p|][0] == h[i] == '#';
          }
        }
      } else {
        MissingInitialBlocks(h, p);
      }
    }
    assert !IsSpace(h[0]) && h[0] != '-' && h[0] != '_';
  }

  lemma DashedPairsRemoved()
    ensures RemoveHashPairs("## ---") == " ---"
  {
    assert StartsWith("## ---", "##");
    assert "## ---"[2..] == " ---";
    NoHashUnchanged(" ---");
  }

  lemma DashedStripped()
    ensures Strip(" ---") == "---"
  {
    assert TrimLeft(" ---") == "---" by {
      assert IsSpace(" ---"[0]) && " ---"[1..] == "---";
      assert !IsSpace("---"[0]);
    }
    StripNoop("---");
  }

  /** `## ---` demotes to the separator `---`, which is boilerplate. */
  lemma DashedHeaderDemotesToSeparator()
    ensures Demote("## ---") == "---" && ShouldRemoveLine("---")
  {
    assert StartsWith("## ---", "##");
    DashedPairsRemoved();
    DashedStripped();
    StripNoop("---");
  }

  /** Corrected: a header that demotes to boilerplate is dropped, so a second run has nothing to remove. */
  lemma DashedHeaderDropped()
    ensures CleanDeduped(["## ---"]) == []
  {
    assert ["## ---"][..0] == [];
    DashedHeaderKept();
    DashedHeaderDemotesToSeparator();
  }
}
