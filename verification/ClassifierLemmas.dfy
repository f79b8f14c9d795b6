/** What the scan guarantees over whole sequences of lines. */
module ClassifierLemmas {
  import opened Strings
  import opened Classifier

  /** The line is blank once trimmed. */
  predicate IsBlank(raw: string)
  {
    Strip(raw, Whitespace) == []
  }

  /** The line is a header once trimmed. */
  predicate IsHeaderLine(raw: string)
  {
    HeaderKind(Strip(raw, Whitespace)) != None
  }

  /** The lines that are not blank, in their original order. */
  function NonBlank(lines: seq<string>): seq<string>
    decreases |lines|
  {
    if lines == [] then []
    else if IsBlank(lines[|lines| - 1]) then NonBlank(lines[..|lines| - 1])
    else NonBlank(lines[..|lines| - 1]) + [lines[|lines| - 1]]
  }

  /** The section named by the last header among `lines`, or `d` if there is none. */
  function LastHeader(lines: seq<string>, d: Section): Section
    decreases |lines|
  {
    if lines == [] then d
    else match HeaderKind(Strip(lines[|lines| - 1], Whitespace))
      case Some(s) => s
      case None => LastHeader(lines[..|lines| - 1], d)
  }

  /** Every item and the name are in their cleaned form. */
  predicate WellFormed(a: Advisory)
  {
    NameClean(a.diseaseName) && AllClean(a.symptoms) && AllClean(a.actions)
  }

  predicate AllClean(items: seq<string>)
  {
    forall i :: 0 <= i < |items| ==> ItemClean(items[i])
  }

  predicate IsPrefix<T(==)>(p: seq<T>, s: seq<T>)
  {
    |p| <= |s| && s[..|p|] == p
  }

  /** Scanning `a + b` is scanning `a`, then scanning `b` from where `a` left off. */
  lemma {:induction false} RunAppend(st: ScanState, a: seq<string>, b: seq<string>)
    ensures Run(st, a + b) == Run(Run(st, a), b)
    decreases |b|
  {
    if b == [] {
      assert a + b == a;
    } else {
      var b' := b[..|b| - 1];
      assert (a + b)[..|a + b| - 1] == a + b';
      assert (a + b)[|a + b| - 1] == b[|b| - 1];
      RunAppend(st, a, b');
    }
  }

  /** A blank or whitespace-only line changes neither the cursor nor any output. */
  lemma BlankLineNoop(st: ScanState, raw: string)
    requires forall k :: 0 <= k < |raw| ==> raw[k] in Whitespace
    ensures Step(st, raw) == st
  {
  }

  /** Dropping every blank line leaves the result of the scan unchanged. */
  lemma {:induction false} BlankLinesIgnored(st: ScanState, lines: seq<string>)
    ensures Run(st, lines) == Run(st, NonBlank(lines))
    decreases |lines|
  {
    if lines != [] {
      var init, last := lines[..|lines| - 1], lines[|lines| - 1];
      BlankLinesIgnored(st, init);
      if !IsBlank(last) {
        var nb := NonBlank(init) + [last];
        assert nb[..|nb| - 1] == NonBlank(init);
      }
    }
  }

  /** The cursor after a scan is the section of the last header line seen,
      or the starting one if no header was seen. */
  lemma {:induction false} SectionIsLastHeader(st: ScanState, lines: seq<string>)
    ensures Run(st, lines).section == LastHeader(lines, st.section)
    decreases |lines|
  {
    if lines != [] {
      var init, last := lines[..|lines| - 1], lines[|lines| - 1];
      SectionIsLastHeader(st, init);
      if Strip(last, Whitespace) == [] {
        assert !Contains(Lower([]), "disease") && !Contains(Lower([]), "symptom");
        assert !Contains(Lower([]), "action") && !Contains(Lower([]), "treatment");
        assert !Contains(Lower([]), "recommend");
      }
    }
  }

  /** Before any header is seen every line is dropped: a preamble with no
      header line leaves the starting state as it was. */
  lemma {:induction false} PreambleDropped(st: ScanState, lines: seq<string>)
    requires st.section == Unset
    requires forall i :: 0 <= i < |lines| ==> !IsHeaderLine(lines[i])
    ensures Run(st, lines) == st
    decreases |lines|
  {
    if lines != [] {
      PreambleDropped(st, lines[..|lines| - 1]);
    }
  }

  /** Lines before the first header have no effect on what follows them. */
  lemma LeadingLinesIgnored(pre: seq<string>, rest: seq<string>)
    requires forall i :: 0 <= i < |pre| ==> !IsHeaderLine(pre[i])
    ensures Run(Start, pre + rest) == Run(Start, rest)
  {
    RunAppend(Start, pre, rest);
    PreambleDropped(Start, pre);
  }

  /** Once the disease name is non-empty, no later line changes it. */
  lemma {:induction false} NameSticky(st: ScanState, lines: seq<string>)
    requires st.advisory.diseaseName != []
    ensures Run(st, lines).advisory.diseaseName == st.advisory.diseaseName
    decreases |lines|
  {
    if lines != [] {
      NameSticky(st, lines[..|lines| - 1]);
      StepEffects(Run(st, lines[..|lines| - 1]), lines[|lines| - 1]);
    }
  }

  /** The first non-header line in the disease section that yields a
      non-empty name is the name the scan ends with. */
  lemma FirstNameWins(before: seq<string>, line: string, after: seq<string>)
    requires Run(Start, before).section == DiseaseSection
    requires Run(Start, before).advisory.diseaseName == []
    requires !IsHeaderLine(line)
    requires DiseaseName(Strip(line, Whitespace)) != []
    ensures Run(Start, before + [line] + after).advisory.diseaseName == DiseaseName(Strip(line, Whitespace))
  {
    var mid := Run(Start, before + [line]);
    assert (before + [line])[..|before + [line]| - 1] == before;
    assert mid.advisory.diseaseName == DiseaseName(Strip(line, Whitespace));
    RunAppend(Start, before + [line], after);
    NameSticky(mid, after);
  }

  /** Lists are only ever appended to: what a scan has collected stays, in
      the same order, at the front of what it finally returns. */
  lemma {:induction false} OutputsOnlyGrow(st: ScanState, lines: seq<string>)
    ensures IsPrefix(st.advisory.symptoms, Run(st, lines).advisory.symptoms)
    ensures IsPrefix(st.advisory.actions, Run(st, lines).advisory.actions)
    decreases |lines|
  {
    if lines != [] {
      var mid := Run(st, lines[..|lines| - 1]);
      OutputsOnlyGrow(st, lines[..|lines| - 1]);
      var r := Step(mid, lines[|lines| - 1]);
      StepEffects(mid, lines[|lines| - 1]);
      if r.advisory.symptoms != mid.advisory.symptoms {
        assert r.advisory.symptoms[..|mid.advisory.symptoms|] == mid.advisory.symptoms;
      }
      if r.advisory.actions != mid.advisory.actions {
        assert r.advisory.actions[..|mid.advisory.actions|] == mid.advisory.actions;
      }
    }
  }

  /** Items keep input line order: items from earlier lines come before items
      from later lines. */
  lemma OrderKept(st: ScanState, a: seq<string>, b: seq<string>)
    ensures IsPrefix(Run(st, a).advisory.symptoms, Run(st, a + b).advisory.symptoms)
    ensures IsPrefix(Run(st, a).advisory.actions, Run(st, a + b).advisory.actions)
  {
    RunAppend(st, a, b);
    OutputsOnlyGrow(Run(st, a), b);
  }

  /** Each non-blank line adds at most one item in total. */
  lemma {:induction false} ItemCountBound(st: ScanState, lines: seq<string>)
    ensures |Run(st, lines).advisory.symptoms| + |Run(st, lines).advisory.actions|
            <= |st.advisory.symptoms| + |st.advisory.actions| + |NonBlank(lines)|
    decreases |lines|
  {
    if lines != [] {
      ItemCountBound(st, lines[..|lines| - 1]);
      StepEffects(Run(st, lines[..|lines| - 1]), lines[|lines| - 1]);
    }
  }

  /** One line changes at most one of the three outputs: a symptom line
      leaves the actions and the name alone, and so on. */
  lemma StepTouchesOneOutput(st: ScanState, raw: string)
    ensures var r := Step(st, raw).advisory;
            (r.symptoms != st.advisory.symptoms ==> r.actions == st.advisory.actions && r.diseaseName == st.advisory.diseaseName)
            && (r.actions != st.advisory.actions ==> r.symptoms == st.advisory.symptoms && r.diseaseName == st.advisory.diseaseName)
            && (r.diseaseName != st.advisory.diseaseName ==> r.symptoms == st.advisory.symptoms && r.actions == st.advisory.actions)
  {
    StepEffects(st, raw);
  }

  /** The empty text is total too: it is one empty line and yields nothing. */
  lemma EmptyText()
    ensures Classification("") == Advisory("", [], [])
  {
    assert SplitLines("") == [""];
    assert [""][..0] == [];
  }

  /** One line keeps the name and every item in their cleaned form. */
  lemma StepWellFormed(st: ScanState, raw: string)
    requires WellFormed(st.advisory)
    ensures WellFormed(Step(st, raw).advisory)
  {
    var r := Step(st, raw);
    StepEffects(st, raw);
    AppendClean(st.advisory.symptoms, r.advisory.symptoms, Strip(raw, Whitespace));
    AppendClean(st.advisory.actions, r.advisory.actions, Strip(raw, Whitespace));
  }

  lemma AppendClean(before: seq<string>, after: seq<string>, line: string)
    requires AllClean(before)
    requires after == before || after == before + [BulletItem(line)]
    ensures AllClean(after)
  {
    if after != before {
      forall i | 0 <= i < |after| ensures ItemClean(after[i]) {
        if i < |before| {
          assert after[i] == before[i];
        }
      }
    }
  }

  /** Every name and item the scan produces is in its cleaned form. */
  lemma {:induction false} RunWellFormed(st: ScanState, lines: seq<string>)
    requires WellFormed(st.advisory)
    ensures WellFormed(Run(st, lines).advisory)
    decreases |lines|
  {
    if lines != [] {
      RunWellFormed(st, lines[..|lines| - 1]);
      StepWellFormed(Run(st, lines[..|lines| - 1]), lines[|lines| - 1]);
    }
  }

  /** Classifying any text yields a cleaned result whose item count is bounded
      by the number of non-blank lines. */
  lemma ClassificationFacts(text: string)
    ensures WellFormed(Classification(text))
    ensures |Classification(text).symptoms| + |Classification(text).actions| <= |NonBlank(SplitLines(text))|
  {
    RunWellFormed(Start, SplitLines(text));
    ItemCountBound(Start, SplitLines(text));
  }

  /** A text without any header line is always shown raw. */
  lemma NoHeaderShowsRaw(text: string)
    requires forall i :: 0 <= i < |SplitLines(text)| ==> !IsHeaderLine(SplitLines(text)[i])
    ensures ShowRaw(Classification(text))
  {
    PreambleDropped(Start, SplitLines(text));
  }

  /** Once something has been found, more lines never bring back the raw view. */
  lemma ShowRawOnlyIfNothingYet(st: ScanState, lines: seq<string>)
    requires !ShowRaw(st.advisory)
    ensures !ShowRaw(Run(st, lines).advisory)
  {
    OutputsOnlyGrow(st, lines);
    if st.advisory.diseaseName != [] {
      NameSticky(st, lines);
    }
  }
}
