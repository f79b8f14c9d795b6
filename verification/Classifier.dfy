/** The response classifier: a single forward scan over the lines of the
    model's free-text answer that keeps a section cursor and fills a disease
    name, a list of symptoms and a list of recommended actions. */
module Classifier {
  import opened Strings

  /** The section cursor; `Unset` is the state before any header line. */
  datatype Section = Unset | DiseaseSection | SymptomsSection | ActionsSection

  datatype Option<T> = None | Some(value: T)

  /** What the scan produces. */
  datatype Advisory = Advisory(diseaseName: string, symptoms: seq<string>, actions: seq<string>)

  /** Everything the scan carries from one line to the next. */
  datatype ScanState = ScanState(section: Section, advisory: Advisory)

  const Start: ScanState := ScanState(Unset, Advisory("", [], []))

  /** The characters removed from the front of an accepted bullet line:
      '-', the bullet U+2022, the ASCII digits, '.' and the space. */
  const BulletChars: set<char> :=
    {'-', '\U{2022}', '0', '1', '2', '3', '4', '5', '6', '7', '8', '9', '.', ' '}

  predicate IsDigit(c: char)
  {
    '0' <= c <= '9'
  }

  // ------------------------------------------------------------- one line

  /** The section a trimmed line opens, if it is a header. The tests run in a
      fixed order and the first that matches wins. */
  function HeaderKind(line: string): Option<Section>
  {
    var low := Lower(line);
    if Contains(low, "disease") && Contains(low, "identification") then Some(DiseaseSection)
    else if Contains(low, "symptom") then Some(SymptomsSection)
    else if Contains(low, "action") || Contains(low, "treatment") || Contains(low, "recommend") then
      Some(ActionsSection)
    else None
  }

  /** A trimmed line is a list item when it starts with '-', the bullet or a digit. */
  predicate IsBullet(line: string)
  {
    line != [] && (line[0] == '-' || line[0] == '\U{2022}' || IsDigit(line[0]))
  }

  /** An item never starts with one of the stripped marker characters. */
  predicate ItemClean(item: string)
  {
    item == [] || item[0] !in BulletChars
  }

  /** A disease name holds no '*' or '#' and has no whitespace at either end. */
  predicate NameClean(name: string)
  {
    '*' !in name && '#' !in name && (name == [] || (name[0] !in Whitespace && name[|name| - 1] !in Whitespace))
  }

  /** The list item stored for an accepted bullet line: the line minus its
      leading run of marker characters. */
  function BulletItem(line: string): (item: string)
    ensures ItemClean(item)
    ensures |item| <= |line| && item == line[|line| - |item|..]
    ensures forall k :: 0 <= k < |line| - |item| ==> line[k] in BulletChars
  {
    LStrip(line, BulletChars)
  }

  /** The line with every '*' and every '#' deleted. */
  function Unmarked(line: string): string
  {
    RemoveChar(RemoveChar(line, '*'), '#')
  }

  /** The disease name taken from a line: '*' and '#' deleted, then trimmed. */
  function DiseaseName(line: string): (name: string)
    ensures NameClean(name)
    ensures forall c :: c in name ==> c in line
  {
    var plain := Unmarked(line);
    RemoveCharCount(line, '*');
    RemoveCharCount(RemoveChar(line, '*'), '#');
    assert '*' !in plain && '#' !in plain by {
      assert multiset(plain)['*'] == 0 && multiset(plain)['#'] == 0;
    }
    assert forall c :: c in plain ==> c in line by {
      forall c | c in plain ensures c in line {
        assert multiset(plain)[c] > 0;
      }
    }
    Strip(plain, Whitespace)
  }

  /** The name is cut from the line without its markers at two points
      `i <= j`: it is the slice between them, and only whitespace lies
      before `i` and from `j` on. */
  lemma DiseaseNameSlice(line: string) returns (i: nat, j: nat)
    ensures i <= j <= |Unmarked(line)| && DiseaseName(line) == Unmarked(line)[i..j]
    ensures forall k :: 0 <= k < i ==> Unmarked(line)[k] in Whitespace
    ensures forall k :: j <= k < |Unmarked(line)| ==> Unmarked(line)[k] in Whitespace
  {
    i, j := StripSlice(Unmarked(line), Whitespace);
  }

  /** One iteration of the scan: blank lines change nothing; a header line
      only moves the cursor; any other line is routed by the cursor. What a
      step may change is stated by `StepEffects`. */
  function Step(st: ScanState, raw: string): ScanState
  {
    var line := Strip(raw, Whitespace);
    if line == [] then st
    else match HeaderKind(line)
      case Some(sec) => st.(section := sec)
      case None =>
        var a := st.advisory;
        match st.section
        case Unset => st
        case DiseaseSection =>
          if a.diseaseName == [] then st.(advisory := a.(diseaseName := DiseaseName(line))) else st
        case SymptomsSection =>
          if IsBullet(line) then st.(advisory := a.(symptoms := a.symptoms + [BulletItem(line)])) else st
        case ActionsSection =>
          if IsBullet(line) then st.(advisory := a.(actions := a.actions + [BulletItem(line)])) else st
  }

  /** What one step may change: a header line reaches no output and moves
      the cursor to its own section; the name is written only while it is
      still empty and the cursor is on the disease section; each list grows
      by at most the cleaned line, and only while the cursor is on it. */
  lemma StepEffects(st: ScanState, raw: string)
    ensures HeaderKind(Strip(raw, Whitespace)) != None ==> Step(st, raw).advisory == st.advisory
    ensures Step(st, raw).section == st.section || Some(Step(st, raw).section) == HeaderKind(Strip(raw, Whitespace))
    ensures Step(st, raw).advisory.diseaseName == st.advisory.diseaseName
            || (st.section == DiseaseSection && st.advisory.diseaseName == []
                && Step(st, raw).advisory.diseaseName == DiseaseName(Strip(raw, Whitespace)))
    ensures Step(st, raw).advisory.symptoms == st.advisory.symptoms
            || (st.section == SymptomsSection
                && Step(st, raw).advisory.symptoms == st.advisory.symptoms + [BulletItem(Strip(raw, Whitespace))])
    ensures Step(st, raw).advisory.actions == st.advisory.actions
            || (st.section == ActionsSection
                && Step(st, raw).advisory.actions == st.advisory.actions + [BulletItem(Strip(raw, Whitespace))])
  {
  }

  // ------------------------------------------------------------ all lines

  /** The scan as a fold: the state after feeding `lines`, in order, from `st`. */
  function Run(st: ScanState, lines: seq<string>): ScanState
    decreases |lines|
  {
    if lines == [] then st else Step(Run(st, lines[..|lines| - 1]), lines[|lines| - 1])
  }

  /** The result of classifying a whole response text. */
  function Classification(text: string): Advisory
  {
    Run(Start, SplitLines(text)).advisory
  }

  /** The caller shows the raw text instead when nothing at all was found. */
  predicate ShowRaw(a: Advisory)
  {
    a.diseaseName == [] && a.symptoms == [] && a.actions == []
  }

  /** The scan as the application runs it: one pass over the lines with a
      section cursor, a disease name and two lists updated as it goes. */
  method Classify(text: string) returns (advisory: Advisory)
    ensures advisory == Classification(text)
  {
    var lines := SplitLines(text);
    var diseaseName, symptoms, actions := "", [], [];
    var section := Unset;
    for i := 0 to |lines|
      invariant ScanState(section, Advisory(diseaseName, symptoms, actions)) == Run(Start, lines[..i])
    {
      ghost var before := ScanState(section, Advisory(diseaseName, symptoms, actions));
      assert lines[..i + 1][..i] == lines[..i];
      assert Run(Start, lines[..i + 1]) == Step(before, lines[i]);
      var line := Strip(lines[i], Whitespace);
      if line == [] {
        continue;
      }
      match HeaderKind(line) {
        case Some(sec) =>
          section := sec;
          continue;
        case None =>
      }
      if section == DiseaseSection && diseaseName == [] {
        diseaseName := Strip(Unmarked(line), Whitespace);
      } else if section == SymptomsSection {
        if line[0] == '-' || line[0] == '\U{2022}' || IsDigit(line[0]) {
          symptoms := symptoms + [LStrip(line, BulletChars)];
        }
      } else if section == ActionsSection {
        if line[0] == '-' || line[0] == '\U{2022}' || IsDigit(line[0]) {
          actions := actions + [LStrip(line, BulletChars)];
        }
      }
    }
    assert lines[..|lines|] == lines;
    advisory := Advisory(diseaseName, symptoms, actions);
  }
}
